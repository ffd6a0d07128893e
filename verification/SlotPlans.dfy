/** Parallel plans: normalising write scopes, and accepting a set of slots only when no
    repository path lies in the scopes of two of them. */
module SlotPlans {
  import opened Wrappers
  import opened StableSort
  import opened Paths

  const MAX_SLOTS: nat := 3
  const OUTBOX: string := "agent-control/outbox/claude-response.json"

  /** What the platform decides about paths: blank characters, absolute paths, case. */
  datatype Platform = Platform(blank: char -> bool, absolute: string -> bool, fold: string -> string)

  // ---------------------------------------------------------------- scopes

  function Slashes(raw: string): (text: string)
    ensures |text| == |raw|
    ensures forall i :: 0 <= i < |raw| ==> text[i] == if raw[i] == '\\' then '/' else raw[i]
  {
    seq(|raw|, i requires 0 <= i < |raw| => if raw[i] == '\\' then '/' else raw[i])
  }

  predicate CleanPart(part: string) {
    part != "" && part != "." && part != ".."
  }

  function FoldAll(p: Platform, parts: seq<string>): (folded: seq<string>)
    ensures |folded| == |parts| && forall i :: 0 <= i < |parts| ==> folded[i] == p.fold(parts[i])
  {
    if parts == [] then [] else [p.fold(parts[0])] + FoldAll(p, parts[1..])
  }

  /** `_normalized_scope`. */
  function NormalizedScope(p: Platform, raw: string): Option<Path> {
    if raw == "" || p.blank(raw[0]) || p.blank(raw[|raw| - 1]) then None
    else if '\0' in raw || ':' in raw || p.absolute(raw) then None
    else
      var text := Slashes(raw);
      var parts := Split(text);
      if text[0] == '/' || !(forall i :: 0 <= i < |parts| ==> CleanPart(parts[i])) then None
      else Some(FoldAll(p, parts))
  }

  /** A normalised scope names a place inside the repository: at least one component, and
      none that is empty, climbs, or hides a separator of either kind. */
  lemma ScopeStaysInside(p: Platform, raw: string)
    requires NormalizedScope(p, raw).Some?
    ensures NormalizedScope(p, raw).value != []
    ensures forall i :: 0 <= i < |Split(Slashes(raw))| ==>
              var part := Split(Slashes(raw))[i];
              part != "" && part != "." && part != ".." && '/' !in part && '\\' !in part
  {
    var text := Slashes(raw);
    SplitHasNoSlash(text);
    forall i | 0 <= i < |Split(text)|
      ensures CleanPart(Split(text)[i]) && '/' !in Split(text)[i] && '\\' !in Split(text)[i]
    {
      assert NoSlash(Split(text)[i]);
      SplitKeepsChars(text, i, '\\');
    }
  }

  lemma {:induction false} SplitKeepsChars(text: string, i: nat, c: char)
    requires i < |Split(text)| && c !in text
    ensures c !in Split(text)[i]
  {
    if text != "" {
      assert forall k :: 0 <= k < |text[1..]| ==> text[1..][k] == text[k + 1];
      var rest := Split(text[1..]);
      if text[0] == '/' {
        if i > 0 {
          SplitKeepsChars(text[1..], i - 1, c);
        }
      } else {
        SplitKeepsChars(text[1..], i, c);
      }
    }
  }

  // ---------------------------------------------------------------- slots

  datatype Task = Task(id: string, revision: int, writes: seq<string>)

  /** One slot of a plan document, with what the worktree and its inbox were found to be. */
  datatype RawSlot = RawSlot(slotId: string, root: string, branch: string, wellFormed: bool, registered: bool,
                             sameRepository: bool, onBranch: bool, hasDispatcher: bool, task: Option<Task>)

  datatype Slot = Slot(slotId: string, root: string, branch: string, taskId: string, revision: int, scopes: seq<Path>)

  /** The normalised scopes of the allowed writes, the coordination outbox aside. */
  function ScopesOf(p: Platform, writes: seq<string>): Option<seq<Path>> {
    if writes == [] then Some([])
    else
      var rest := ScopesOf(p, writes[1..]);
      if writes[0] == OUTBOX then rest
      else
        var scope := NormalizedScope(p, writes[0]);
        if scope.Some? && rest.Some? then Some([scope.value] + rest.value) else None
  }

  /** One slot on its own. */
  function ValidatedSlot(p: Platform, raw: RawSlot): Option<Slot> {
    if !raw.registered || !raw.sameRepository || !raw.onBranch || !raw.hasDispatcher || raw.task.None? then None
    else
      var scopes := ScopesOf(p, raw.task.value.writes);
      if OUTBOX !in raw.task.value.writes || scopes.None? then None
      else Some(Slot(raw.slotId, raw.root, raw.branch, raw.task.value.id, raw.task.value.revision, scopes.value))
  }

  /** Slots, roots and branches of well-formed slots, none twice, none at the primary root. */
  predicate Structured(raws: seq<RawSlot>, primary: string) {
    && (forall i :: 0 <= i < |raws| ==> raws[i].wellFormed && raws[i].root != primary)
    && (forall i, j :: 0 <= i < j < |raws| ==>
          raws[i].slotId != raws[j].slotId && raws[i].root != raws[j].root && raws[i].branch != raws[j].branch)
  }

  predicate SlotsClash(a: Slot, b: Slot) {
    exists i, j :: 0 <= i < |a.scopes| && 0 <= j < |b.scopes| && Overlap(a.scopes[i], b.scopes[j])
  }

  predicate Apart(slots: seq<Slot>) {
    forall i, j :: 0 <= i < j < |slots| ==> !SlotsClash(slots[i], slots[j])
  }

  /** Each slot in turn; one invalid slot rejects the whole plan. */
  function AllSlots(p: Platform, raws: seq<RawSlot>): Option<seq<Slot>> {
    if raws == [] then Some([])
    else
      var first, rest := ValidatedSlot(p, raws[0]), AllSlots(p, raws[1..]);
      if first.Some? && rest.Some? then Some([first.value] + rest.value) else None
  }

  /** What `_validated_ready_slots` returns, or nothing at all. */
  function ValidatedSlots(p: Platform, raws: seq<RawSlot>, primary: string): Option<seq<Slot>> {
    var slots := AllSlots(p, raws);
    if !Structured(raws, primary) || slots.None? || !Apart(slots.value) then None else slots
  }

  /** Some path lies in a scope of both slots. */
  ghost predicate SharePath(a: Slot, b: Slot) {
    exists q: Path, i, j :: 0 <= i < |a.scopes| && 0 <= j < |b.scopes| && Covers(a.scopes[i], q) && Covers(b.scopes[j], q)
  }

  lemma ClashIffSharePath(a: Slot, b: Slot)
    ensures SlotsClash(a, b) <==> SharePath(a, b)
  {
    if SlotsClash(a, b) {
      var i, j :| 0 <= i < |a.scopes| && 0 <= j < |b.scopes| && Overlap(a.scopes[i], b.scopes[j]);
      OverlapIffSharedPath(a.scopes[i], b.scopes[j]);
      var q :| Covers(a.scopes[i], q) && Covers(b.scopes[j], q);
    }
    if q: Path, i, j :| 0 <= i < |a.scopes| && 0 <= j < |b.scopes| && Covers(a.scopes[i], q) && Covers(b.scopes[j], q) {
      OverlapIffSharedPath(a.scopes[i], b.scopes[j]);
    }
  }

  /** In an accepted plan no repository path is covered by the scopes of two slots, and the
      prefix comparison rejects nothing else: slots that share no path are apart. */
  lemma AcceptedPlansShareNoPath(slots: seq<Slot>)
    ensures Apart(slots) <==> forall i, j :: 0 <= i < j < |slots| ==> !SharePath(slots[i], slots[j])
  {
    forall i, j | 0 <= i < j < |slots|
      ensures SlotsClash(slots[i], slots[j]) <==> SharePath(slots[i], slots[j])
    {
      ClashIffSharePath(slots[i], slots[j]);
    }
  }

  // ---------------------------------------------------------------- the pairwise loops

  method CheckPair(a: Slot, b: Slot) returns (clash: bool)
    ensures clash == SlotsClash(a, b)
  {
    for i := 0 to |a.scopes|
      invariant forall k, j :: 0 <= k < i && 0 <= j < |b.scopes| ==> !Overlap(a.scopes[k], b.scopes[j])
    {
      for j := 0 to |b.scopes|
        invariant forall k :: 0 <= k < j ==> !Overlap(a.scopes[i], b.scopes[k])
      {
        if Overlap(a.scopes[i], b.scopes[j]) {
          return true;
        }
      }
    }
    clash := false;
  }

  method CheckPairs(slots: seq<Slot>) returns (ok: bool)
    ensures ok == Apart(slots)
  {
    for i := 0 to |slots|
      invariant forall k, j :: 0 <= k < i && k < j < |slots| ==> !SlotsClash(slots[k], slots[j])
    {
      for j := i + 1 to |slots|
        invariant forall k :: i < k < j ==> !SlotsClash(slots[i], slots[k])
      {
        var clash := CheckPair(slots[i], slots[j]);
        if clash {
          return false;
        }
      }
    }
    ok := true;
  }

  /** The whole ready set, atomically. */
  method ValidateReadySlots(p: Platform, raws: seq<RawSlot>, primary: string) returns (r: Option<seq<Slot>>)
    ensures r == ValidatedSlots(p, raws, primary)
  {
    if !Structured(raws, primary) {
      return None;
    }
    var slots: seq<Slot> := [];
    assert raws[0..] == raws;
    assert AllSlots(p, raws).Some? ==> [] + AllSlots(p, raws).value == AllSlots(p, raws).value;
    var i := 0;
    while i < |raws|
      invariant i <= |raws|
      invariant AllSlots(p, raws)
             == match AllSlots(p, raws[i..]) case None => None case Some(rest) => Some(slots + rest)
    {
      assert raws[i..][1..] == raws[i + 1..] && raws[i..][0] == raws[i];
      var slot := ValidatedSlot(p, raws[i]);
      if slot.None? {
        return None;
      }
      assert forall rest: seq<Slot> :: slots + ([slot.value] + rest) == (slots + [slot.value]) + rest;
      slots := slots + [slot.value];
      i := i + 1;
    }
    assert slots + [] == slots;
    var ok := CheckPairs(slots);
    r := if ok then Some(slots) else None;
  }

  // ---------------------------------------------------------------- the plan as it is written

  /** A text that names a place inside the repository: plain components between separators
      of either kind, the platform's case folded away. */
  ghost predicate Denotes(p: Platform, raw: string, parts: seq<string>, scope: Path) {
    && raw != "" && !p.blank(raw[0]) && !p.blank(raw[|raw| - 1]) && '\0' !in raw && ':' !in raw && !p.absolute(raw)
    && parts != [] && Join(parts) == Slashes(raw)
    && |scope| == |parts|
    && forall i :: 0 <= i < |parts| ==>
         && NoSlash(parts[i]) && parts[i] != "" && parts[i] != "." && parts[i] != ".."
         && scope[i] == p.fold(parts[i])
  }

  /** Normalising finds exactly the scope that the text denotes. */
  lemma NormalizedIff(p: Platform, raw: string, scope: Path)
    ensures NormalizedScope(p, raw) == Some(scope) <==> exists parts :: Denotes(p, raw, parts, scope)
  {
    if NormalizedScope(p, raw) == Some(scope) {
      JoinSplit(Slashes(raw));
      SplitHasNoSlash(Slashes(raw));
      assert Denotes(p, raw, Split(Slashes(raw)), scope);
    }
    if parts :| Denotes(p, raw, parts, scope) {
      SplitJoin(parts);
      FirstCharacter(parts);
      assert FoldAll(p, parts) == scope;
    }
  }

  lemma FirstCharacter(parts: seq<string>)
    requires parts != [] && parts[0] != ""
    ensures Join(parts) != "" && Join(parts)[0] == parts[0][0]
  {
  }

  /** A slot that is in order on its own: its worktree was found as it should be, and every
      write it is allowed is the outbox, which is among them, or names a place. */
  ghost predicate InOrder(p: Platform, raw: RawSlot) {
    && raw.registered && raw.sameRepository && raw.onBranch && raw.hasDispatcher && raw.task.Some?
    && OUTBOX in raw.task.value.writes
    && forall k :: 0 <= k < |raw.task.value.writes| ==>
         raw.task.value.writes[k] == OUTBOX || NormalizedScope(p, raw.task.value.writes[k]).Some?
  }

  /** The path lies under the k-th write that the slot is allowed, the outbox aside. */
  ghost predicate MayWrite(p: Platform, raw: RawSlot, k: nat, path: Path) {
    && raw.task.Some? && k < |raw.task.value.writes| && raw.task.value.writes[k] != OUTBOX
    && NormalizedScope(p, raw.task.value.writes[k]).Some?
    && Covers(NormalizedScope(p, raw.task.value.writes[k]).value, path)
  }

  /** Both slots may write somewhere under one path. */
  ghost predicate WritesMeet(p: Platform, a: RawSlot, b: RawSlot) {
    exists path: Path, j: nat, k: nat :: MayWrite(p, a, j, path) && MayWrite(p, b, k, path)
  }

  /** The scopes are those of the writes, no more and no fewer. */
  lemma {:induction false} ScopesAre(p: Platform, writes: seq<string>)
    ensures ScopesOf(p, writes).Some?
       <==> forall k :: 0 <= k < |writes| ==> writes[k] == OUTBOX || NormalizedScope(p, writes[k]).Some?
    ensures ScopesOf(p, writes).Some? ==>
              forall scope :: scope in ScopesOf(p, writes).value
                         <==> exists k :: 0 <= k < |writes| && writes[k] != OUTBOX && NormalizedScope(p, writes[k]) == Some(scope)
  {
    if writes != [] {
      var rest := writes[1..];
      ScopesAre(p, rest);
      assert forall k :: 0 <= k < |rest| ==> rest[k] == writes[k + 1];
      if ScopesOf(p, writes).Some? {
        forall scope
          ensures scope in ScopesOf(p, writes).value
             <==> exists k :: 0 <= k < |writes| && writes[k] != OUTBOX && NormalizedScope(p, writes[k]) == Some(scope)
        {
          if scope in ScopesOf(p, rest).value {
            var k :| 0 <= k < |rest| && rest[k] != OUTBOX && NormalizedScope(p, rest[k]) == Some(scope);
            assert writes[k + 1] == rest[k];
          }
          if k :| 0 < k < |writes| && writes[k] != OUTBOX && NormalizedScope(p, writes[k]) == Some(scope) {
            assert rest[k - 1] == writes[k];
          }
        }
      }
    }
  }

  /** A slot is validated exactly when it is in order, and keeps its own names. */
  lemma ValidatedIff(p: Platform, raw: RawSlot)
    ensures ValidatedSlot(p, raw).Some? <==> InOrder(p, raw)
    ensures ValidatedSlot(p, raw).Some? ==>
              var slot := ValidatedSlot(p, raw).value;
              && slot.slotId == raw.slotId && slot.root == raw.root && slot.branch == raw.branch
              && slot.taskId == raw.task.value.id && slot.revision == raw.task.value.revision
              && slot.scopes == ScopesOf(p, raw.task.value.writes).value
  {
    if raw.task.Some? {
      ScopesAre(p, raw.task.value.writes);
    }
  }

  /** Two validated slots share a path exactly when their tasks may both write under it. */
  lemma ShareIffWritesMeet(p: Platform, a: RawSlot, b: RawSlot)
    requires ValidatedSlot(p, a).Some? && ValidatedSlot(p, b).Some?
    ensures SharePath(ValidatedSlot(p, a).value, ValidatedSlot(p, b).value) <==> WritesMeet(p, a, b)
  {
    var s, t := ValidatedSlot(p, a).value, ValidatedSlot(p, b).value;
    ScopesAre(p, a.task.value.writes);
    ScopesAre(p, b.task.value.writes);
    ValidatedIff(p, a);
    ValidatedIff(p, b);
    if SharePath(s, t) {
      var q: Path, i, j :| 0 <= i < |s.scopes| && 0 <= j < |t.scopes| && Covers(s.scopes[i], q) && Covers(t.scopes[j], q);
      var k := WriteOf(p, a, s.scopes[i]);
      var l := WriteOf(p, b, t.scopes[j]);
      assert MayWrite(p, a, k, q) && MayWrite(p, b, l, q);
    }
    if path: Path, k: nat, l: nat :| MayWrite(p, a, k, path) && MayWrite(p, b, l, path) {
      var f := NormalizedScope(p, a.task.value.writes[k]).value;
      var g := NormalizedScope(p, b.task.value.writes[l]).value;
      assert f in s.scopes && g in t.scopes;
      var i :| 0 <= i < |s.scopes| && s.scopes[i] == f;
      var j :| 0 <= j < |t.scopes| && t.scopes[j] == g;
    }
  }

  lemma WriteOf(p: Platform, raw: RawSlot, scope: Path) returns (k: nat)
    requires ValidatedSlot(p, raw).Some? && scope in ValidatedSlot(p, raw).value.scopes
    ensures k < |raw.task.value.writes| && raw.task.value.writes[k] != OUTBOX
    ensures NormalizedScope(p, raw.task.value.writes[k]) == Some(scope)
  {
    ScopesAre(p, raw.task.value.writes);
    k :| 0 <= k < |raw.task.value.writes| && raw.task.value.writes[k] != OUTBOX
         && NormalizedScope(p, raw.task.value.writes[k]) == Some(scope);
  }

  lemma {:induction false} AllSlotsAre(p: Platform, raws: seq<RawSlot>)
    ensures AllSlots(p, raws).Some? <==> forall i :: 0 <= i < |raws| ==> ValidatedSlot(p, raws[i]).Some?
    ensures AllSlots(p, raws).Some? ==>
              && |AllSlots(p, raws).value| == |raws|
              && forall i :: 0 <= i < |raws| ==> ValidatedSlot(p, raws[i]) == Some(AllSlots(p, raws).value[i])
  {
    if raws != [] {
      AllSlotsAre(p, raws[1..]);
      assert forall i :: 0 < i < |raws| ==> raws[i] == raws[1..][i - 1];
      if forall i :: 0 <= i < |raws| ==> ValidatedSlot(p, raws[i]).Some? {
        assert ValidatedSlot(p, raws[0]).Some?;
        assert forall i :: 0 <= i < |raws[1..]| ==> raws[1..][i] == raws[i + 1];
      }
    }
  }

  /** A plan is accepted exactly when its slots are well structured, each is in order, and no
      path lies under writes allowed to two of them. */
  lemma AcceptedIffWritesApart(p: Platform, raws: seq<RawSlot>, primary: string)
    ensures ValidatedSlots(p, raws, primary).Some?
       <==> && (forall i :: 0 <= i < |raws| ==> raws[i].wellFormed && raws[i].root != primary && InOrder(p, raws[i]))
            && (forall i, j :: 0 <= i < j < |raws| ==>
                  && raws[i].slotId != raws[j].slotId && raws[i].root != raws[j].root
                  && raws[i].branch != raws[j].branch && !WritesMeet(p, raws[i], raws[j]))
  {
    AllSlotsAre(p, raws);
    forall i | 0 <= i < |raws|
      ensures ValidatedSlot(p, raws[i]).Some? <==> InOrder(p, raws[i])
    {
      ValidatedIff(p, raws[i]);
    }
    if AllSlots(p, raws).Some? {
      var slots := AllSlots(p, raws).value;
      AcceptedPlansShareNoPath(slots);
      forall i, j | 0 <= i < j < |raws|
        ensures SharePath(slots[i], slots[j]) <==> WritesMeet(p, raws[i], raws[j])
      {
        ShareIffWritesMeet(p, raws[i], raws[j]);
      }
    }
  }

  /** The accepted slots are the plan's own, in its order. */
  lemma AcceptedAreOwn(p: Platform, raws: seq<RawSlot>, primary: string, i: nat)
    requires ValidatedSlots(p, raws, primary).Some? && i < |raws|
    ensures |ValidatedSlots(p, raws, primary).value| == |raws|
    ensures var slot := ValidatedSlots(p, raws, primary).value[i];
            && raws[i].task.Some? && slot.slotId == raws[i].slotId && slot.root == raws[i].root
            && slot.branch == raws[i].branch && slot.taskId == raws[i].task.value.id
            && slot.revision == raws[i].task.value.revision
  {
    AllSlotsAre(p, raws);
    ValidatedIff(p, raws[i]);
  }
}
