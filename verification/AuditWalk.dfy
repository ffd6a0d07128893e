/** What an audit record may contain: the payload walk that rejects secrets and runs
    integrity hooks, the walk that collects embedded results, and the writer. */
module AuditWalk {
  import opened Wrappers
  import opened Finite
  import opened SensitiveNames
  import opened PathScopedWalk

  /** Payload objects.  `hookPasses` is whether the object's integrity hook, if it has
      one, returns normally; `result` is the run ID of an exact pipeline result. */
  datatype Node =
    | Scalar
    | Text(s: string)
    | Dataclass(result: Option<string>, fields: seq<(string, Ref)>, hookPasses: bool)
    | Mapping(entries: seq<(Ref, Ref)>, hookPasses: bool)
    | Collection(items: seq<Ref>, hookPasses: bool)
    | Other(hookPasses: bool)

  type Heap = map<Ref, Node>

  const PIPELINE_RESULT_KEYS := {"run_id", "pipeline_version", "snapshot_id", "decision", "status", "integrity_hash"}

  function Children(n: Node): seq<Ref> {
    match n
    case Dataclass(_, fields, _) => Seconds(fields)
    case Mapping(entries, _) => Firsts(entries) + Seconds(entries)
    case Collection(items, _) => items
    case _ => []
  }

  ghost predicate HeapClosed(h: Heap) {
    forall r, c :: r in h && c in Children(h[r]) ==> c in h
  }

  lemma EntryChildren(n: Node, entries: seq<(Ref, Ref)>)
    requires n.Mapping? && n.entries == entries
    ensures forall i :: 0 <= i < |entries| ==> entries[i].0 in Children(n) && entries[i].1 in Children(n)
    ensures forall c :: c in Children(n) ==> exists i :: 0 <= i < |entries| && (c == entries[i].0 || c == entries[i].1)
  {
    forall i | 0 <= i < |entries|
      ensures entries[i].0 in Children(n) && entries[i].1 in Children(n)
    {
      assert Firsts(entries)[i] == entries[i].0 && Seconds(entries)[i] == entries[i].1;
    }
  }

  /** Everything the payload walk descends into. */
  ghost function Edges(h: Heap): Graph {
    map r | r in h :: Children(h[r])
  }

  predicate IsResult(n: Node) {
    n.Dataclass? && n.result.Some?
  }

  /** The companion walk never descends into a result. */
  ghost function ResultEdges(h: Heap): Graph {
    map r | r in h :: if IsResult(h[r]) then [] else Children(h[r])
  }

  predicate IsObject(n: Node) {
    !n.Scalar? && !n.Text?
  }

  predicate SensitiveKey(h: Heap, key: Ref) {
    key in h && h[key].Text? && IsSensitive(h[key].s, AUDIT_PARTS)
  }

  function StringKeys(h: Heap, entries: seq<(Ref, Ref)>): set<string> {
    set i | 0 <= i < |entries| && entries[i].0 in h && h[entries[i].0].Text? :: h[entries[i].0].s
  }

  /** The checks made on one value, wherever it is met. */
  predicate LocalOk(h: Heap, n: Node, marker: string -> bool) {
    match n
    case Scalar => true
    case Text(s) => !marker(s)
    case Dataclass(_, fields, hookPasses) =>
      hookPasses && forall i :: 0 <= i < |fields| ==> !IsSensitive(fields[i].0, AUDIT_PARTS)
    case Mapping(entries, hookPasses) =>
      && hookPasses
      && !(PIPELINE_RESULT_KEYS <= StringKeys(h, entries))
      && forall i :: 0 <= i < |entries| ==> !SensitiveKey(h, entries[i].0)
    case Collection(_, hookPasses) => hookPasses
    case Other(hookPasses) => hookPasses
  }

  /** Every value looked at below `r`, with `seen` on the path, passes its checks. */
  ghost predicate VisitedOk(h: Heap, r: Ref, seen: set<Ref>, marker: string -> bool)
    requires HeapClosed(h) && r in h && seen <= h.Keys
  {
    forall b :: b in Visited(Edges(h), r, seen) ==> LocalOk(h, h[b], marker)
  }

  ghost function RunIdsOf(h: Heap, visited: set<Ref>): set<string> {
    set b | b in visited && b in h && IsResult(h[b]) :: h[b].result.value
  }

  /** Every child passes when entered with `seen` on the path. */
  ghost predicate ChildrenOk(h: Heap, n: Node, seen: set<Ref>, marker: string -> bool)
    requires HeapClosed(h) && seen <= h.Keys && forall c :: c in Children(n) ==> c in h
  {
    forall c :: c in Children(n) ==> VisitedOk(h, c, seen, marker)
  }

  /** Entering an unseen object: itself, then everything visited from its children. */
  lemma EnterOk(h: Heap, r: Ref, seen: set<Ref>, marker: string -> bool)
    requires HeapClosed(h) && r in h && seen <= h.Keys && r !in seen
    ensures VisitedOk(h, r, seen, marker) <==>
              LocalOk(h, h[r], marker) && ChildrenOk(h, h[r], seen + {r}, marker)
  {
    var g := Edges(h);
    PathGrows(g, r, seen);
    forall b
      ensures b in Visited(g, r, seen) <==>
                b == r || exists i :: 0 <= i < |g[r]| && b in Visited(g, g[r][i], seen + {r})
    {
      VisitedAllMember(g, g[r], seen + {r}, b);
    }
    if VisitedOk(h, r, seen, marker) {
      assert r in Visited(g, r, seen);
      forall c | c in g[r]
        ensures VisitedOk(h, c, seen + {r}, marker)
      {
        var i :| 0 <= i < |g[r]| && g[r][i] == c;
        assert forall b :: b in Visited(g, g[r][i], seen + {r}) ==> b in Visited(g, r, seen);
      }
    }
    if LocalOk(h, h[r], marker) && ChildrenOk(h, h[r], seen + {r}, marker) {
      forall b | b in Visited(g, r, seen)
        ensures LocalOk(h, h[b], marker)
      {
        if b != r {
          var i :| 0 <= i < |g[r]| && b in Visited(g, g[r][i], seen + {r});
          assert VisitedOk(h, g[r][i], seen + {r}, marker);
        }
      }
    }
  }

  /** The accepted payloads, for every heap: each value reachable through fields, keys,
      items and elements passes its checks. */
  lemma AuditAcceptsIff(h: Heap, root: Ref, marker: string -> bool)
    requires HeapClosed(h) && root in h
    ensures VisitedOk(h, root, {}, marker) <==>
              forall b :: b in h && Reaches(Edges(h), root, b) ==> LocalOk(h, h[b], marker)
  {
    forall b
      ensures b in Visited(Edges(h), root, {}) <==> Reaches(Edges(h), root, b)
    {
      VisitedIffReachable(Edges(h), root, b);
    }
  }

  /** A result with this run ID is reachable without passing through another result. */
  ghost predicate EmbedsResult(h: Heap, root: Ref, id: string)
    requires HeapClosed(h) && root in h
  {
    exists b :: b in h && Reaches(ResultEdges(h), root, b) && h[b].Dataclass? && h[b].result == Some(id)
  }

  /** The collected run IDs: exactly those of the results reachable without passing
      through another result. */
  lemma RunIdsAreReachable(h: Heap, root: Ref, id: string)
    requires HeapClosed(h) && root in h
    ensures id in RunIdsOf(h, Visited(ResultEdges(h), root, {})) <==> EmbedsResult(h, root, id)
  {
    var g := ResultEdges(h);
    forall b
      ensures b in Visited(g, root, {}) <==> Reaches(g, root, b)
    {
      VisitedIffReachable(g, root, b);
    }
    if b :| b in h && Reaches(g, root, b) && h[b].Dataclass? && h[b].result == Some(id) {
      assert b in Visited(g, root, {});
    }
  }

  lemma RunIdsUnion(h: Heap, a: set<Ref>, b: set<Ref>)
    ensures RunIdsOf(h, a + b) == RunIdsOf(h, a) + RunIdsOf(h, b)
  {
  }

  lemma RunIdsSingle(h: Heap, r: Ref)
    requires r in h
    ensures RunIdsOf(h, {r}) == if IsResult(h[r]) then {h[r].result.value} else {}
  {
  }

  /** Entering an unseen result: it is collected and nothing below it is looked at. */
  lemma EnterResult(h: Heap, r: Ref, seen: set<Ref>)
    requires HeapClosed(h) && r in h && seen <= h.Keys && r !in seen && IsResult(h[r])
    ensures RunIdsOf(h, Visited(ResultEdges(h), r, seen)) == {h[r].result.value}
  {
    var g := ResultEdges(h);
    assert g[r] == [];
    assert Visited(g, r, seen) == {r};
    RunIdsSingle(h, r);
  }

  /** Entering any other unseen object: it is passed through. */
  lemma EnterOther(h: Heap, r: Ref, seen: set<Ref>)
    requires HeapClosed(h) && r in h && seen <= h.Keys && r !in seen && !IsResult(h[r])
    ensures var g := ResultEdges(h);
            RunIdsOf(h, Visited(g, r, seen)) == RunIdsOf(h, VisitedAll(g, Children(h[r]), seen + {r}))
  {
    var g := ResultEdges(h);
    var below := VisitedAll(g, g[r], seen + {r});
    assert Visited(g, r, seen) == {r} + below;
    RunIdsUnion(h, {r}, below);
    RunIdsSingle(h, r);
  }

  class AuditWalker {
    var seen: set<Ref>

    constructor ()
      ensures seen == {}
    {
      seen := {};
    }

    ghost predicate Valid(h: Heap)
      reads this
    {
      HeapClosed(h) && seen <= h.Keys && forall x :: x in seen ==> IsObject(h[x])
    }

    /** `_validate_payload_before_write`; false stands for its integrity error. */
    method Validate(h: Heap, r: Ref, marker: string -> bool) returns (ok: bool)
      requires Valid(h) && r in h
      modifies this
      ensures seen == old(seen) && ok == VisitedOk(h, r, seen, marker)
      decreases |h.Keys - seen|, 0
    {
      if !IsObject(h[r]) {
        ok := LocalOk(h, h[r], marker);
        EnterOk(h, r, seen, marker);
      } else if r in seen {
        ok := true;
      } else {
        ghost var before := seen;
        PathGrows(Edges(h), r, seen);
        EnterOk(h, r, seen, marker);
        seen := seen + {r};
        ok := ValidateBody(h, h[r], marker);
        seen := seen - {r};
        assert seen == before;
      }
    }

    method ValidateBody(h: Heap, n: Node, marker: string -> bool) returns (ok: bool)
      requires Valid(h) && IsObject(n) && forall c :: c in Children(n) ==> c in h
      modifies this
      ensures seen == old(seen)
      ensures ok <==> LocalOk(h, n, marker) && ChildrenOk(h, n, seen, marker)
      decreases |h.Keys - seen|, 2
    {
      if !n.hookPasses {
        return false;
      }
      match n {
        case Dataclass(_, fields, _) => ok := ValidateFields(h, fields, marker);
        case Mapping(entries, _) =>
          if PIPELINE_RESULT_KEYS <= StringKeys(h, entries) {
            return false;
          }
          EntryChildren(n, entries);
          ok := ValidateEntries(h, entries, marker);
        case Collection(items, _) => ok := ValidateItems(h, items, marker);
        case Other(_) => ok := true;
      }
    }

    method ValidateFields(h: Heap, fields: seq<(string, Ref)>, marker: string -> bool) returns (ok: bool)
      requires Valid(h) && forall c :: c in Seconds(fields) ==> c in h
      modifies this
      ensures seen == old(seen)
      ensures ok <==> forall i :: 0 <= i < |fields| ==>
                !IsSensitive(fields[i].0, AUDIT_PARTS) && VisitedOk(h, Seconds(fields)[i], seen, marker)
      decreases |h.Keys - seen|, 1
    {
      for i := 0 to |fields|
        invariant seen == old(seen)
        invariant forall j :: 0 <= j < i ==>
                    !IsSensitive(fields[j].0, AUDIT_PARTS) && VisitedOk(h, Seconds(fields)[j], seen, marker)
      {
        assert Seconds(fields)[i] == fields[i].1;
        if IsSensitive(fields[i].0, AUDIT_PARTS) {
          return false;
        }
        ok := Validate(h, fields[i].1, marker);
        if !ok {
          return;
        }
      }
      ok := true;
    }

    method ValidateEntries(h: Heap, entries: seq<(Ref, Ref)>, marker: string -> bool) returns (ok: bool)
      requires Valid(h) && forall i :: 0 <= i < |entries| ==> entries[i].0 in h && entries[i].1 in h
      modifies this
      ensures seen == old(seen)
      ensures ok <==> forall i :: 0 <= i < |entries| ==>
                && !SensitiveKey(h, entries[i].0)
                && VisitedOk(h, entries[i].0, seen, marker)
                && VisitedOk(h, entries[i].1, seen, marker)
      decreases |h.Keys - seen|, 1
    {
      for i := 0 to |entries|
        invariant seen == old(seen)
        invariant forall j :: 0 <= j < i ==>
                    && !SensitiveKey(h, entries[j].0)
                    && VisitedOk(h, entries[j].0, seen, marker)
                    && VisitedOk(h, entries[j].1, seen, marker)
      {
        if SensitiveKey(h, entries[i].0) {
          return false;
        }
        ok := Validate(h, entries[i].0, marker);
        if !ok {
          return;
        }
        ok := Validate(h, entries[i].1, marker);
        if !ok {
          return;
        }
      }
      ok := true;
    }

    method ValidateItems(h: Heap, items: seq<Ref>, marker: string -> bool) returns (ok: bool)
      requires Valid(h) && forall c :: c in items ==> c in h
      modifies this
      ensures seen == old(seen)
      ensures ok <==> forall i :: 0 <= i < |items| ==> VisitedOk(h, items[i], seen, marker)
      decreases |h.Keys - seen|, 1
    {
      for i := 0 to |items|
        invariant seen == old(seen)
        invariant forall j :: 0 <= j < i ==> VisitedOk(h, items[j], seen, marker)
      {
        ok := Validate(h, items[i], marker);
        if !ok {
          return;
        }
      }
      ok := true;
    }

    /** `_pipeline_result_run_ids`. */
    method RunIds(h: Heap, r: Ref) returns (found: set<string>)
      requires Valid(h) && r in h
      modifies this
      ensures seen == old(seen) && found == RunIdsOf(h, Visited(ResultEdges(h), r, seen))
      decreases |h.Keys - seen|, 0
    {
      var g := ResultEdges(h);
      if !IsObject(h[r]) {
        found := {};
        EnterOther(h, r, seen);
      } else if r in seen {
        found := {};
      } else {
        ghost var before := seen;
        PathGrows(g, r, seen);
        seen := seen + {r};
        if IsResult(h[r]) {
          EnterResult(h, r, before);
          found := {h[r].result.value};
        } else {
          EnterOther(h, r, before);
          found := RunIdsAll(h, Children(h[r]));
        }
        seen := seen - {r};
        assert seen == before;
      }
    }

    method RunIdsAll(h: Heap, rs: seq<Ref>) returns (found: set<string>)
      requires Valid(h) && forall c :: c in rs ==> c in h
      modifies this
      ensures seen == old(seen) && found == RunIdsOf(h, VisitedAll(ResultEdges(h), rs, seen))
      decreases |h.Keys - seen|, 1
    {
      var g := ResultEdges(h);
      found := {};
      for i := 0 to |rs|
        invariant seen == old(seen) && found == RunIdsOf(h, VisitedAll(g, rs[..i], seen))
      {
        var more := RunIds(h, rs[i]);
        found := found + more;
        assert rs[..i + 1] == rs[..i] + [rs[i]];
        VisitedAllSnoc(g, rs[..i], rs[i], seen);
        RunIdsUnion(h, VisitedAll(g, rs[..i], seen), Visited(g, rs[i], seen));
      }
      assert rs[..|rs|] == rs;
    }
  }

  predicate RunIdChar(c: char) {
    'A' <= c <= 'Z' || 'a' <= c <= 'z' || '0' <= c <= '9' || c == '_' || c == '-'
  }

  /** 1-128 ASCII alphanumerics, underscores or hyphens, beginning with an alphanumeric. */
  predicate ValidRunId(id: string) {
    && 1 <= |id| <= 128
    && id[0] != '_' && id[0] != '-'
    && forall i :: 0 <= i < |id| ==> RunIdChar(id[i])
  }

  /** A run ID is a plain file name: it neither climbs, nor hides, nor leaves its directory. */
  lemma RunIdIsPlain(id: string)
    requires ValidRunId(id)
    ensures 1 <= |id| <= 128 && '/' !in id && '\\' !in id && '.' !in id && '\0' !in id && ':' !in id
    ensures 'A' <= id[0] <= 'Z' || 'a' <= id[0] <= 'z' || '0' <= id[0] <= '9'
  {
    assert RunIdChar(id[0]);
  }

  datatype Outcome = Written | IntegrityError | InvalidRunId | RenderError | AlreadyExists | FileError

  /** How the file system treats one write: creating the directory, creating the temporary
      file and flushing the text into it, linking it when nothing is in its way, closing the
      directory after its sync, and removing the temporary file. */
  datatype Disk = Disk(makesDirectory: bool, makesTemporary: bool, flushes: bool, links: bool, closes: bool, unlinks: bool)

  const FAULTLESS := Disk(true, true, true, true, true, true)

  /** What comes of a write whose payload passed both walks, in the order of its steps:
      `taken` is whether the run ID has its record already. */
  function WriteOutcome(runId: string, text: Option<string>, taken: bool, disk: Disk): Outcome {
    if !ValidRunId(runId) then InvalidRunId
    else if !disk.makesDirectory then FileError
    else if text.None? then RenderError
    else if !disk.makesTemporary || !disk.flushes || !disk.unlinks then FileError
    else if taken then AlreadyExists
    else if disk.links && disk.closes then Written
    else FileError
  }

  /** The record goes in: also when a later step of the same write fails. */
  predicate Publishes(runId: string, text: Option<string>, taken: bool, disk: Disk) {
    && ValidRunId(runId) && disk.makesDirectory && text.Some? && disk.makesTemporary && disk.flushes
    && !taken && disk.links
  }

  /** Every result the record embeds carries the run ID the record is filed under. */
  ghost predicate ResultsMatch(h: Heap, root: Ref, runId: string)
    requires HeapClosed(h) && root in h
  {
    forall id :: EmbedsResult(h, root, id) ==> id == runId
  }

  ghost predicate PayloadClean(h: Heap, root: Ref, marker: string -> bool) {
    forall b :: b in h && Reaches(Edges(h), root, b) ==> LocalOk(h, h[b], marker)
  }

  // ---------------------------------------------------------------- which payloads are sound

  /** The set holds whatever is found by looking inside the values it holds: at the values of
      fields, at keys and values of mappings, at items.  Results are opened or not. */
  ghost predicate HoldsInside(h: Heap, held: set<Ref>, opensResults: bool) {
    forall r {:trigger h[r]} :: r in held && r in h ==>
      match h[r]
      case Dataclass(result, fields, _) =>
        (opensResults || result.None?) ==> forall i :: 0 <= i < |fields| ==> fields[i].1 in held
      case Mapping(entries, _) =>
        forall i :: 0 <= i < |entries| ==> entries[i].0 in held && entries[i].1 in held
      case Collection(items, _) => forall i :: 0 <= i < |items| ==> items[i] in held
      case _ => true
  }

  ghost function EdgesOf(h: Heap, opensResults: bool): Graph {
    if opensResults then Edges(h) else ResultEdges(h)
  }

  lemma FieldChildren(n: Node, fields: seq<(string, Ref)>)
    requires n.Dataclass? && n.fields == fields
    ensures forall c :: c in Children(n) <==> exists i :: 0 <= i < |fields| && c == fields[i].1
  {
    assert Children(n) == Seconds(fields);
    forall i | 0 <= i < |fields|
      ensures fields[i].1 in Children(n)
    {
      assert Seconds(fields)[i] == fields[i].1;
    }
  }

  lemma HoldsInsideIff(h: Heap, held: set<Ref>, opensResults: bool)
    ensures HoldsInside(h, held, opensResults) <==> Keeps(EdgesOf(h, opensResults), held)
  {
    var g := EdgesOf(h, opensResults);
    forall r | r in held && r in h
      ensures (match h[r]
               case Dataclass(result, fields, _) =>
                 (opensResults || result.None?) ==> forall i :: 0 <= i < |fields| ==> fields[i].1 in held
               case Mapping(entries, _) =>
                 forall i :: 0 <= i < |entries| ==> entries[i].0 in held && entries[i].1 in held
               case Collection(items, _) => forall i :: 0 <= i < |items| ==> items[i] in held
               case _ => true)
          <==> forall c :: c in g[r] ==> c in held
    {
      match h[r]
      case Dataclass(_, fields, _) => FieldChildren(h[r], fields);
      case Mapping(entries, _) => EntryChildren(h[r], entries);
      case Collection(items, _) => assert Children(h[r]) == items;
      case _ => assert Children(h[r]) == [];
    }
  }

  /** A part of the audit's list stands in the name. */
  ghost predicate NamesSecret(name: string) {
    exists i :: 0 <= i < |AUDIT_PARTS| && SensitiveNames.Holds(name, AUDIT_PARTS[i])
  }

  /** One value alone gives no reason to refuse a payload. */
  ghost predicate Harmless(h: Heap, n: Node, marker: string -> bool) {
    match n
    case Scalar => true
    case Text(s) => !marker(s)
    case Dataclass(_, fields, hookPasses) =>
      hookPasses && forall i :: 0 <= i < |fields| ==> !NamesSecret(fields[i].0)
    case Mapping(entries, hookPasses) =>
      && hookPasses
      && (forall i, s :: 0 <= i < |entries| && TextAt(h, entries[i].0, s) ==> !NamesSecret(s))
      && exists key :: key in PIPELINE_RESULT_KEYS && forall i :: 0 <= i < |entries| ==> !TextAt(h, entries[i].0, key)
    case Collection(_, hookPasses) => hookPasses
    case Other(hookPasses) => hookPasses
  }

  predicate TextAt(h: Heap, r: Ref, s: string) {
    r in h && h[r] == Text(s)
  }

  lemma HarmlessIff(h: Heap, n: Node, marker: string -> bool)
    ensures Harmless(h, n, marker) <==> LocalOk(h, n, marker)
  {
    forall name
      ensures NamesSecret(name) <==> IsSensitive(name, AUDIT_PARTS)
    {
      SensitiveIff(name, AUDIT_PARTS);
    }
    if n.Mapping? {
      forall key
        ensures key in StringKeys(h, n.entries) <==> exists i :: 0 <= i < |n.entries| && TextAt(h, n.entries[i].0, key)
      {
        if i :| 0 <= i < |n.entries| && TextAt(h, n.entries[i].0, key) {
          assert h[n.entries[i].0].s == key;
        }
      }
      forall i | 0 <= i < |n.entries|
        ensures SensitiveKey(h, n.entries[i].0) <==> exists s :: TextAt(h, n.entries[i].0, s) && NamesSecret(s)
      {
        if SensitiveKey(h, n.entries[i].0) {
          assert TextAt(h, n.entries[i].0, h[n.entries[i].0].s);
        }
      }
    }
  }

  /** The values of a sound payload: a set that holds it and all that is inside what it
      holds, with nothing in it to refuse. */
  ghost predicate SoundWithin(h: Heap, root: Ref, marker: string -> bool, held: set<Ref>) {
    && root in held && held <= h.Keys && HoldsInside(h, held, true)
    && forall r :: r in held ==> Harmless(h, h[r], marker)
  }

  /** A payload is clean exactly when some set of harmless values holds it and everything
      inside: cycles in the payload neither hide a value nor refuse it. */
  lemma CleanIffSound(h: Heap, root: Ref, marker: string -> bool)
    requires HeapClosed(h) && root in h
    ensures PayloadClean(h, root, marker) <==> exists held :: SoundWithin(h, root, marker, held)
  {
    var reached := ReachedAreKept(Edges(h), root);
    forall n: Node
      ensures Harmless(h, n, marker) <==> LocalOk(h, n, marker)
    {
      HarmlessIff(h, n, marker);
    }
    forall held: set<Ref>
      ensures HoldsInside(h, held, true) <==> Keeps(Edges(h), held)
    {
      HoldsInsideIff(h, held, true);
    }
    if PayloadClean(h, root, marker) {
      assert SoundWithin(h, root, marker, reached);
    }
  }

  /** Every result in the set, none of them opened, is filed under the run ID. */
  ghost predicate MatchedWithin(h: Heap, root: Ref, runId: string, held: set<Ref>) {
    && root in held && held <= h.Keys && HoldsInside(h, held, false)
    && forall r :: r in held && h[r].Dataclass? && h[r].result.Some? ==> h[r].result == Some(runId)
  }

  /** The results a payload embeds match its run ID exactly when some set holds the payload
      and, results left closed, all that is inside, with no other result in it. */
  lemma ResultsMatchIff(h: Heap, root: Ref, runId: string)
    requires HeapClosed(h) && root in h
    ensures ResultsMatch(h, root, runId) <==> exists held :: MatchedWithin(h, root, runId, held)
  {
    var reached := ReachedAreKept(ResultEdges(h), root);
    forall held: set<Ref>
      ensures HoldsInside(h, held, false) <==> Keeps(ResultEdges(h), held)
    {
      HoldsInsideIff(h, held, false);
    }
    if ResultsMatch(h, root, runId) {
      forall r | r in reached && h[r].Dataclass? && h[r].result.Some?
        ensures h[r].result == Some(runId)
      {
        assert EmbedsResult(h, root, h[r].result.value);
      }
      assert MatchedWithin(h, root, runId, reached);
    }
  }

  lemma MatchIsOneId(h: Heap, root: Ref, runId: string, found: set<string>)
    requires HeapClosed(h) && root in h
    requires forall id :: id in found <==> EmbedsResult(h, root, id)
    ensures ResultsMatch(h, root, runId) <==> found == {} || found == {runId}
  {
    if ResultsMatch(h, root, runId) && found != {} {
      var id :| id in found;
      assert found == {runId};
    }
  }

  /** `AuditWriter` over one output directory: immutable records, one per run ID, and the
      temporary files that could not be removed. */
  class AuditWriter {
    var records: map<string, string>
    var leftovers: seq<string>

    constructor ()
      ensures records == map[] && leftovers == []
    {
      records, leftovers := map[], [];
    }

    /** The text is flushed to a temporary file and linked under the run ID; the directory
        is synced; the temporary file goes, whatever happened before. */
    method PublishText(runId: string, text: string, disk: Disk) returns (r: Outcome)
      requires ValidRunId(runId) && disk.makesDirectory
      modifies this
      ensures r == WriteOutcome(runId, Some(text), runId in old(records), disk)
      ensures records == if Publishes(runId, Some(text), runId in old(records), disk) then old(records)[runId := text]
                         else old(records)
      ensures leftovers == old(leftovers) + if disk.makesTemporary && !disk.unlinks then [runId] else []
    {
      if !disk.makesTemporary {
        return FileError;
      }
      r := LinkText(runId, text, disk);
      if !disk.unlinks {
        leftovers := leftovers + [runId];
        r := FileError;
      }
    }

    /** The part between creating the temporary file and removing it. */
    method LinkText(runId: string, text: string, disk: Disk) returns (r: Outcome)
      modifies this`records
      ensures r == if !disk.flushes then FileError
                   else if runId in old(records) then AlreadyExists
                   else if disk.links && disk.closes then Written
                   else FileError
      ensures records == if disk.flushes && runId !in old(records) && disk.links then old(records)[runId := text]
                         else old(records)
    {
      if !disk.flushes {
        return FileError;
      }
      if runId in records {
        return AlreadyExists;
      }
      if !disk.links {
        return FileError;
      }
      records := records[runId := text];
      r := if disk.closes then Written else FileError;
    }

    /** Both walks, the path, the directory, the rendering, the file.  `text` is what
        rendering the payload gives, if it can be rendered at all. */
    method Write(h: Heap, root: Ref, runId: string, marker: string -> bool, text: Option<string>, disk: Disk)
      returns (r: Outcome)
      requires HeapClosed(h) && root in h
      modifies this
      ensures r == if !PayloadClean(h, root, marker) || !ResultsMatch(h, root, runId) then IntegrityError
                   else WriteOutcome(runId, text, runId in old(records), disk)
      ensures records == if PayloadClean(h, root, marker) && ResultsMatch(h, root, runId)
                            && Publishes(runId, text, runId in old(records), disk)
                         then old(records)[runId := text.value] else old(records)
      ensures r.Written? ==>
        && leftovers == old(leftovers) && text.Some? && runId !in old(records)
        && records == old(records)[runId := text.value]
      ensures forall id :: id in old(records) ==> id in records && records[id] == old(records)[id]
      ensures (&& PayloadClean(h, root, marker) && ResultsMatch(h, root, runId) && ValidRunId(runId) && text.Some?
               && runId !in old(records) && disk == FAULTLESS) ==> r.Written?
    {
      var sound := Judge(h, root, runId, marker);
      if !sound {
        return IntegrityError;
      }
      if !ValidRunId(runId) {
        return InvalidRunId;
      }
      if !disk.makesDirectory {
        return FileError;
      }
      if text.None? {
        return RenderError;
      }
      r := PublishText(runId, text.value, disk);
    }
  }

  /** Both walks over one payload, before anything is rendered or written. */
  method Judge(h: Heap, root: Ref, runId: string, marker: string -> bool) returns (sound: bool)
    requires HeapClosed(h) && root in h
    ensures sound <==> PayloadClean(h, root, marker) && ResultsMatch(h, root, runId)
  {
    AuditAcceptsIff(h, root, marker);
    var walker := new AuditWalker();
    sound := walker.Validate(h, root, marker);
    if sound {
      var found := walker.RunIds(h, root);
      forall id
        ensures id in found <==> EmbedsResult(h, root, id)
      {
        RunIdsAreReachable(h, root, id);
      }
      MatchIsOneId(h, root, runId, found);
      sound := found == {} || found == {runId};
    }
  }
}
