/** The create-once file protocol under every replay store, run by any number of
    processes that interleave freely, fail, and crash between any two steps.

    A run is a fold of `Apply` over arbitrary actions; an action whose guard does
    not hold leaves the state alone.  Names and inodes are kept apart because a
    published record is a hard link to the temporary file that was written. */
module RecordStore {
  import opened Wrappers

  type Id = string
  type Byte = bv8
  type Bytes = seq<Byte>
  type Pid = nat
  type Ino = nat

  datatype Name = Target(id: Id) | Temp(n: nat)

  /** Where one process stands inside `put` or `get`. */
  datatype Pc =
    | Idle
    | WantLock(id: Id, payload: Bytes)
    | HasLock(id: Id, payload: Bytes)
    | Writing(temp: nat, ino: Ino, id: Id, payload: Bytes, written: nat)
    | Linked(temp: nat, id: Id, payload: Bytes)
    | Abandoning(temp: nat)
    | PutOk(id: Id, payload: Bytes)
    | PutFailed
    | Reading(id: Id, ino: Ino, got: Bytes)
    | GetOk(id: Id, bytes: Bytes)
    | GetFailed

  /** `origin` is a history variable: which put created an inode, and for what bytes. */
  datatype State = State(
    names: map<Name, Ino>,
    inodes: map<Ino, Bytes>,
    origin: map<Ino, (Id, Bytes)>,
    lock: Option<Pid>,
    procs: map<Pid, Pc>)

  datatype Action =
    | StartPut(pid: Pid, id: Id, payload: Bytes)
    | TryLock(pid: Pid)
    | CheckTarget(pid: Pid, freshTemp: nat, freshIno: Ino)
    | WriteUpTo(pid: Pid, count: nat)
    | Link(pid: Pid)
    | Unlink(pid: Pid)
    | IoError(pid: Pid)
    | Crash(pid: Pid)
    | StartGet(pid: Pid, id: Id)
    | ReadUpTo(pid: Pid, count: nat)

  function PcOf(s: State, pid: Pid): Pc {
    if pid in s.procs then s.procs[pid] else Idle
  }

  /** Between calls: a process may start a put or a get. */
  predicate Resting(pc: Pc) {
    pc.Idle? || pc.PutOk? || pc.PutFailed? || pc.GetOk? || pc.GetFailed?
  }

  function Goto(s: State, pid: Pid, pc: Pc): State {
    s.(procs := s.procs[pid := pc])
  }

  /** Leaving the critical section releases the advisory lock. */
  function Leave(s: State, pid: Pid, pc: Pc): State {
    Goto(s, pid, pc).(lock := None)
  }

  /** The bytes visible under a record's name. */
  function Content(s: State, id: Id): Option<Bytes> {
    if Target(id) in s.names && s.names[Target(id)] in s.inodes
    then Some(s.inodes[s.names[Target(id)]])
    else None
  }

  function Apply(s: State, a: Action): State {
    match a
    case StartPut(pid, id, payload) =>
      if Resting(PcOf(s, pid)) then Goto(s, pid, WantLock(id, payload)) else s
    case TryLock(pid) => ApplyTryLock(s, pid)
    case CheckTarget(pid, temp, ino) => ApplyCheckTarget(s, pid, temp, ino)
    case WriteUpTo(pid, count) => ApplyWrite(s, pid, count)
    case Link(pid) => ApplyLink(s, pid)
    case Unlink(pid) => ApplyUnlink(s, pid)
    case IoError(pid) => ApplyIoError(s, pid)
    case Crash(pid) => if s.lock == Some(pid) then Leave(s, pid, Idle) else Goto(s, pid, Idle)
    case StartGet(pid, id) =>
      if !Resting(PcOf(s, pid)) then s
      else if Target(id) in s.names then Goto(s, pid, Reading(id, s.names[Target(id)], []))
      else Goto(s, pid, GetFailed)
    case ReadUpTo(pid, count) => ApplyRead(s, pid, count)
  }

  /** The lock is non-blocking: a second owner is refused, never queued. */
  function ApplyTryLock(s: State, pid: Pid): State {
    match PcOf(s, pid)
    case WantLock(id, payload) =>
      if s.lock.None? then Goto(s, pid, HasLock(id, payload)).(lock := Some(pid))
      else Goto(s, pid, PutFailed)
    case _ => s
  }

  /** Under the lock: an existing record must hold the same bytes; otherwise a fresh
      temporary file is created. */
  function ApplyCheckTarget(s: State, pid: Pid, temp: nat, ino: Ino): State {
    match PcOf(s, pid)
    case HasLock(id, payload) =>
      if Target(id) in s.names then
        Leave(s, pid, if Content(s, id) == Some(payload) then PutOk(id, payload) else PutFailed)
      else if Temp(temp) in s.names || ino in s.inodes || ino in s.origin then s
      else
        Goto(s, pid, Writing(temp, ino, id, payload, 0)).(
          names := s.names[Temp(temp) := ino],
          inodes := s.inodes[ino := []],
          origin := s.origin[ino := (id, payload)])
    case _ => s
  }

  function ApplyWrite(s: State, pid: Pid, count: nat): State {
    match PcOf(s, pid)
    case Writing(temp, ino, id, payload, written) =>
      if written <= count <= |payload| then
        Goto(s, pid, Writing(temp, ino, id, payload, count)).(
          inodes := s.inodes[ino := payload[..count]])
      else s
    case _ => s
  }

  /** Only a completely written file is linked, and only to a name not yet taken. */
  function ApplyLink(s: State, pid: Pid): State {
    match PcOf(s, pid)
    case Writing(temp, ino, id, payload, written) =>
      if written < |payload| then s
      else if Target(id) in s.names then Goto(s, pid, Abandoning(temp))
      else Goto(s, pid, Linked(temp, id, payload)).(names := s.names[Target(id) := ino])
    case _ => s
  }

  function ApplyUnlink(s: State, pid: Pid): State {
    match PcOf(s, pid)
    case Linked(temp, id, payload) =>
      Leave(s, pid, PutOk(id, payload)).(names := s.names - {Temp(temp)})
    case Abandoning(temp) =>
      Leave(s, pid, PutFailed).(names := s.names - {Temp(temp)})
    case _ => s
  }

  function ApplyIoError(s: State, pid: Pid): State {
    match PcOf(s, pid)
    case WantLock(_, _) => Goto(s, pid, PutFailed)
    case HasLock(_, _) => Leave(s, pid, PutFailed)
    case Writing(temp, _, _, _, _) => Goto(s, pid, Abandoning(temp))
    case Linked(_, _, _) => Leave(s, pid, PutFailed)
    case Abandoning(_) => Leave(s, pid, PutFailed)
    case Reading(_, _, _) => Goto(s, pid, GetFailed)
    case _ => s
  }

  function ApplyRead(s: State, pid: Pid, count: nat): State {
    match PcOf(s, pid)
    case Reading(id, ino, got) =>
      if ino !in s.inodes || |got| > |s.inodes[ino]| then s
      else if |got| == |s.inodes[ino]| then Goto(s, pid, GetOk(id, got))
      else if |got| + count <= |s.inodes[ino]| then
        Goto(s, pid, Reading(id, ino, got + s.inodes[ino][|got|..|got| + count]))
      else s
    case _ => s
  }

  function Run(s: State, actions: seq<Action>): State
    decreases |actions|
  {
    if actions == [] then s else Run(Apply(s, actions[0]), actions[1..])
  }

  const Start := State(map[], map[], map[], None, map[])

  /** Published inodes hold all the bytes of the put that created them. */
  ghost predicate FilesOk(s: State) {
    && s.inodes.Keys == s.origin.Keys
    && (forall name :: name in s.names ==> s.names[name] in s.inodes)
    && (forall id :: Target(id) in s.names ==>
          s.origin[s.names[Target(id)]] == (id, s.inodes[s.names[Target(id)]]))
  }

  ghost predicate Unpublished(s: State, ino: Ino) {
    forall id :: Target(id) in s.names ==> s.names[Target(id)] != ino
  }

  ghost predicate PcOk(s: State, pid: Pid, pc: Pc) {
    match pc
    case HasLock(_, _) => s.lock == Some(pid)
    case Writing(temp, ino, id, payload, written) =>
      && s.lock == Some(pid)
      && ino in s.inodes && ino in s.origin && s.origin[ino] == (id, payload)
      && written <= |payload| && s.inodes[ino] == payload[..written]
      && Unpublished(s, ino)
    case Linked(_, id, payload) => s.lock == Some(pid) && Content(s, id) == Some(payload)
    case Abandoning(_) => s.lock == Some(pid)
    case PutOk(id, payload) => Content(s, id) == Some(payload)
    case Reading(id, ino, got) =>
      && Target(id) in s.names && s.names[Target(id)] == ino && ino in s.inodes
      && got <= s.inodes[ino]
    case GetOk(id, bytes) => Content(s, id) == Some(bytes)
    case _ => true
  }

  ghost predicate Inv(s: State) {
    && FilesOk(s)
    && forall pid :: pid in s.procs ==> PcOk(s, pid, s.procs[pid])
  }

  /** No visible record ever disappears or changes. */
  ghost predicate Preserves(s: State, t: State) {
    forall id :: Content(s, id).Some? ==> Content(t, id) == Content(s, id)
  }

  /** A step moves one process and leaves what the others rely on. */
  ghost predicate Frame(s: State, t: State, mover: Pid) {
    && (forall id :: Target(id) in s.names ==> Target(id) in t.names && t.names[Target(id)] == s.names[Target(id)])
    && (forall ino :: ino in s.inodes ==> ino in t.inodes)
    && (forall ino :: ino in s.origin ==> ino in t.origin && t.origin[ino] == s.origin[ino])
    && (forall id :: Target(id) in s.names && s.names[Target(id)] in s.inodes ==>
          t.inodes[s.names[Target(id)]] == s.inodes[s.names[Target(id)]])
    && (forall pid :: pid != mover ==> (pid in t.procs <==> pid in s.procs))
    && (forall pid :: pid != mover && pid in s.procs ==> t.procs[pid] == s.procs[pid])
    && (s.lock.Some? && s.lock != Some(mover) ==>
          t.lock == s.lock && t.inodes == s.inodes && t.names == s.names)
  }

  function Mover(a: Action): Pid {
    a.pid
  }

  lemma FrameKeepsOthers(s: State, t: State, mover: Pid)
    requires Inv(s) && Frame(s, t, mover)
    ensures forall pid :: pid in t.procs && pid != mover ==> PcOk(t, pid, t.procs[pid])
  {
    forall pid | pid in t.procs && pid != mover
      ensures PcOk(t, pid, t.procs[pid])
    {
      assert PcOk(s, pid, s.procs[pid]);
    }
  }

  /** A step is good when it keeps the files, the mover and the frame in order. */
  ghost predicate StepOk(s: State, t: State, mover: Pid) {
    && Frame(s, t, mover)
    && FilesOk(t)
    && (mover in t.procs ==> PcOk(t, mover, t.procs[mover]))
  }

  lemma CheckTargetOk(s: State, pid: Pid, temp: nat, ino: Ino)
    requires Inv(s)
    ensures StepOk(s, ApplyCheckTarget(s, pid, temp, ino), pid)
  {
    assert pid in s.procs ==> PcOk(s, pid, s.procs[pid]);
  }

  lemma WriteOk(s: State, pid: Pid, count: nat)
    requires Inv(s)
    ensures StepOk(s, ApplyWrite(s, pid, count), pid)
  {
    assert pid in s.procs ==> PcOk(s, pid, s.procs[pid]);
  }

  lemma LinkOk(s: State, pid: Pid)
    requires Inv(s)
    ensures StepOk(s, ApplyLink(s, pid), pid)
  {
    assert pid in s.procs ==> PcOk(s, pid, s.procs[pid]);
    match PcOf(s, pid)
    case Writing(temp, ino, id, payload, written) =>
      assert payload[..|payload|] == payload;
    case _ =>
  }

  lemma UnlinkOk(s: State, pid: Pid)
    requires Inv(s)
    ensures StepOk(s, ApplyUnlink(s, pid), pid)
  {
    assert pid in s.procs ==> PcOk(s, pid, s.procs[pid]);
  }

  lemma ReadOk(s: State, pid: Pid, count: nat)
    requires Inv(s)
    ensures StepOk(s, ApplyRead(s, pid, count), pid)
  {
    assert pid in s.procs ==> PcOk(s, pid, s.procs[pid]);
    match PcOf(s, pid)
    case Reading(id, ino, got) =>
      var whole := s.inodes[ino];
      assert got == whole[..|got|] && whole[..|whole|] == whole;
      if |got| + count <= |whole| {
        assert got + whole[|got|..|got| + count] == whole[..|got| + count];
      }
    case _ =>
  }

  lemma SmallStepOk(s: State, a: Action)
    requires Inv(s)
    requires a.StartPut? || a.Crash? || a.StartGet?
    ensures StepOk(s, Apply(s, a), Mover(a))
  {
    assert Mover(a) in s.procs ==> PcOk(s, Mover(a), s.procs[Mover(a)]);
  }

  lemma TryLockOk(s: State, pid: Pid)
    requires Inv(s)
    ensures StepOk(s, ApplyTryLock(s, pid), pid)
  {
  }

  lemma IoErrorOk(s: State, pid: Pid)
    requires Inv(s)
    ensures StepOk(s, ApplyIoError(s, pid), pid)
  {
    assert pid in s.procs ==> PcOk(s, pid, s.procs[pid]);
  }

  lemma StepIsOk(s: State, a: Action)
    requires Inv(s)
    ensures StepOk(s, Apply(s, a), Mover(a))
  {
    match a
    case CheckTarget(pid, temp, ino) => CheckTargetOk(s, pid, temp, ino);
    case WriteUpTo(pid, count) => WriteOk(s, pid, count);
    case Link(pid) => LinkOk(s, pid);
    case Unlink(pid) => UnlinkOk(s, pid);
    case ReadUpTo(pid, count) => ReadOk(s, pid, count);
    case IoError(pid) => IoErrorOk(s, pid);
    case TryLock(pid) => TryLockOk(s, pid);
    case _ => SmallStepOk(s, a);
  }

  /** One step, by any process, with any failure, keeps the protocol invariant and every
      visible record. */
  lemma StepKeepsInv(s: State, a: Action)
    requires Inv(s)
    ensures Inv(Apply(s, a)) && Preserves(s, Apply(s, a))
  {
    var t := Apply(s, a);
    StepIsOk(s, a);
    FrameKeepsOthers(s, t, Mover(a));
    assert Preserves(s, t);
  }

  lemma {:induction false} RunKeepsInv(s: State, actions: seq<Action>)
    requires Inv(s)
    ensures Inv(Run(s, actions)) && Preserves(s, Run(s, actions))
    decreases |actions|
  {
    if actions != [] {
      StepKeepsInv(s, actions[0]);
      RunKeepsInv(Apply(s, actions[0]), actions[1..]);
    }
  }

  /** In every run, a record is complete from the first moment it is visible: its bytes
      are all the bytes of a put of that very ID. */
  lemma VisibleIsComplete(actions: seq<Action>, id: Id)
    requires Target(id) in Run(Start, actions).names
    ensures var s := Run(Start, actions);
            var ino := s.names[Target(id)];
            ino in s.origin && s.origin[ino].0 == id && Content(s, id) == Some(s.origin[ino].1)
  {
    RunKeepsInv(Start, actions);
  }

  /** In every run, once a put has succeeded the record holds exactly its encoding, for
      ever, and every later get that returns bytes returns exactly those. */
  lemma PutThenGet(before: seq<Action>, after: seq<Action>, putter: Pid, getter: Pid)
    requires var s := Run(Start, before); putter in s.procs && s.procs[putter].PutOk?
    ensures var put := Run(Start, before).procs[putter];
            var t := Run(Run(Start, before), after);
            && Content(t, put.id) == Some(put.payload)
            && (getter in t.procs && t.procs[getter].GetOk? && t.procs[getter].id == put.id ==>
                  t.procs[getter].bytes == put.payload)
  {
    RunKeepsInv(Start, before);
    var s := Run(Start, before);
    assert PcOk(s, putter, s.procs[putter]);
    RunKeepsInv(s, after);
    var t := Run(s, after);
    if getter in t.procs {
      assert PcOk(t, getter, t.procs[getter]);
    }
  }

  /** Two puts of one ID that both succeed, anywhere in a run, had the same bytes. */
  lemma SuccessfulPutsAgree(actions: seq<Action>, p: Pid, q: Pid)
    requires var s := Run(Start, actions);
             && p in s.procs && q in s.procs && s.procs[p].PutOk? && s.procs[q].PutOk?
             && s.procs[p].id == s.procs[q].id
    ensures Run(Start, actions).procs[p].payload == Run(Start, actions).procs[q].payload
  {
    RunKeepsInv(Start, actions);
    var s := Run(Start, actions);
    assert PcOk(s, p, s.procs[p]) && PcOk(s, q, s.procs[q]);
  }

  /** At most one process is inside the critical section. */
  lemma CriticalSectionExclusive(actions: seq<Action>, p: Pid, q: Pid)
    requires var s := Run(Start, actions);
             p in s.procs && q in s.procs && InCriticalSection(s.procs[p]) && InCriticalSection(s.procs[q])
    ensures p == q
  {
    RunKeepsInv(Start, actions);
    var s := Run(Start, actions);
    assert PcOk(s, p, s.procs[p]) && PcOk(s, q, s.procs[q]);
  }

  predicate InCriticalSection(pc: Pc) {
    pc.HasLock? || pc.Writing? || pc.Linked? || pc.Abandoning?
  }

  // ---------------------------------------------------------------- undisturbed calls

  /** A put as one process takes it when nothing fails and nobody interferes. */
  function PutSteps(pid: Pid, id: Id, payload: Bytes, temp: nat, ino: Ino): seq<Action> {
    [StartPut(pid, id, payload), TryLock(pid), CheckTarget(pid, temp, ino), WriteUpTo(pid, |payload|), Link(pid), Unlink(pid)]
  }

  function GetSteps(pid: Pid, id: Id, size: nat): seq<Action> {
    [StartGet(pid, id), ReadUpTo(pid, size), ReadUpTo(pid, 0)]
  }

  lemma RunFirst(s: State, actions: seq<Action>)
    requires actions != []
    ensures Run(s, actions) == Run(Apply(s, actions[0]), actions[1..])
  {
  }

  lemma RunThree(s: State, a: Action, b: Action, c: Action)
    ensures Run(s, [a, b, c]) == Apply(Apply(Apply(s, a), b), c)
  {
    var t := Apply(s, a);
    var u := Apply(t, b);
    RunFirst(s, [a, b, c]);
    RunFirst(t, [b, c]);
    RunFirst(u, [c]);
    assert [a, b, c][1..] == [b, c] && [b, c][1..] == [c] && [c][1..] == [];
    assert Run(Apply(u, c), []) == Apply(u, c);
  }

  lemma {:induction false} RunInTwo(s: State, a: seq<Action>, b: seq<Action>)
    ensures Run(s, a + b) == Run(Run(s, a), b)
    decreases |a|
  {
    if a == [] {
      assert a + b == b;
    } else {
      assert (a + b)[0] == a[0] && (a + b)[1..] == a[1..] + b;
      RunInTwo(Apply(s, a[0]), a[1..], b);
    }
  }

  /** The process may start, nobody holds the lock, and the names it will take are new. */
  ghost predicate MayStart(s: State, pid: Pid, temp: nat, ino: Ino) {
    && Inv(s) && Resting(PcOf(s, pid)) && s.lock.None?
    && Temp(temp) !in s.names && ino !in s.inodes && ino !in s.origin
  }

  lemma FirstHalf(s: State, pid: Pid, id: Id, payload: Bytes, temp: nat, ino: Ino)
    requires MayStart(s, pid, temp, ino)
    ensures var t := Apply(Apply(Apply(s, StartPut(pid, id, payload)), TryLock(pid)), CheckTarget(pid, temp, ino));
            if Target(id) in s.names
            then t.names == s.names && t.inodes == s.inodes && t.lock.None? && pid in t.procs
                 && t.procs[pid] == if Content(s, id) == Some(payload) then PutOk(id, payload) else PutFailed
            else t.names == s.names[Temp(temp) := ino] && t.inodes == s.inodes[ino := []] && pid in t.procs
                 && t.procs[pid] == Writing(temp, ino, id, payload, 0)
  {
    var a := Apply(s, StartPut(pid, id, payload));
    var b := Apply(a, TryLock(pid));
    assert PcOf(b, pid) == HasLock(id, payload) && b.names == s.names && b.inodes == s.inodes && b.origin == s.origin;
    assert Content(b, id) == Content(s, id);
  }

  lemma SecondHalf(t: State, names: map<Name, Ino>, inodes: map<Ino, Bytes>, pid: Pid, id: Id, payload: Bytes, temp: nat, ino: Ino)
    requires Target(id) !in names && Temp(temp) !in names
    requires t.names == names[Temp(temp) := ino] && t.inodes == inodes[ino := []]
    requires pid in t.procs && t.procs[pid] == Writing(temp, ino, id, payload, 0)
    ensures var u := Apply(Apply(Apply(t, WriteUpTo(pid, |payload|)), Link(pid)), Unlink(pid));
            && u.names == names[Target(id) := ino] && u.inodes == inodes[ino := payload] && u.lock.None?
            && PcOf(u, pid) == PutOk(id, payload)
  {
    assert payload[..|payload|] == payload;
    var a := Apply(t, WriteUpTo(pid, |payload|));
    assert a.inodes == inodes[ino := payload] && a.names == t.names;
    var b := Apply(a, Link(pid));
    assert b.names == a.names[Target(id) := ino] && b.inodes == a.inodes && b.procs[pid] == Linked(temp, id, payload);
    assert names[Temp(temp) := ino][Target(id) := ino] - {Temp(temp)} == names[Target(id) := ino];
  }

  lemma SettledStays(t: State, pid: Pid, count: nat)
    requires PcOf(t, pid).PutOk? || PcOf(t, pid).PutFailed?
    ensures Apply(Apply(Apply(t, WriteUpTo(pid, count)), Link(pid)), Unlink(pid)) == t
  {
  }

  /** Undisturbed, a put succeeds exactly when its name is free or holds the same bytes
      already; the record then holds them, no other record changes, and neither a lock nor a
      temporary file is left. */
  lemma UndisturbedPut(s: State, pid: Pid, id: Id, payload: Bytes, temp: nat, ino: Ino)
    requires MayStart(s, pid, temp, ino)
    ensures var t := Run(s, PutSteps(pid, id, payload, temp, ino));
            && PcOf(t, pid) == (if Content(s, id).None? || Content(s, id) == Some(payload)
                                then PutOk(id, payload) else PutFailed)
            && t.lock.None? && Temp(temp) !in t.names
            && (PcOf(t, pid).PutOk? ==> Content(t, id) == Some(payload))
            && (forall other :: other != id || PcOf(t, pid).PutFailed? ==> Content(t, other) == Content(s, other))
  {
    var steps := PutSteps(pid, id, payload, temp, ino);
    var first, second := steps[..3], steps[3..];
    var t := Run(s, first);
    RunInTwo(s, first, second);
    assert steps == first + second;
    RunThree(s, StartPut(pid, id, payload), TryLock(pid), CheckTarget(pid, temp, ino));
    assert first == [StartPut(pid, id, payload), TryLock(pid), CheckTarget(pid, temp, ino)];
    RunThree(t, WriteUpTo(pid, |payload|), Link(pid), Unlink(pid));
    assert second == [WriteUpTo(pid, |payload|), Link(pid), Unlink(pid)];
    FirstHalf(s, pid, id, payload, temp, ino);
    assert Content(s, id).None? <==> Target(id) !in s.names;
    if Target(id) in s.names {
      SettledStays(t, pid, |payload|);
    } else {
      SecondHalf(t, s.names, s.inodes, pid, id, payload, temp, ino);
    }
  }

  /** Undisturbed, a get returns exactly the bytes that are there. */
  lemma UndisturbedGet(s: State, pid: Pid, id: Id)
    requires Inv(s) && Resting(PcOf(s, pid))
    ensures var content := Content(s, id);
            var t := Run(s, GetSteps(pid, id, if content.Some? then |content.value| else 0));
            PcOf(t, pid) == if content.Some? then GetOk(id, content.value) else GetFailed
  {
    var content := Content(s, id);
    var size := if content.Some? then |content.value| else 0;
    RunThree(s, StartGet(pid, id), ReadUpTo(pid, size), ReadUpTo(pid, 0));
    if content.Some? {
      assert [] + content.value[0..size] == content.value;
    }
  }
}
