/** The dispatcher as a protocol: durable claims, one dispatcher lifetime after another,
    and worker processes that exit, hang, survive termination, and outlive a crash. */
module DispatcherProtocol {
  import opened Wrappers
  import opened StableSort
  import opened Finite

  datatype Key = Key(task: string, revision: int)

  /** What one dispatcher process remembers; `claimed` is the key between its durable claim
      and its launch. */
  datatype Memory = Memory(spawned: set<Key>, failed: set<Key>, worker: Option<nat>, workerKey: Option<Key>,
                           claimed: Option<Key>)

  /** Claim files, live worker processes with the lifetime that started them, everything ever
      launched, and the current dispatcher. */
  datatype System = System(claims: set<Key>, live: map<nat, nat>, launches: seq<Key>, nextPid: nat,
                           lifetime: nat, memory: Memory)

  const BLANK: Memory := Memory({}, {}, None, None, None)

  datatype Mode = Notify | Spawn

  /** What one worker's inbox and outbox say: a validated key, whether it is ready or
      stopped, and whether its handoff is written. */
  datatype Turn = Turn(mode: Mode, key: Option<Key>, ready: bool, stopped: bool, handedOff: bool)

  /** How a claim fares, with what follows it up to the launch. */
  datatype ClaimFate = Claims | FailsBefore | FailsAfter | RefusedLater | EscapesLater

  datatype Action =
    | Start
    | Check(timedOut: bool, killed: bool)
    | Consider(turn: Turn, fate: ClaimFate)
    | Launch(works: bool)
    | Exit(pid: nat)

  function Forget(m: Memory): Memory {
    m.(worker := None, workerKey := None)
  }

  function Fail(m: Memory, k: Key): Memory {
    m.(failed := m.failed + {k})
  }

  /** `check_claude_process`: clear an exited worker; fail and terminate a timed-out one, but
      forget it only when it is dead. */
  function ApplyCheck(s: System, timedOut: bool, killed: bool): System {
    if s.memory.worker.None? then s
    else if s.memory.worker.value !in s.live then s.(memory := Forget(s.memory))
    else if !timedOut then s
    else
      var failed := if s.memory.workerKey.Some? then Fail(s.memory, s.memory.workerKey.value) else s.memory;
      if killed then s.(live := s.live - {s.memory.worker.value}, memory := Forget(failed))
      else s.(memory := failed)
  }

  /** Whether a turn is one the dispatcher acts on by spawning. */
  predicate Wanted(t: Turn) {
    t.key.Some? && !t.stopped && t.ready && !t.handedOff && t.mode.Spawn?
  }

  /** One worker of a poll, up to the point of launching. */
  function ApplyConsider(s: System, t: Turn, fate: ClaimFate): System {
    if !Wanted(t) || s.memory.worker.Some? || t.key.value in s.memory.failed then s
    else if t.key.value in s.memory.spawned || t.key.value in s.claims then
      s.(memory := Fail(s.memory, t.key.value))
    else
      var k := t.key.value;
      match fate
      case FailsBefore => s.(memory := Fail(s.memory, k))
      case FailsAfter => s.(claims := s.claims + {k}, memory := Fail(s.memory, k))
      case RefusedLater => s.(claims := s.claims + {k}, memory := Fail(s.memory, k))
      case EscapesLater => s.(claims := s.claims + {k})
      case Claims => s.(claims := s.claims + {k}, memory := s.memory.(claimed := Some(k)))
  }

  function ApplyLaunch(s: System, works: bool): System {
    var k := s.memory.claimed;
    if k.None? then s
    else if !works then s.(memory := Fail(s.memory, k.value).(claimed := None))
    else
      System(s.claims, s.live[s.nextPid := s.lifetime], s.launches + [k.value], s.nextPid + 1, s.lifetime,
             s.memory.(spawned := s.memory.spawned + {k.value}, worker := Some(s.nextPid), workerKey := k, claimed := None))
  }

  /** One step: of the dispatcher, of a worker process, or the start of the next dispatcher
      after the previous one ended or crashed anywhere. */
  function Apply(s: System, a: Action): System {
    match a
    case Start => s.(lifetime := s.lifetime + 1, memory := BLANK)
    case Exit(pid) => s.(live := s.live - {pid})
    case Check(timedOut, killed) => if s.memory.claimed.Some? then s else ApplyCheck(s, timedOut, killed)
    case Consider(turn, fate) => if s.memory.claimed.Some? then s else ApplyConsider(s, turn, fate)
    case Launch(works) => ApplyLaunch(s, works)
  }

  /** One turn of a poll: the claim, and the launch when the claim was made. */
  function TurnTaken(s: System, t: Turn, fate: ClaimFate, launches: bool): System {
    Apply(Apply(s, Consider(t, fate)), Launch(launches))
  }

  /** Whether a turn reaches the claim, and an exception then ends the poll. */
  predicate Escapes(s: System, t: Turn, fate: ClaimFate) {
    && Wanted(t) && s.memory.worker.None? && s.memory.claimed.None?
    && t.key.value !in s.memory.failed && t.key.value !in s.memory.spawned && t.key.value !in s.claims
    && fate.EscapesLater?
  }

  function Run(s: System, actions: seq<Action>): System
    decreases |actions|
  {
    if actions == [] then s else Run(Apply(s, actions[0]), actions[1..])
  }

  // ---------------------------------------------------------------- safety over all runs

  ghost predicate Inv(s: System) {
    && NoRepeats(s.launches) && (forall k :: k in s.launches ==> k in s.claims)
    && (s.memory.claimed.Some? ==>
          s.memory.claimed.value in s.claims && s.memory.claimed.value !in s.launches && s.memory.worker.None?)
    && (s.memory.worker.Some? ==> s.memory.worker.value < s.nextPid)
    && (forall pid :: pid in s.live ==> pid < s.nextPid && s.live[pid] <= s.lifetime)
    && (forall pid :: pid in s.live && s.live[pid] == s.lifetime ==> s.memory.worker == Some(pid))
    && OnePerLifetime(s.live)
  }

  /** No dispatcher lifetime, current or past, has two live workers. */
  ghost predicate OnePerLifetime(live: map<nat, nat>) {
    forall p, q :: p in live && q in live && live[p] == live[q] ==> p == q
  }

  lemma CheckKeepsInv(s: System, timedOut: bool, killed: bool)
    requires Inv(s) && s.memory.claimed.None?
    ensures Inv(ApplyCheck(s, timedOut, killed))
  {
  }

  lemma ConsiderKeepsInv(s: System, t: Turn, fate: ClaimFate)
    requires Inv(s) && s.memory.claimed.None?
    ensures Inv(ApplyConsider(s, t, fate))
  {
  }

  lemma LaunchKeepsInv(s: System, works: bool)
    requires Inv(s)
    ensures Inv(ApplyLaunch(s, works))
  {
  }

  /** Every atomic step keeps the invariant. */
  lemma StepKeepsInv(s: System, a: Action)
    requires Inv(s)
    ensures Inv(Apply(s, a))
  {
    match a
    case Start =>
    case Exit(_) =>
    case Check(timedOut, killed) =>
      if s.memory.claimed.None? {
        CheckKeepsInv(s, timedOut, killed);
      }
    case Consider(turn, fate) =>
      if s.memory.claimed.None? {
        ConsiderKeepsInv(s, turn, fate);
      }
    case Launch(works) =>
      LaunchKeepsInv(s, works);
  }

  /** The protocol starts right: nothing claimed, launched or live. */
  const START: System := System({}, map[], [], 0, 0, BLANK)

  lemma StartIsRight()
    ensures Inv(START)
  {
  }

  /** Across any polls, crashes and restarts each task revision is launched at most once,
      and of each dispatcher lifetime at most one worker is live, also one that could not
      be killed. */
  lemma {:induction false} RunKeepsInv(s: System, actions: seq<Action>)
    requires Inv(s)
    ensures Inv(Run(s, actions))
    ensures var after := Run(s, actions);
            && NoRepeats(after.launches) && (forall k :: k in after.launches ==> k in after.claims)
            && forall p, q :: p in after.live && q in after.live && after.live[p] == after.live[q] ==> p == q
    decreases |actions|
  {
    if actions != [] {
      StepKeepsInv(s, actions[0]);
      RunKeepsInv(Apply(s, actions[0]), actions[1..]);
    }
  }

  /** The live workers the current dispatcher started. */
  ghost function Own(s: System): set<nat> {
    set pid | pid in s.live && s.live[pid] == s.lifetime
  }

  lemma AtMostOneOwnWorker(s: System)
    requires Inv(s)
    ensures |Own(s)| <= 1
  {
    if s.memory.worker.Some? {
      assert Own(s) <= {s.memory.worker.value};
      SubsetSize(Own(s), {s.memory.worker.value});
    } else {
      assert Own(s) == {};
    }
  }

  lemma {:induction false} RunConcat(s: System, a: seq<Action>, b: seq<Action>)
    ensures Run(s, a + b) == Run(Run(s, a), b)
    decreases |a|
  {
    if a == [] {
      assert a + b == b;
    } else {
      assert (a + b)[1..] == a[1..] + b && (a + b)[0] == a[0];
      RunConcat(Apply(s, a[0]), a[1..], b);
    }
  }

  /** Once launched, a revision is never launched again, whatever happens: the launches of a
      longer run only add other keys. */
  lemma {:induction false} LaunchesOnlyGrow(s: System, actions: seq<Action>)
    requires Inv(s)
    ensures |s.launches| <= |Run(s, actions).launches| && Run(s, actions).launches[..|s.launches|] == s.launches
    decreases |actions|
  {
    if actions != [] {
      StepKeepsInv(s, actions[0]);
      LaunchesOnlyGrow(Apply(s, actions[0]), actions[1..]);
      var t := Apply(s, actions[0]);
      assert t.launches[..|s.launches|] == s.launches;
      var r := Run(s, actions);
      assert r.launches[..|s.launches|] == r.launches[..|t.launches|][..|s.launches|];
    }
  }

  // ---------------------------------------------------------------- live workers over all lifetimes

  /** A step that starts a worker process. */
  predicate Starts(s: System, a: Action) {
    a.Launch? && a.works && s.memory.claimed.Some?
  }

  /** No worker of an earlier dispatcher lifetime is still running. */
  ghost predicate NoSurvivor(s: System) {
    forall pid :: pid in s.live ==> s.live[pid] == s.lifetime
  }

  /** At a launch the dispatcher has no live worker of its own, so the new worker is alone
      exactly when none survives from an earlier lifetime. */
  lemma LaunchAloneIff(s: System, a: Action)
    requires Inv(s) && Starts(s, a)
    ensures |Apply(s, a).live| == |s.live| + 1
    ensures |Apply(s, a).live| <= 1 <==> NoSurvivor(s)
    ensures NoSurvivor(s) <==> s.live == map[]
  {
    assert s.nextPid !in s.live;
    assert Apply(s, a).live.Keys == s.live.Keys + {s.nextPid};
    if s.live == map[] {
      assert |s.live.Keys| == 0;
    } else {
      var pid :| pid in s.live;
      assert |s.live.Keys| > 0 && s.live[pid] != s.lifetime;
    }
  }

  /** Only a launch adds a live worker. */
  lemma OthersAddNone(s: System, a: Action)
    requires !Starts(s, a)
    ensures |Apply(s, a).live| <= |s.live|
  {
    assert Apply(s, a).live.Keys <= s.live.Keys;
    SubsetSize(Apply(s, a).live.Keys, s.live.Keys);
  }

  /** At most one worker is live at every point of the run. */
  ghost predicate OneLiveThroughout(s: System, actions: seq<Action>)
    decreases |actions|
  {
    |s.live| <= 1 && (actions != [] ==> OneLiveThroughout(Apply(s, actions[0]), actions[1..]))
  }

  /** Every worker of the run is started while none survives from an earlier lifetime. */
  ghost predicate LaunchesAlone(s: System, actions: seq<Action>)
    decreases |actions|
  {
    actions != [] ==>
      && (Starts(s, actions[0]) ==> NoSurvivor(s))
      && LaunchesAlone(Apply(s, actions[0]), actions[1..])
  }

  /** Over a whole run, with crashes and restarts anywhere, at most one worker is live
      throughout exactly when each is started while none survives from an earlier
      dispatcher. */
  lemma {:induction false} OneLiveIffLaunchesAlone(s: System, actions: seq<Action>)
    requires Inv(s) && |s.live| <= 1
    ensures OneLiveThroughout(s, actions) <==> LaunchesAlone(s, actions)
    decreases |actions|
  {
    if actions != [] {
      var next := Apply(s, actions[0]);
      StepKeepsInv(s, actions[0]);
      if Starts(s, actions[0]) {
        LaunchAloneIff(s, actions[0]);
      } else {
        OthersAddNone(s, actions[0]);
      }
      if |next.live| <= 1 {
        OneLiveIffLaunchesAlone(next, actions[1..]);
      }
    }
  }

  /** The condition can fail: a worker that outlives its dispatcher and a worker of the next
      one, for another revision, are live together. */
  lemma TwoLiveAcrossRestart(a: Key, b: Key) returns (actions: seq<Action>)
    requires a != b
    ensures |Run(START, actions).live| == 2
  {
    var s0 := START;
    var first := Consider(Turn(Spawn, Some(a), true, false, false), Claims);
    var second := Consider(Turn(Spawn, Some(b), true, false, false), Claims);
    var s1 := Apply(Apply(s0, first), Launch(true));
    var s2 := Apply(s1, Start);
    var s3 := Apply(Apply(s2, second), Launch(true));
    assert s1.live == map[0 := 0] && s1.claims == {a};
    assert s3.live == map[0 := 0, 1 := 1];
    actions := [second, Launch(true)];
    RunTwo(s2, second, Launch(true));
    RunCons(s1, Start, actions);
    actions := [Start] + actions;
    RunTwo(s0, first, Launch(true));
    RunConcat(s0, [first, Launch(true)], actions);
    actions := [first, Launch(true)] + actions;
  }

  lemma RunCons(s: System, a: Action, rest: seq<Action>)
    ensures Run(s, [a] + rest) == Run(Apply(s, a), rest)
  {
    assert ([a] + rest)[1..] == rest;
  }

  lemma RunTwo(s: System, a: Action, b: Action)
    ensures Run(s, [a, b]) == Apply(Apply(s, a), b)
  {
    var next := Apply(Apply(s, a), b);
    assert Run(next, []) == next;
    RunCons(Apply(s, a), b, []);
    RunCons(s, a, [b]);
    assert [b] + [] == [b] && [a] + [b] == [a, b];
  }

  // ---------------------------------------------------------------- what is launched

  /** A turn that is ready for this key and neither stopped nor handed off, in the mode that
      spawns. */
  predicate ReadyFor(t: Turn, k: Key) {
    t.key == Some(k) && t.ready && !t.stopped && !t.handedOff && t.mode == Spawn
  }

  /** Some poll of the run considered such a turn. */
  ghost predicate Considered(actions: seq<Action>, k: Key) {
    exists j :: 0 <= j < |actions| && actions[j].Consider? && ReadyFor(actions[j].turn, k)
  }

  /** The key is launched, or claimed and about to be. */
  ghost predicate Underway(s: System, k: Key) {
    k in s.launches || s.memory.claimed == Some(k)
  }

  /** Nothing is ever launched but what a poll of the run found ready, not stopped and not
      handed off, and in the mode that spawns. */
  lemma {:induction false} OnlyReadyIsLaunched(s: System, actions: seq<Action>, k: Key)
    requires Underway(Run(s, actions), k) && !Underway(s, k)
    ensures Considered(actions, k)
    decreases |actions|
  {
    if actions != [] {
      var next, rest := Apply(s, actions[0]), actions[1..];
      if Underway(next, k) {
        assert actions[0].Consider? && ReadyFor(actions[0].turn, k);
      } else {
        OnlyReadyIsLaunched(next, rest, k);
        var j :| 0 <= j < |rest| && rest[j].Consider? && ReadyFor(rest[j].turn, k);
        assert actions[j + 1] == rest[j];
      }
    }
  }

  /** A new key that is ready is launched, when the dispatcher is free and the claim and the
      launch work. */
  lemma ReadyIsLaunched(s: System, t: Turn, k: Key)
    requires Inv(s) && ReadyFor(t, k) && s.memory.worker.None? && s.memory.claimed.None?
    requires k !in s.memory.failed && k !in s.memory.spawned && k !in s.claims
    ensures var after := TurnTaken(s, t, Claims, true);
            && after.launches == s.launches + [k] && after.claims == s.claims + {k}
            && after.memory.workerKey == Some(k) && after.memory.worker.Some?
            && after.live == s.live[after.memory.worker.value := s.lifetime]
            && after.memory.worker.value !in s.live
  {
  }

  /** Within one dispatcher lifetime. */
  predicate NoStart(actions: seq<Action>) {
    forall j :: 0 <= j < |actions| ==> !actions[j].Start?
  }

  /** The key is out: claimed before, or failed in this lifetime, and not about to be
      launched. */
  ghost predicate Out(s: System, k: Key) {
    s.memory.claimed != Some(k) && (k in s.claims || k in s.memory.failed)
  }

  lemma StaysOut(s: System, a: Action, k: Key)
    requires Out(s, k) && (k in s.claims || !a.Start?)
    ensures Out(Apply(s, a), k) && (k in s.claims ==> k in Apply(s, a).claims)
    ensures k in Apply(s, a).launches ==> k in s.launches
  {
  }

  /** A key that was claimed before is never launched again, and one that failed not within
      that lifetime. */
  lemma {:induction false} OutIsNotLaunched(s: System, actions: seq<Action>, k: Key)
    requires Out(s, k) && (k in s.claims || NoStart(actions))
    ensures k in Run(s, actions).launches ==> k in s.launches
    decreases |actions|
  {
    if actions != [] {
      if NoStart(actions) {
        assert forall j :: 0 <= j < |actions[1..]| ==> actions[1..][j] == actions[j + 1];
        assert NoStart(actions[1..]) && !actions[0].Start?;
      }
      StaysOut(s, actions[0], k);
      OutIsNotLaunched(Apply(s, actions[0]), actions[1..], k);
    }
  }

  /** A worker whose time is up: its key fails, and it is gone exactly when it could be
      killed. */
  lemma TimedOutIsStopped(s: System, killed: bool)
    requires s.memory.worker.Some? && s.memory.worker.value in s.live && s.memory.claimed.None?
    ensures var after := Apply(s, Check(true, killed));
            && (s.memory.workerKey.Some? ==> s.memory.workerKey.value in after.memory.failed)
            && (s.memory.worker.value in after.live <==> !killed)
            && (after.memory.worker.None? <==> killed)
  {
  }
}
