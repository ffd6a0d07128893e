/** The dispatcher's own code: process check, spawn and poll over its mutable state, each
    of them a run of the protocol. */
module Dispatcher {
  import opened Wrappers
  import opened StableSort
  import opened DispatcherProtocol

  /** What happens around one poll: whether the running worker's time is up and termination
      succeeds, how each turn's claim fares, and whether each launch works. */
  datatype Env = Env(timedOut: bool, killed: bool, fate: nat -> ClaimFate, launches: nat -> bool)

  /** The turns in order, until one raises. */
  ghost function TurnsTaken(s: System, turns: seq<Turn>, i: nat, env: Env): System
    requires i <= |turns|
    decreases |turns| - i
  {
    if i == |turns| then s
    else
      var next := TurnTaken(s, turns[i], env.fate(i), env.launches(i));
      if Escapes(s, turns[i], env.fate(i)) then next else TurnsTaken(next, turns, i + 1, env)
  }

  /** A whole poll, as a function. */
  ghost function Polled(s: System, turns: seq<Turn>, env: Env): System {
    TurnsTaken(Apply(s, Check(env.timedOut, env.killed)), turns, 0, env)
  }

  /** Every poll is a run of the protocol, and so keeps its invariant. */
  lemma {:induction false} TurnsAreRuns(s: System, turns: seq<Turn>, i: nat, env: Env) returns (actions: seq<Action>)
    requires i <= |turns|
    ensures TurnsTaken(s, turns, i, env) == Run(s, actions)
    decreases |turns| - i
  {
    if i == |turns| {
      actions := [];
    } else {
      var step := [Consider(turns[i], env.fate(i)), Launch(env.launches(i))];
      RunTwo(s, step[0], step[1]);
      actions := step;
      if !Escapes(s, turns[i], env.fate(i)) {
        var rest := TurnsAreRuns(Run(s, step), turns, i + 1, env);
        RunConcat(s, step, rest);
        actions := step + rest;
      }
    }
  }

  lemma PollKeepsInv(s: System, turns: seq<Turn>, env: Env)
    requires Inv(s)
    ensures Inv(Polled(s, turns, env))
  {
    StepKeepsInv(s, Check(env.timedOut, env.killed));
    var actions := TurnsAreRuns(Apply(s, Check(env.timedOut, env.killed)), turns, 0, env);
    RunKeepsInv(Apply(s, Check(env.timedOut, env.killed)), actions);
  }

  class DispatcherState {
    var claims: set<Key>
    var live: map<nat, nat>
    var nextPid: nat
    var spawned: set<Key>
    var failed: set<Key>
    var worker: Option<nat>
    var workerKey: Option<Key>
    const lifetime: nat
    ghost var launched: seq<Key>

    /** A new dispatcher finds the claims and the live processes of its predecessors. */
    constructor (s: System)
      ensures Abs() == Apply(s, Start)
    {
      claims, live, nextPid, launched := s.claims, s.live, s.nextPid, s.launches;
      spawned, failed, worker, workerKey := {}, {}, None, None;
      lifetime := s.lifetime + 1;
    }

    ghost function Abs(): System
      reads this
    {
      System(claims, live, launched, nextPid, lifetime, Memory(spawned, failed, worker, workerKey, None))
    }

    /** `check_claude_process`. */
    method CheckWorker(timedOut: bool, killed: bool)
      modifies this
      ensures Abs() == Apply(old(Abs()), Check(timedOut, killed))
    {
      if worker.None? {
        return;
      }
      if worker.value in live {
        if timedOut {
          if workerKey.Some? {
            failed := failed + {workerKey.value};
          }
          if killed {
            live := live - {worker.value};
            worker, workerKey := None, None;
          }
        }
        return;
      }
      worker, workerKey := None, None;
    }

    /** `spawn_claude`: claim durably, then launch; some failures escape as exceptions. */
    method SpawnWorker(t: Turn, fate: ClaimFate, launches: bool) returns (escaped: bool)
      requires Wanted(t) && worker.None?
      requires t.key.value !in failed && t.key.value !in spawned && t.key.value !in claims
      modifies this
      ensures Abs() == TurnTaken(old(Abs()), t, fate, launches)
      ensures escaped == fate.EscapesLater?
    {
      var k := t.key.value;
      escaped := fate.EscapesLater?;
      if fate.FailsBefore? {
        failed := failed + {k};
        return;
      }
      claims := claims + {k};
      if fate.FailsAfter? || fate.RefusedLater? {
        failed := failed + {k};
        return;
      }
      if escaped {
        return;
      }
      if launches {
        live := live[nextPid := lifetime];
        launched := launched + [k];
        spawned := spawned + {k};
        worker, workerKey := Some(nextPid), Some(k);
        nextPid := nextPid + 1;
      } else {
        failed := failed + {k};
      }
    }

    /** `poll`: check the worker, then go through the turns until one raises. */
    method Poll(turns: seq<Turn>, env: Env)
      modifies this
      ensures Abs() == Polled(old(Abs()), turns, env)
      ensures Inv(old(Abs())) ==> Inv(Abs())
    {
      ghost var before := Abs();
      CheckWorker(env.timedOut, env.killed);
      var i := 0;
      while i < |turns|
        invariant i <= |turns|
        invariant TurnsTaken(Abs(), turns, i, env) == Polled(before, turns, env)
      {
        var t := turns[i];
        if !Wanted(t) || worker.Some? || t.key.value in failed {
        } else if t.key.value in spawned || t.key.value in claims {
          failed := failed + {t.key.value};
        } else {
          var escaped := SpawnWorker(t, env.fate(i), env.launches(i));
          if escaped {
            break;
          }
        }
        i := i + 1;
      }
      if Inv(before) {
        PollKeepsInv(before, turns, env);
      }
    }
  }
}
