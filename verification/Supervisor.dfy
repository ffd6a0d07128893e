/** The three-slot supervisor: one child dispatcher per slot, three in all, each task
    revision of each plan revision launched at most once. */
module Supervisor {
  import opened Wrappers
  import opened StableSort
  import opened Finite
  import opened Paths
  import opened SlotPlans

  datatype Key = Key(planRevision: int, slotId: string, taskId: string, revision: int)

  /** A child dispatcher the supervisor has not yet seen exit. */
  datatype Child = Child(handle: nat, key: Key, slot: Slot)

  /** What one poll finds at the plan path. */
  datatype Plan = Absent | Invalid | NotReady | Ready(revision: int, slots: seq<RawSlot>)

  type Children = map<string, Child>

  /** Every running process is the one child of the slot it was launched for. */
  ghost predicate ChildrenOk(children: Children, live: set<nat>, owner: map<nat, string>, nextHandle: nat) {
    && |children| <= MAX_SLOTS
    && (forall s :: s in children ==> children[s].slot.slotId == s)
    && (forall h :: h in live ==> h in owner && owner[h] in children && children[owner[h]].handle == h)
    && (forall h :: h in owner ==> h < nextHandle)
  }

  lemma ChildAdded(children: Children, live: set<nat>, owner: map<nat, string>, next: nat, c: Child)
    requires ChildrenOk(children, live, owner, next) && |children| < MAX_SLOTS
    requires c.handle == next && c.slot.slotId !in children
    ensures ChildrenOk(children[c.slot.slotId := c], live + {next}, owner[next := c.slot.slotId], next + 1)
  {
    assert |children[c.slot.slotId := c]| == |children| + 1;
  }

  /** The children whose processes still run. */
  function StillRunning(children: Children, live: set<nat>): Children {
    map s | s in children && children[s].handle in live :: children[s]
  }

  lemma ChildrenDropped(children: Children, live: set<nat>, owner: map<nat, string>, next: nat)
    requires ChildrenOk(children, live, owner, next)
    ensures ChildrenOk(StillRunning(children, live), live, owner, next)
  {
    SubmapSize(StillRunning(children, live), children);
  }

  /** At most three children run at once, at most one of them for any slot. */
  lemma AtMostThreeLive(children: Children, live: set<nat>, owner: map<nat, string>, next: nat)
    requires ChildrenOk(children, live, owner, next)
    ensures |live| <= MAX_SLOTS
    ensures forall g, h :: g in live && h in live && owner[g] == owner[h] ==> g == h
  {
    Injected(live, children, owner);
  }

  lemma {:induction false} Injected(live: set<nat>, children: Children, owner: map<nat, string>)
    requires forall h :: h in live ==> h in owner && owner[h] in children && children[owner[h]].handle == h
    ensures |live| <= |children|
    decreases |live|
  {
    if live != {} {
      var h :| h in live;
      var rest := children - {owner[h]};
      assert |rest| == |children| - 1;
      Injected(live - {h}, rest, owner);
    }
  }

  /** Launches so far: none repeated, all attempted. */
  ghost predicate LaunchesOk(launched: seq<Key>, attempted: set<Key>) {
    NoRepeats(launched) && forall k :: k in launched ==> k in attempted
  }

  function KeyOf(revision: int, slot: Slot): Key {
    Key(revision, slot.slotId, slot.taskId, slot.revision)
  }

  // ---------------------------------------------------------------- the supervisor as a function

  /** The supervisor's state with the processes around it; `owner` and `launched` are history. */
  datatype View = View(attempted: set<Key>, children: Children, live: set<nat>, nextHandle: nat,
                       owner: map<nat, string>, launched: seq<Key>)

  const START: View := View({}, map[], {}, 0, map[], [])

  ghost predicate Inv(v: View) {
    ChildrenOk(v.children, v.live, v.owner, v.nextHandle) && LaunchesOk(v.launched, v.attempted)
  }

  lemma StartIsRight()
    ensures Inv(START)
  {
  }

  /** One slot: attempted for good, launched when the launcher works. */
  function Launched(v: View, revision: int, slot: Slot, works: bool): View {
    var key := KeyOf(revision, slot);
    if !works then v.(attempted := v.attempted + {key})
    else
      View(v.attempted + {key}, v.children[slot.slotId := Child(v.nextHandle, key, slot)], v.live + {v.nextHandle},
           v.nextHandle + 1, v.owner[v.nextHandle := slot.slotId], v.launched + [key])
  }

  predicate Free(v: View, revision: int, slot: Slot) {
    KeyOf(revision, slot) !in v.attempted && slot.slotId !in v.children
  }

  /** The slots in order, until three children are out. */
  function LaunchedAll(v: View, revision: int, slots: seq<Slot>, works: string -> bool): View
    decreases |slots|
  {
    if slots == [] then v
    else if !Free(v, revision, slots[0]) then LaunchedAll(v, revision, slots[1..], works)
    else if |v.children| >= MAX_SLOTS then v
    else LaunchedAll(Launched(v, revision, slots[0], works(slots[0].slotId)), revision, slots[1..], works)
  }

  /** What a supervisor is started with. */
  datatype Setup = Setup(platform: Platform, primary: string, dryRun: bool)

  /** The slots a poll launches: those of a ready and wholly accepted plan, outside a dry
      run. */
  function AcceptedSlots(x: Setup, plan: Plan): seq<Slot> {
    if plan.Ready? && 0 < |plan.slots| <= MAX_SLOTS && !x.dryRun
       && ValidatedSlots(x.platform, plan.slots, x.primary).Some?
    then ValidatedSlots(x.platform, plan.slots, x.primary).value else []
  }

  function Polled(x: Setup, v: View, plan: Plan, works: string -> bool): View {
    LaunchedAll(v.(children := StillRunning(v.children, v.live)), if plan.Ready? then plan.revision else 0,
                AcceptedSlots(x, plan), works)
  }

  datatype Event = ChildExit(handle: nat) | Poll(plan: Plan, works: string -> bool)

  function Apply(x: Setup, v: View, e: Event): View {
    match e
    case ChildExit(handle) => v.(live := v.live - {handle})
    case Poll(plan, works) => Polled(x, v, plan, works)
  }

  function Run(x: Setup, v: View, events: seq<Event>): View
    decreases |events|
  {
    if events == [] then v else Run(x, Apply(x, v, events[0]), events[1..])
  }

  lemma LaunchKeepsInv(v: View, revision: int, slot: Slot, works: bool)
    requires Inv(v) && Free(v, revision, slot) && |v.children| < MAX_SLOTS
    ensures Inv(Launched(v, revision, slot, works))
  {
    if works {
      ChildAdded(v.children, v.live, v.owner, v.nextHandle, Child(v.nextHandle, KeyOf(revision, slot), slot));
    }
  }

  lemma {:induction false} LaunchAllKeepsInv(v: View, revision: int, slots: seq<Slot>, works: string -> bool)
    requires Inv(v)
    ensures Inv(LaunchedAll(v, revision, slots, works))
    decreases |slots|
  {
    if slots != [] {
      if !Free(v, revision, slots[0]) {
        LaunchAllKeepsInv(v, revision, slots[1..], works);
      } else if |v.children| < MAX_SLOTS {
        LaunchKeepsInv(v, revision, slots[0], works(slots[0].slotId));
        LaunchAllKeepsInv(Launched(v, revision, slots[0], works(slots[0].slotId)), revision, slots[1..], works);
      }
    }
  }

  /** Over every run at most three children are live, one per slot, and no key of plan
      revision, slot, task and task revision is launched twice. */
  lemma {:induction false} RunKeepsInv(x: Setup, v: View, events: seq<Event>)
    requires Inv(v)
    ensures Inv(Run(x, v, events))
    ensures |Run(x, v, events).live| <= MAX_SLOTS && NoRepeats(Run(x, v, events).launched)
    decreases |events|
  {
    if events == [] {
      AtMostThreeLive(v.children, v.live, v.owner, v.nextHandle);
    } else {
      if events[0].Poll? {
        ChildrenDropped(v.children, v.live, v.owner, v.nextHandle);
        LaunchAllKeepsInv(v.(children := StillRunning(v.children, v.live)),
                          if events[0].plan.Ready? then events[0].plan.revision else 0,
                          AcceptedSlots(x, events[0].plan), events[0].works);
      }
      RunKeepsInv(x, Apply(x, v, events[0]), events[1..]);
    }
  }

  /** While there is room, no slot of the plan is passed over: afterwards each was attempted
      or had its child already. */
  lemma {:induction false} NoSlotPassedOver(v: View, revision: int, slots: seq<Slot>, works: string -> bool)
    requires |v.children| + |slots| <= MAX_SLOTS
    ensures var after := LaunchedAll(v, revision, slots, works);
            && v.attempted <= after.attempted && v.children.Keys <= after.children.Keys
            && forall i :: 0 <= i < |slots| ==>
                 KeyOf(revision, slots[i]) in after.attempted || slots[i].slotId in after.children
    decreases |slots|
  {
    if slots != [] {
      var next := if Free(v, revision, slots[0]) then Launched(v, revision, slots[0], works(slots[0].slotId)) else v;
      assert |next.children| <= |v.children| + 1 by {
        if Free(v, revision, slots[0]) && works(slots[0].slotId) {
          assert next.children == v.children[slots[0].slotId := next.children[slots[0].slotId]];
        }
      }
      NoSlotPassedOver(next, revision, slots[1..], works);
      assert forall i :: 0 < i < |slots| ==> slots[i] == slots[1..][i - 1];
    }
  }

  // ---------------------------------------------------------------- which slots a poll launches

  /** What launching adds and keeps: every child already out stays, each newly attempted slot
      was free, what is launched is what was newly attempted while the launcher worked, and
      it runs. */
  ghost predicate Adds(v: View, after: View, revision: int, slots: seq<Slot>, works: string -> bool) {
    && (forall s :: s in v.children ==> s in after.children && after.children[s] == v.children[s])
    && v.live <= after.live && v.attempted <= after.attempted
    && (forall k :: k in after.attempted && k !in v.attempted ==>
          k.slotId !in v.children && exists i :: 0 <= i < |slots| && KeyOf(revision, slots[i]) == k)
    && (forall k :: k in after.launched <==>
          k in v.launched || (k in after.attempted && k !in v.attempted && works(k.slotId)))
    && (forall k :: k in after.attempted && k !in v.attempted && works(k.slotId) ==>
          k.slotId in after.children && after.children[k.slotId].key == k && after.children[k.slotId].handle in after.live)
  }

  lemma OneAdds(v: View, revision: int, slot: Slot, rest: seq<Slot>, works: string -> bool, after: View)
    requires Free(v, revision, slot)
    requires Adds(Launched(v, revision, slot, works(slot.slotId)), after, revision, rest, works)
    ensures Adds(v, after, revision, [slot] + rest, works) && KeyOf(revision, slot) in after.attempted
  {
    var next, all := Launched(v, revision, slot, works(slot.slotId)), [slot] + rest;
    assert KeyOf(revision, slot) in next.attempted;
    forall k | k in after.attempted && k !in v.attempted
      ensures k.slotId !in v.children && exists i :: 0 <= i < |all| && KeyOf(revision, all[i]) == k
    {
      if k == KeyOf(revision, slot) {
        assert all[0] == slot;
      } else {
        assert k !in next.attempted;
        var i :| 0 <= i < |rest| && KeyOf(revision, rest[i]) == k;
        assert all[i + 1] == rest[i];
      }
    }
  }

  lemma {:induction false} LaunchingAdds(v: View, revision: int, slots: seq<Slot>, works: string -> bool)
    ensures Adds(v, LaunchedAll(v, revision, slots, works), revision, slots, works)
    decreases |slots|
  {
    if slots != [] {
      var rest := slots[1..];
      if !Free(v, revision, slots[0]) {
        LaunchingAdds(v, revision, rest, works);
        assert forall i :: 0 <= i < |rest| ==> rest[i] == slots[i + 1];
      } else if |v.children| < MAX_SLOTS {
        LaunchingAdds(Launched(v, revision, slots[0], works(slots[0].slotId)), revision, rest, works);
        OneAdds(v, revision, slots[0], rest, works, LaunchedAll(v, revision, slots, works));
        assert [slots[0]] + rest == slots;
      }
    }
  }

  /** Every slot is attempted by now, or had its child before, or three children are out. */
  predicate NoneOverlooked(v: View, after: View, revision: int, slots: seq<Slot>) {
    forall i :: 0 <= i < |slots| ==>
      KeyOf(revision, slots[i]) in after.attempted || slots[i].slotId in v.children || |after.children| >= MAX_SLOTS
  }

  lemma {:induction false} LaunchingOverlooksNone(v: View, revision: int, slots: seq<Slot>, works: string -> bool)
    requires forall i, j :: 0 <= i < j < |slots| ==> slots[i].slotId != slots[j].slotId
    ensures NoneOverlooked(v, LaunchedAll(v, revision, slots, works), revision, slots)
    decreases |slots|
  {
    if slots != [] {
      var rest := slots[1..];
      assert forall i :: 0 < i < |slots| ==> slots[i] == rest[i - 1];
      if !Free(v, revision, slots[0]) {
        LaunchingOverlooksNone(v, revision, rest, works);
        LaunchingAdds(v, revision, rest, works);
      } else if |v.children| < MAX_SLOTS {
        var next := Launched(v, revision, slots[0], works(slots[0].slotId));
        LaunchingOverlooksNone(next, revision, rest, works);
        LaunchingAdds(next, revision, rest, works);
      }
    }
  }

  /** The key a slot of a plan is attempted under. */
  function RawKey(revision: int, raw: RawSlot): Key
    requires raw.task.Some?
  {
    Key(revision, raw.slotId, raw.task.value.id, raw.task.value.revision)
  }

  /** The slot's child dispatcher is running. */
  predicate SlotRuns(v: View, slotId: string) {
    slotId in v.children && v.children[slotId].handle in v.live
  }

  /** The plan is one whose slots are launched: ready, with one to three slots, all accepted
      together, and the supervisor is not on a dry run. */
  predicate Launchable(x: Setup, plan: Plan) {
    && plan.Ready? && 1 <= |plan.slots| <= 3 && !x.dryRun
    && ValidatedSlots(x.platform, plan.slots, x.primary).Some?
  }

  /** The slots of a launchable plan are launched under the plan's own names. */
  lemma OwnSlots(x: Setup, plan: Plan)
    requires Launchable(x, plan)
    ensures var slots := AcceptedSlots(x, plan);
            && |slots| == |plan.slots|
            && forall i :: 0 <= i < |slots| ==>
                 && plan.slots[i].task.Some? && slots[i].slotId == plan.slots[i].slotId
                 && KeyOf(plan.revision, slots[i]) == RawKey(plan.revision, plan.slots[i])
  {
    forall i: nat | i < |plan.slots|
      ensures |AcceptedSlots(x, plan)| == |plan.slots| && plan.slots[i].task.Some?
      ensures var slot := AcceptedSlots(x, plan)[i];
              slot.slotId == plan.slots[i].slotId && KeyOf(plan.revision, slot) == RawKey(plan.revision, plan.slots[i])
    {
      AcceptedAreOwn(x.platform, plan.slots, x.primary, i);
    }
    assert |AcceptedSlots(x, plan)| == |plan.slots| by {
      AcceptedAreOwn(x.platform, plan.slots, x.primary, 0);
    }
  }

  /** Whatever a poll attempts is an own slot of a launchable plan, never attempted before,
      whose child does not run; it is launched exactly when the launcher works, and then its
      child runs. */
  lemma PollLaunchesOnly(x: Setup, v: View, plan: Plan, works: string -> bool, key: Key)
    requires key in Polled(x, v, plan, works).attempted && key !in v.attempted
    ensures Launchable(x, plan) && !SlotRuns(v, key.slotId)
    ensures exists i :: 0 <= i < |plan.slots| && plan.slots[i].task.Some? && RawKey(plan.revision, plan.slots[i]) == key
    ensures var after := Polled(x, v, plan, works);
            && (key in after.launched <==> key in v.launched || works(key.slotId))
            && (works(key.slotId) ==> SlotRuns(after, key.slotId) && after.children[key.slotId].key == key)
  {
    var now, slots := v.(children := StillRunning(v.children, v.live)), AcceptedSlots(x, plan);
    var revision := if plan.Ready? then plan.revision else 0;
    LaunchingAdds(now, revision, slots, works);
    assert slots != [];
    OwnSlots(x, plan);
  }

  /** Conversely, a poll that finds a launchable plan attempts each of its slots, unless the
      slot's child runs or three children are out. */
  lemma PollOverlooksNone(x: Setup, v: View, plan: Plan, works: string -> bool, i: nat)
    requires Launchable(x, plan) && i < |plan.slots|
    ensures plan.slots[i].task.Some?
    ensures var after := Polled(x, v, plan, works);
            || RawKey(plan.revision, plan.slots[i]) in after.attempted || SlotRuns(v, plan.slots[i].slotId)
            || |after.children| >= 3
  {
    var now, slots := v.(children := StillRunning(v.children, v.live)), AcceptedSlots(x, plan);
    OwnSlots(x, plan);
    AcceptedIffWritesApart(x.platform, plan.slots, x.primary);
    LaunchingOverlooksNone(now, plan.revision, slots, works);
  }

  /** A poll ends no process, forgets no attempt and drops exactly the children whose
      processes ended; without a launchable plan it does nothing more. */
  lemma PollKeeps(x: Setup, v: View, plan: Plan, works: string -> bool)
    ensures var after := Polled(x, v, plan, works);
            && v.live <= after.live && v.attempted <= after.attempted
            && (forall s :: SlotRuns(v, s) ==> s in after.children && after.children[s] == v.children[s])
            && (!Launchable(x, plan) ==>
                  && after.live == v.live && after.attempted == v.attempted && after.launched == v.launched
                  && forall s :: s in after.children ==> SlotRuns(v, s))
  {
    var now := v.(children := StillRunning(v.children, v.live));
    LaunchingAdds(now, if plan.Ready? then plan.revision else 0, AcceptedSlots(x, plan), works);
    assert forall s :: SlotRuns(v, s) ==> s in now.children;
  }

  // ---------------------------------------------------------------- the supervisor's own code

  class Supervisor {
    const setup: Setup
    var attempted: set<Key>
    var children: Children
    var live: set<nat>
    var nextHandle: nat
    ghost var owner: map<nat, string>
    ghost var launched: seq<Key>

    constructor (setup: Setup)
      ensures Abs() == START && this.setup == setup
    {
      this.setup := setup;
      attempted, children, live, nextHandle := {}, map[], {}, 0;
      owner, launched := map[], [];
    }

    ghost function Abs(): View
      reads this
    {
      View(attempted, children, live, nextHandle, owner, launched)
    }

    /** A child process ends on its own. */
    method ChildExits(handle: nat)
      modifies this`live
      ensures Abs() == Apply(setup, old(Abs()), ChildExit(handle))
    {
      live := live - {handle};
    }

    /** One free slot. */
    method LaunchOne(revision: int, slot: Slot, works: bool)
      modifies this
      ensures Abs() == Launched(old(Abs()), revision, slot, works)
    {
      var key := KeyOf(revision, slot);
      attempted := attempted + {key};
      if works {
        children := children[slot.slotId := Child(nextHandle, key, slot)];
        live := live + {nextHandle};
        owner := owner[nextHandle := slot.slotId];
        nextHandle := nextHandle + 1;
        launched := launched + [key];
      }
    }

    /** The launching loop of `poll_once`. */
    method LaunchSlots(revision: int, slots: seq<Slot>, works: string -> bool)
      modifies this
      ensures Abs() == LaunchedAll(old(Abs()), revision, slots, works)
    {
      var left := slots;
      while left != []
        invariant LaunchedAll(Abs(), revision, left, works) == LaunchedAll(old(Abs()), revision, slots, works)
        decreases |left|
      {
        var slot := left[0];
        if KeyOf(revision, slot) !in attempted && slot.slotId !in children {
          if |children| >= MAX_SLOTS {
            return;
          }
          LaunchOne(revision, slot, works(slot.slotId));
        }
        left := left[1..];
      }
    }

    /** `poll_once`: drop the children whose processes ended, validate the whole plan, then
        launch slot by slot. */
    method PollOnce(plan: Plan, works: string -> bool)
      modifies this
      ensures Abs() == Apply(setup, old(Abs()), Poll(plan, works))
    {
      children := StillRunning(children, live);
      if plan.Ready? && 0 < |plan.slots| <= MAX_SLOTS {
        var accepted := ValidateReadySlots(setup.platform, plan.slots, setup.primary);
        if accepted.Some? && !setup.dryRun {
          LaunchSlots(plan.revision, accepted.value, works);
        }
      }
    }

    /** The polling loop, with children ending in between: a run of the events. */
    method Drive(events: seq<Event>)
      modifies this
      ensures Abs() == Run(setup, old(Abs()), events)
    {
      var left := events;
      while left != []
        invariant Run(setup, Abs(), left) == Run(setup, old(Abs()), events)
        decreases |left|
      {
        match left[0] {
          case ChildExit(handle) => ChildExits(handle);
          case Poll(plan, works) => PollOnce(plan, works);
        }
        left := left[1..];
      }
    }
  }

  // ---------------------------------------------------------------- scopes across plan revisions

  /** No repository path lies in the scopes of two children. */
  ghost predicate NoPathShared(children: Children) {
    forall s, t :: s in children && t in children && s != t ==> !SharePath(children[s].slot, children[t].slot)
  }

  /** The slot's scopes are apart from those of every child: what `_scopes_overlap` would
      say if it were asked about slots of different plans. */
  predicate ClearOf(children: Children, slot: Slot) {
    forall s :: s in children ==> !SlotsClash(slot, children[s].slot)
  }

  /** The slots a poll launches, in order. */
  function ToLaunch(v: View, revision: int, slots: seq<Slot>, works: string -> bool): seq<Slot>
    decreases |slots|
  {
    if slots == [] then []
    else if !Free(v, revision, slots[0]) then ToLaunch(v, revision, slots[1..], works)
    else if |v.children| >= MAX_SLOTS then []
    else
      var works0 := works(slots[0].slotId);
      (if works0 then [slots[0]] else [])
      + ToLaunch(Launched(v, revision, slots[0], works0), revision, slots[1..], works)
  }

  /** Each of the slots is clear of every child. */
  predicate AllClear(children: Children, slots: seq<Slot>) {
    forall i :: 0 <= i < |slots| ==> ClearOf(children, slots[i])
  }

  lemma ClashCommutes(a: Slot, b: Slot)
    ensures SlotsClash(a, b) <==> SlotsClash(b, a)
  {
    forall i, j | 0 <= i < |a.scopes| && 0 <= j < |b.scopes|
      ensures Overlap(a.scopes[i], b.scopes[j]) <==> Overlap(b.scopes[j], a.scopes[i])
    {
      OverlapCommutes(a.scopes[i], b.scopes[j]);
    }
  }

  /** One more child shares no path exactly when its slot is clear of the others. */
  lemma ChildAddedShares(children: Children, c: Child)
    requires c.slot.slotId !in children
    ensures NoPathShared(children[c.slot.slotId := c]) <==> NoPathShared(children) && ClearOf(children, c.slot)
  {
    var id := c.slot.slotId;
    var after := children[id := c];
    forall s | s in children
      ensures after[s] == children[s] && s != id
      ensures SlotsClash(c.slot, children[s].slot) <==> SharePath(c.slot, children[s].slot)
      ensures SharePath(c.slot, children[s].slot) <==> SharePath(children[s].slot, c.slot)
    {
      ClashCommutes(c.slot, children[s].slot);
      ClashIffSharePath(c.slot, children[s].slot);
      ClashIffSharePath(children[s].slot, c.slot);
    }
    if NoPathShared(after) {
      forall s | s in children
        ensures !SharePath(after[id].slot, after[s].slot)
      {
      }
    }
  }

  lemma {:induction false} ToLaunchAreSlots(v: View, revision: int, slots: seq<Slot>, works: string -> bool)
    ensures forall i :: 0 <= i < |ToLaunch(v, revision, slots, works)| ==> ToLaunch(v, revision, slots, works)[i] in slots
    decreases |slots|
  {
    if slots != [] {
      ToLaunchAreSlots(v, revision, slots[1..], works);
      ToLaunchAreSlots(Launched(v, revision, slots[0], works(slots[0].slotId)), revision, slots[1..], works);
    }
  }

  /** Slots apart from the one just launched are as clear with it as without it. */
  lemma ClearWithOneMore(children: Children, c: Child, slots: seq<Slot>)
    requires c.slot.slotId !in children
    requires forall i :: 0 <= i < |slots| ==> !SlotsClash(c.slot, slots[i])
    ensures AllClear(children[c.slot.slotId := c], slots) <==> AllClear(children, slots)
  {
    var after := children[c.slot.slotId := c];
    forall i | 0 <= i < |slots|
      ensures ClearOf(after, slots[i]) <==> ClearOf(children, slots[i])
    {
      ClashCommutes(c.slot, slots[i]);
      assert forall s :: s in children ==> after[s] == children[s] && s in after;
    }
  }

  lemma ClearOfAll(children: Children, slot: Slot, rest: seq<Slot>)
    ensures AllClear(children, [slot] + rest) <==> ClearOf(children, slot) && AllClear(children, rest)
  {
    var slots := [slot] + rest;
    if AllClear(children, slots) {
      assert ClearOf(children, slots[0]);
      assert forall i :: 0 <= i < |rest| ==> rest[i] == slots[i + 1];
    }
  }

  /** One slot launched before the others of its plan. */
  lemma LaunchSharesIff(children: Children, c: Child, rest: seq<Slot>)
    requires c.slot.slotId !in children
    requires forall i :: 0 <= i < |rest| ==> !SlotsClash(c.slot, rest[i])
    ensures NoPathShared(children[c.slot.slotId := c]) && AllClear(children[c.slot.slotId := c], rest)
       <==> NoPathShared(children) && AllClear(children, [c.slot] + rest)
  {
    ChildAddedShares(children, c);
    ClearWithOneMore(children, c, rest);
    ClearOfAll(children, c.slot, rest);
  }

  /** The slots launched later are apart from the first. */
  lemma RestApart(v: View, revision: int, slots: seq<Slot>, works: string -> bool)
    requires slots != [] && Apart(slots)
    ensures Apart(slots[1..])
    ensures forall i :: 0 <= i < |ToLaunch(v, revision, slots[1..], works)| ==>
              !SlotsClash(slots[0], ToLaunch(v, revision, slots[1..], works)[i])
  {
    ToLaunchAreSlots(v, revision, slots[1..], works);
    var rest := ToLaunch(v, revision, slots[1..], works);
    forall i | 0 <= i < |rest|
      ensures !SlotsClash(slots[0], rest[i])
    {
      var j :| 0 <= j < |slots[1..]| && slots[1..][j] == rest[i];
      assert slots[j + 1] == rest[i];
    }
  }

  /** Launching the slots of one accepted plan shares no path exactly when none was shared
      before and every slot launched is clear of the children already there. */
  lemma {:induction false} LaunchAllSharesIff(v: View, revision: int, slots: seq<Slot>, works: string -> bool)
    requires Apart(slots)
    ensures NoPathShared(LaunchedAll(v, revision, slots, works).children)
         == (NoPathShared(v.children) && AllClear(v.children, ToLaunch(v, revision, slots, works)))
    decreases |slots|
  {
    if slots == [] {
    } else {
      var next := Launched(v, revision, slots[0], works(slots[0].slotId));
      RestApart(next, revision, slots, works);
      if !Free(v, revision, slots[0]) {
        LaunchAllSharesIff(v, revision, slots[1..], works);
      } else if |v.children| < MAX_SLOTS {
        LaunchAllSharesIff(next, revision, slots[1..], works);
        if works(slots[0].slotId) {
          LaunchSharesIff(v.children, next.children[slots[0].slotId], ToLaunch(next, revision, slots[1..], works));
        } else {
          assert [] + ToLaunch(next, revision, slots[1..], works) == ToLaunch(next, revision, slots[1..], works);
        }
      }
    }
  }

  /** The children whose processes run. */
  function LiveChildren(v: View): Children {
    StillRunning(v.children, v.live)
  }

  /** Every slot this poll launches is clear of the children running when it begins. */
  predicate PollClear(x: Setup, v: View, plan: Plan, works: string -> bool) {
    var now := v.(children := LiveChildren(v));
    AllClear(now.children, ToLaunch(now, if plan.Ready? then plan.revision else 0, AcceptedSlots(x, plan), works))
  }

  lemma {:induction false} LaunchedAllLive(v: View, revision: int, slots: seq<Slot>, works: string -> bool)
    requires LiveChildren(v) == v.children
    ensures var after := LaunchedAll(v, revision, slots, works); LiveChildren(after) == after.children
    decreases |slots|
  {
    if slots != [] {
      if !Free(v, revision, slots[0]) {
        LaunchedAllLive(v, revision, slots[1..], works);
      } else if |v.children| < MAX_SLOTS {
        if works(slots[0].slotId) {
          FreshChild(v, revision, slots[0]);
        }
        LaunchedAllLive(Launched(v, revision, slots[0], works(slots[0].slotId)), revision, slots[1..], works);
      }
    }
  }

  /** After a poll no repository path lies under two running children exactly when none did
      before and every launched slot is clear of the children then running: the slots of
      one plan are compared with each other, but not with those of another plan. */
  lemma PollSharesIff(x: Setup, v: View, plan: Plan, works: string -> bool)
    ensures NoPathShared(LiveChildren(Polled(x, v, plan, works)))
       <==> NoPathShared(LiveChildren(v)) && PollClear(x, v, plan, works)
  {
    var now, slots := v.(children := LiveChildren(v)), AcceptedSlots(x, plan);
    var revision := if plan.Ready? then plan.revision else 0;
    assert LiveChildren(now) == now.children;
    LaunchedAllLive(now, revision, slots, works);
    LaunchAllSharesIff(now, revision, slots, works);
  }

  /** At every point of the run no path lies under two running children. */
  ghost predicate NoPathSharedThroughout(x: Setup, v: View, events: seq<Event>)
    decreases |events|
  {
    && NoPathShared(LiveChildren(v))
    && (events != [] ==> NoPathSharedThroughout(x, Apply(x, v, events[0]), events[1..]))
  }

  /** Every poll of the run launches only slots clear of the children then running. */
  predicate PollsClear(x: Setup, v: View, events: seq<Event>)
    decreases |events|
  {
    events != [] ==>
      && (events[0].Poll? ==> PollClear(x, v, events[0].plan, events[0].works))
      && PollsClear(x, Apply(x, v, events[0]), events[1..])
  }

  /** Over a whole run of polls, plan revisions and exits: no path is ever under two running
      children exactly when every poll launches only slots clear of those running. */
  lemma {:induction false} NoPathSharedIff(x: Setup, v: View, events: seq<Event>)
    requires NoPathShared(LiveChildren(v))
    ensures NoPathSharedThroughout(x, v, events) <==> PollsClear(x, v, events)
    decreases |events|
  {
    if events != [] {
      var next := Apply(x, v, events[0]);
      match events[0] {
        case ChildExit(handle) =>
          forall s | s in LiveChildren(next)
            ensures s in LiveChildren(v) && LiveChildren(next)[s] == LiveChildren(v)[s]
          {
          }
          assert NoPathShared(LiveChildren(next));
        case Poll(plan, works) =>
          PollSharesIff(x, v, plan, works);
      }
      if NoPathShared(LiveChildren(next)) {
        NoPathSharedIff(x, next, events[1..]);
      }
    }
  }

  lemma OneSlotLaunched(v: View, revision: int, slot: Slot, works: string -> bool)
    requires works(slot.slotId) && Free(v, revision, slot) && |v.children| < MAX_SLOTS
    ensures LaunchedAll(v, revision, [slot], works) == Launched(v, revision, slot, true)
  {
    var after := Launched(v, revision, slot, true);
    assert [slot][1..] == [];
    assert LaunchedAll(v, revision, [slot], works) == LaunchedAll(after, revision, [slot][1..], works);
  }

  /** A ready plan of one accepted slot. */
  lemma OneSlotPolled(x: Setup, v: View, revision: int, raw: RawSlot, slot: Slot, works: string -> bool)
    requires !x.dryRun && ValidatedSlots(x.platform, [raw], x.primary) == Some([slot]) && works(slot.slotId)
    requires StillRunning(v.children, v.live) == v.children && Free(v, revision, slot) && |v.children| < MAX_SLOTS
    ensures Apply(x, v, Poll(Ready(revision, [raw]), works)) == Launched(v, revision, slot, true)
  {
    OneSlotLaunched(v, revision, slot, works);
    var plan := Ready(revision, [raw]);
    assert AcceptedSlots(x, plan) == [slot];
    assert v.(children := StillRunning(v.children, v.live)) == v;
    assert Polled(x, v, plan, works) == LaunchedAll(v, revision, AcceptedSlots(x, plan), works);
  }

  /** Whenever two slots are accepted by two plan revisions, one each, and there is room,
      both their children run at once, whatever paths the slots share. */
  lemma BothLaunched(x: Setup, v: View, r: int, rawA: RawSlot, a: Slot, q: int, rawB: RawSlot, b: Slot)
    returns (events: seq<Event>)
    requires !x.dryRun && a.slotId != b.slotId
    requires ValidatedSlots(x.platform, [rawA], x.primary) == Some([a])
    requires ValidatedSlots(x.platform, [rawB], x.primary) == Some([b])
    requires StillRunning(v.children, v.live) == v.children && |v.children| < MAX_SLOTS - 1
    requires Free(v, r, a) && Free(v, q, b)
    ensures var after := Run(x, v, events);
            && LiveChildren(after) == after.children && after.live == v.live + {v.nextHandle, v.nextHandle + 1}
            && a.slotId in after.children && after.children[a.slotId].slot == a
            && b.slotId in after.children && after.children[b.slotId].slot == b
  {
    FreshChild(v, r, a);
    FreshChild(Launched(v, r, a, true), q, b);
    events := TwoPolls(x, v, r, rawA, a, q, rawB, b);
  }

  lemma TwoPolls(x: Setup, v: View, r: int, rawA: RawSlot, a: Slot, q: int, rawB: RawSlot, b: Slot)
    returns (events: seq<Event>)
    requires !x.dryRun && a.slotId != b.slotId
    requires ValidatedSlots(x.platform, [rawA], x.primary) == Some([a])
    requires ValidatedSlots(x.platform, [rawB], x.primary) == Some([b])
    requires StillRunning(v.children, v.live) == v.children && |v.children| < MAX_SLOTS - 1
    requires Free(v, r, a) && Free(v, q, b)
    ensures Run(x, v, events) == Launched(Launched(v, r, a, true), q, b, true)
  {
    var works := (s: string) => true;
    var first, second := Poll(Ready(r, [rawA]), works), Poll(Ready(q, [rawB]), works);
    FreshChild(v, r, a);
    OneSlotPolled(x, v, r, rawA, a, works);
    OneSlotPolled(x, Launched(v, r, a, true), q, rawB, b, works);
    events := [first, second];
    TwoEvents(x, v, first, second);
  }

  /** A freshly launched child runs beside those already running. */
  lemma FreshChild(v: View, revision: int, slot: Slot)
    requires StillRunning(v.children, v.live) == v.children && slot.slotId !in v.children
    ensures var after := Launched(v, revision, slot, true);
            && StillRunning(after.children, after.live) == after.children
            && after.live == v.live + {v.nextHandle} && after.nextHandle == v.nextHandle + 1
            && |after.children| == |v.children| + 1
            && slot.slotId in after.children && after.children[slot.slotId].slot == slot
            && after.attempted == v.attempted + {KeyOf(revision, slot)}
            && after.children.Keys == v.children.Keys + {slot.slotId}
            && forall s :: s in v.children ==> after.children[s] == v.children[s]
  {
    var after := Launched(v, revision, slot, true);
    forall s | s in v.children
      ensures after.children[s].handle in after.live
    {
      assert s in StillRunning(v.children, v.live);
    }
  }

  lemma TwoEvents(x: Setup, v: View, first: Event, second: Event)
    ensures Run(x, v, [first, second]) == Apply(x, Apply(x, v, first), second)
  {
    var next := Apply(x, v, first);
    assert [first, second][1..] == [second] && [second][1..] == [];
    assert Run(x, next, [second]) == Run(x, Apply(x, next, second), [second][1..]);
  }

  const PLAIN: Platform := Platform(c => c == ' ', text => false, text => text)

  /** A slot that may write under the given scope. */
  function SlotFor(id: string, scope: string): RawSlot {
    RawSlot(id, "/work/" + id, "branch-" + id, true, true, true, true, true, Some(Task("task-" + id, 1, [OUTBOX, scope])))
  }

  function SlotOf(id: string, path: Path): Slot {
    Slot(id, "/work/" + id, "branch-" + id, "task-" + id, 1, [path])
  }

  lemma ScopesOfOne(p: Platform, writes: seq<string>, path: Path)
    requires |writes| == 2 && writes[0] == OUTBOX && writes[1] != OUTBOX
    requires NormalizedScope(p, writes[1]) == Some(path)
    ensures ScopesOf(p, writes) == Some([path])
  {
    var rest := writes[1..];
    assert rest[1..] == [];
    assert ScopesOf(p, rest[1..]) == Some([]);
    assert rest[0] == writes[1] && [path] + [] == [path];
    assert ScopesOf(p, rest) == Some([path]);
    assert ScopesOf(p, writes) == ScopesOf(p, rest);
  }

  lemma SlotForAccepted(id: string, scope: string, path: Path)
    requires NormalizedScope(PLAIN, scope) == Some(path) && scope != OUTBOX
    ensures ValidatedSlots(PLAIN, [SlotFor(id, scope)], "/primary") == Some([SlotOf(id, path)])
  {
    var raws := [SlotFor(id, scope)];
    ScopesOfOne(PLAIN, [OUTBOX, scope], path);
    assert ValidatedSlot(PLAIN, raws[0]) == Some(SlotOf(id, path));
    assert raws[1..] == [];
    assert AllSlots(PLAIN, raws[1..]) == Some([]);
    assert [SlotOf(id, path)] + [] == [SlotOf(id, path)];
    assert AllSlots(PLAIN, raws) == Some([SlotOf(id, path)]);
    assert raws[0].root[1] == 'w' && "/primary"[1] == 'p';
    assert Structured(raws, "/primary");
  }

  lemma NormalizesTo(p: Platform, raw: string, path: Path)
    requires raw != "" && !p.blank(raw[0]) && !p.blank(raw[|raw| - 1]) && !p.absolute(raw) && raw[0] != '/'
    requires forall i :: 0 <= i < |raw| ==> raw[i] != '\0' && raw[i] != ':' && raw[i] != '\\'
    requires Split(raw) == path && forall i :: 0 <= i < |path| ==> CleanPart(path[i]) && p.fold(path[i]) == path[i]
    ensures NormalizedScope(p, raw) == Some(path)
  {
    assert Slashes(raw) == raw;
    assert FoldAll(p, path) == path;
  }

  lemma SrcNormalized()
    ensures NormalizedScope(PLAIN, "src") == Some(["src"])
  {
    SplitWhole("src");
    NormalizesTo(PLAIN, "src", ["src"]);
  }

  lemma SrcApiNormalized()
    ensures NormalizedScope(PLAIN, "src/api") == Some(["src", "api"])
  {
    SplitSegment("src", "api");
    SplitWhole("api");
    assert "src" + "/" + "api" == "src/api" && ["src"] + ["api"] == ["src", "api"];
    NormalizesTo(PLAIN, "src/api", ["src", "api"]);
  }

  /** The condition can fail: `src` accepted for one slot under plan revision 1 and
      `src/api` for another under revision 2 run side by side. */
  lemma OverlapAcrossPlans() returns (x: Setup, events: seq<Event>)
    ensures !NoPathShared(LiveChildren(Run(x, START, events)))
  {
    x := Setup(PLAIN, "/primary", false);
    SrcNormalized();
    SrcApiNormalized();
    SlotForAccepted("slot-1", "src", ["src"]);
    SlotForAccepted("slot-2", "src/api", ["src", "api"]);
    var a, b := SlotOf("slot-1", ["src"]), SlotOf("slot-2", ["src", "api"]);
    assert "slot-1"[5] != "slot-2"[5];
    assert StillRunning(START.children, START.live) == START.children;
    events := BothLaunched(x, START, 1, SlotFor("slot-1", "src"), a, 2, SlotFor("slot-2", "src/api"), b);
    BothShare(a, b);
  }

  lemma BothShare(a: Slot, b: Slot)
    requires a.scopes == [["src"]] && b.scopes == [["src", "api"]]
    ensures SharePath(a, b)
  {
    assert Overlap(a.scopes[0], b.scopes[0]);
    ClashIffSharePath(a, b);
  }
}
