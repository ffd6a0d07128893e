/** Twelve staged objects and the inventory they scan to. */
module HydratedInventory {
  import opened Paths
  import opened StableSort
  import opened StringOrder
  import opened InputScan
  import opened InventoryScan
  import opened InventoryLookup
  import opened StagedTree
  import opened StagedEntries

  /** Directory contents by name: the parent directory, or the staging directory. */
  type Names = map<string, Node>

  /** The spec file's and the roots' names, in input order. */
  ghost predicate NamesOk(names: seq<string>) {
    |names| == ROOT_COUNT + 1 && forall i, j :: 0 <= i < j < |names| ==> names[i] != names[j]
  }

  /** All files of the first `i` entries are in place, and nothing else. */
  ghost predicate Staged(held: Names, names: seq<string>, entries: seq<Entry>, i: nat, digest: Digest)
    requires NamesOk(names) && i <= |entries|
  {
    && (forall j :: 1 <= j <= ROOT_COUNT ==> RootInPlace(held, names[j], j, entries[..i], digest))
    && (if i == 0 then names[0] !in held else SpecInPlace(held, names[0], entries[0], digest))
  }

  ghost predicate RootInPlace(held: Names, name: string, index: nat, entries: seq<Entry>, digest: Digest) {
    name in held && held[name].Dir? && RootStaged(held[name].children, index, entries, digest)
  }

  ghost predicate SpecInPlace(held: Names, name: string, spec: Entry, digest: Digest) {
    name in held && held[name].File?
    && |held[name].content| == spec.size && digest(held[name].content) == spec.hash
  }

  /** The spec entry comes first, and only once. */
  lemma SpecFirst(entries: seq<Entry>)
    requires ValidEntries(entries)
    ensures entries != [] && entries[0].index == 0 && entries[0].path == ""
    ensures forall k :: 0 < k < |entries| ==> 0 < entries[k].index <= ROOT_COUNT
  {
    var i :| 0 <= i < |entries| && entries[i].index == 0;
    assert i > 0 ==> EntryLess(entries[0], entries[i]);
    assert EntryOk(entries[0]) && EntryOk(entries[i]);
    forall k | 0 < k < |entries|
      ensures 0 < entries[k].index <= ROOT_COUNT
    {
      assert EntryLess(entries[0], entries[k]) && EntryOk(entries[k]);
    }
  }

  /** The entries of the inputs from one position on. */
  ghost function From(entries: seq<Entry>, first: nat): seq<Entry> {
    Select(entries, (e: Entry) => e.index >= first)
  }

  lemma {:induction false} FromSplits(entries: seq<Entry>, first: nat)
    ensures multiset(From(entries, first)) == multiset(Of(entries, first)) + multiset(From(entries, first + 1))
  {
    if entries != [] {
      FromSplits(entries[1..], first);
    }
  }

  lemma {:induction false} FromAll(entries: seq<Entry>, first: nat)
    requires forall k :: 0 <= k < |entries| ==> entries[k].index >= first
    ensures From(entries, first) == entries
  {
    if entries != [] {
      FromAll(entries[1..], first);
      assert entries == [entries[0]] + entries[1..];
    }
  }

  lemma {:induction false} FromNone(entries: seq<Entry>, first: nat)
    requires forall k :: 0 <= k < |entries| ==> entries[k].index < first
    ensures From(entries, first) == []
  {
    if entries != [] {
      FromNone(entries[1..], first);
    }
  }

  ghost predicate RootsStaged(roots: seq<Node>, first: nat, entries: seq<Entry>, digest: Digest) {
    forall j :: 0 <= j < |roots| ==> roots[j].Dir? && RootStaged(roots[j].children, first + j, entries, digest)
  }

  lemma LaterRootsStaged(roots: seq<Node>, first: nat, entries: seq<Entry>, digest: Digest)
    requires roots != [] && RootsStaged(roots, first, entries, digest)
    ensures roots[0].Dir? && RootStaged(roots[0].children, first, entries, digest)
    ensures RootsStaged(roots[1..], first + 1, entries, digest)
  {
    assert RootStaged(roots[0].children, first + 0, entries, digest);
    forall j | 0 <= j < |roots[1..]|
      ensures roots[1..][j].Dir? && RootStaged(roots[1..][j].children, first + 1 + j, entries, digest)
    {
      assert roots[1..][j] == roots[j + 1];
    }
  }

  /** The roots from one position on hold exactly the entries from there on. */
  lemma {:induction false} RootsHoldEntries(roots: seq<Node>, first: nat, entries: seq<Entry>, digest: Digest)
    requires first + |roots| == ROOT_COUNT + 1
    requires forall k :: 0 <= k < |entries| ==> entries[k].index <= ROOT_COUNT
    requires RootsStaged(roots, first, entries, digest)
    ensures multiset(RootEntries(roots, first, digest)) == multiset(From(entries, first))
    decreases |roots|
  {
    if roots == [] {
      FromNone(entries, first);
    } else {
      LaterRootsStaged(roots, first, entries, digest);
      RootsHoldEntries(roots[1..], first + 1, entries, digest);
      FromSplits(entries, first);
      JoinBags(EntriesIn(roots[0].children, first, [], digest), RootEntries(roots[1..], first + 1, digest),
               Of(entries, first), From(entries, first + 1));
    }
  }

  lemma JoinBags(a: seq<Entry>, b: seq<Entry>, c: seq<Entry>, d: seq<Entry>)
    requires multiset(a) == multiset(c) && multiset(b) == multiset(d)
    ensures multiset(a + b) == multiset(c) + multiset(d)
  {
  }

  /** Twelve objects in place, read as inputs of a scan. */
  function HeldInputs(held: Names, names: seq<string>): (inputs: Inputs)
    requires |names| == ROOT_COUNT + 1 && forall j :: 0 <= j <= ROOT_COUNT ==> names[j] in held
    ensures inputs.spec == held[names[0]] && |inputs.roots| == ROOT_COUNT
    ensures forall j :: 0 <= j < ROOT_COUNT ==> inputs.roots[j] == held[names[j + 1]]
  {
    Inputs(held[names[0]], seq(ROOT_COUNT, j requires 0 <= j < ROOT_COUNT => held[names[j + 1]]))
  }

  /** A complete staging scans to exactly the inventory it was staged from. */
  lemma StagedInventory(held: Names, names: seq<string>, inventory: Inventory, digest: Digest)
    requires NamesOk(names) && ValidEntries(inventory.entries)
    requires inventory.count == |inventory.entries| <= MAXIMUM_INCLUDED_FILES
    requires inventory.total == TotalSize(inventory.entries) <= MAXIMUM_TOTAL_BYTES
    requires Staged(held, names, inventory.entries, |inventory.entries|, digest)
    ensures forall j :: 0 <= j <= ROOT_COUNT ==> names[j] in held
    ensures var inputs := HeldInputs(held, names);
            ListedInputs(inputs) && Scannable(inputs, digest) && InventoryOf(inputs, digest) == inventory
  {
    var entries := inventory.entries;
    SpecFirst(entries);
    assert entries[..|entries|] == entries;
    assert forall j :: 1 <= j <= ROOT_COUNT ==> RootInPlace(held, names[j], j, entries, digest);
    assert names[0] in held;
    var inputs := HeldInputs(held, names);
    StagedRoots(held, names, inputs, entries, digest);
    assert EntryOk(entries[0]);
    AllStaged(inputs, entries, digest);
    ScansTo(inputs, inventory, digest);
  }

  lemma FromRest(entries: seq<Entry>)
    requires entries != [] && entries[0].index == 0
    requires forall k :: 0 < k < |entries| ==> 0 < entries[k].index
    ensures From(entries, 1) == entries[1..] && entries == [entries[0]] + entries[1..]
  {
    FromAll(entries[1..], 1);
  }

  /** The spec file and the roots together hold exactly the entries. */
  lemma AllStaged(inputs: Inputs, entries: seq<Entry>, digest: Digest)
    requires |inputs.roots| == ROOT_COUNT && entries != [] && inputs.spec.File?
    requires entries[0] == Entry(0, "", |inputs.spec.content|, digest(inputs.spec.content))
    requires forall k :: 0 < k < |entries| ==> 0 < entries[k].index <= ROOT_COUNT
    requires RootsStaged(inputs.roots, 1, entries, digest)
    ensures multiset(AllEntries(inputs, digest)) == multiset(entries)
  {
    RootsHoldEntries(inputs.roots, 1, entries, digest);
    FromRest(entries);
    JoinBags([entries[0]], RootEntries(inputs.roots, 1, digest), [entries[0]], entries[1..]);
  }

  lemma StagedRoots(held: Names, names: seq<string>, inputs: Inputs, entries: seq<Entry>, digest: Digest)
    requires NamesOk(names) && (forall j :: 0 <= j <= ROOT_COUNT ==> names[j] in held)
    requires inputs == HeldInputs(held, names)
    requires forall j :: 1 <= j <= ROOT_COUNT ==> RootInPlace(held, names[j], j, entries, digest)
    ensures RootsStaged(inputs.roots, 1, entries, digest)
    ensures ListedInputs(inputs) && RootsAllowed(inputs.roots)
  {
    forall j | 0 <= j < ROOT_COUNT
      ensures inputs.roots[j].Dir? && RootStaged(inputs.roots[j].children, 1 + j, entries, digest)
    {
      assert RootInPlace(held, names[j + 1], j + 1, entries, digest);
    }
  }

  /** Inputs with exactly the entries of a valid inventory scan to that inventory. */
  lemma ScansTo(inputs: Inputs, inventory: Inventory, digest: Digest)
    requires ListedInputs(inputs) && RootsAllowed(inputs.roots) && inputs.spec.File?
    requires multiset(AllEntries(inputs, digest)) == multiset(inventory.entries)
    requires ValidEntries(inventory.entries)
    requires inventory.count == |inventory.entries| <= MAXIMUM_INCLUDED_FILES
    requires inventory.total == TotalSize(inventory.entries) <= MAXIMUM_TOTAL_BYTES
    ensures Scannable(inputs, digest) && InventoryOf(inputs, digest) == inventory
  {
    var all, entries := AllEntries(inputs, digest), inventory.entries;
    TotalSizePermuted(all, entries);
    assert |multiset(all)| == |multiset(entries)|;
    SameMembers(all, entries);
    assert all[0] in entries;
    var i :| 0 <= i < |entries| && entries[i] == all[0];
    assert EntryOk(entries[i]);
    assert Scannable(inputs, digest);
    SameInventory(inputs, digest, Progress(entries, inventory.count, inventory.total));
    AlreadySorted(entries);
  }

  lemma AlreadySorted(entries: seq<Entry>)
    requires forall i, j :: 0 <= i < j < |entries| ==> EntryLess(entries[i], entries[j])
    ensures Sort(entries, EntryLe) == entries
  {
    EntryLeIsPreorder();
    SortSorted(entries, EntryLe);
    SortPermutes(entries, EntryLe);
    UniqueKeysSeparate(entries);
    SortedUnique(entries, Sort(entries, EntryLe), EntryLe);
  }
}
