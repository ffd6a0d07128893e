/** Staging all entries of an inventory into one fresh directory tree: possible exactly
    when no entry of an input lies above or below another, and then the staged tree has
    exactly that inventory. */
module StagedEntries {
  import opened Wrappers
  import opened Paths
  import opened StableSort
  import opened InputScan
  import opened InventoryScan
  import opened InventoryLookup
  import opened StagedTree

  /** The entries of one input. */
  function Of(entries: seq<Entry>, index: nat): seq<Entry> {
    Select(entries, (e: Entry) => e.index == index)
  }

  lemma {:induction false} SelectConcat<T>(a: seq<T>, b: seq<T>, pick: T -> bool)
    ensures Select(a + b, pick) == Select(a, pick) + Select(b, pick)
    decreases |a|
  {
    if a == [] {
      assert a + b == b;
    } else {
      var head := if pick(a[0]) then [a[0]] else [];
      assert (a + b)[1..] == a[1..] + b && (a + b)[0] == a[0];
      SelectConcat(a[1..], b, pick);
      assert head + (Select(a[1..], pick) + Select(b, pick)) == (head + Select(a[1..], pick)) + Select(b, pick);
    }
  }

  lemma OfOneMore(entries: seq<Entry>, i: nat, index: nat)
    requires i < |entries|
    ensures Of(entries[..i + 1], index)
         == if entries[i].index == index then Of(entries[..i], index) + [entries[i]] else Of(entries[..i], index)
  {
    assert entries[..i + 1] == entries[..i] + [entries[i]];
    SelectConcat(entries[..i], [entries[i]], (e: Entry) => e.index == index);
  }

  lemma {:induction false} OfMembers(entries: seq<Entry>, index: nat, e: Entry)
    ensures e in Of(entries, index) <==> e in entries && e.index == index
  {
    if entries != [] {
      OfMembers(entries[1..], index, e);
    }
  }

  /** The file of an entry: its bytes by hash. */
  predicate ContentFor(digest: Digest, contents: map<string, Bytes>, e: Entry) {
    e.hash in contents && |contents[e.hash]| == e.size && digest(contents[e.hash]) == e.hash
  }

  /** Two entries of one input, one of them on the other's path. */
  predicate Clash(e: Entry, f: Entry) {
    e.index == f.index && e.index != 0 && Overlap(Split(e.path), Split(f.path))
  }

  ghost predicate Writable(entries: seq<Entry>) {
    forall i, j :: 0 <= i < j < |entries| ==> !Clash(entries[i], entries[j])
  }

  /** One root's staged tree: well shaped, scannable, and holding these entries. */
  ghost predicate RootStaged(children: seq<Node>, index: nat, entries: seq<Entry>, digest: Digest) {
    && StagedShape(children) && AllowedIn(children, [])
    && multiset(EntriesIn(children, index, [], digest)) == multiset(Of(entries, index))
  }

  lemma EntrySegments(e: Entry)
    requires EntryOk(e) && e.index != 0
    ensures CleanSegments(Split(e.path)) && Join(Split(e.path)) == e.path
  {
    JoinSplit(e.path);
    SplitHasNoSlash(e.path);
  }

  /** A held file is one of the entries staged so far. */
  lemma HeldIsStaged(children: seq<Node>, index: nat, entries: seq<Entry>, digest: Digest, p: Path, content: Bytes)
    returns (e: Entry)
    requires RootStaged(children, index, entries, digest) && Holds(children, p, content)
    ensures e in entries && e.index == index && Split(e.path) == p
  {
    HeldIsEntry(children, index, [], digest, p, content);
    assert [] + p == p;
    e := EntryOf(digest, index, p, content);
    assert e in multiset(Of(entries, index));
    OfMembers(entries, index, e);
    HeldSegmentsClean(children, p, content);
    SplitJoin(p);
  }

  lemma {:induction false} HeldSegmentsClean(children: seq<Node>, p: Path, content: Bytes)
    requires Listed(children) && Holds(children, p, content)
    ensures CleanSegments(p)
    decreases |p|
  {
    var m :| m in children && HoldsAt(m, p, content);
    assert ListedNode(m);
    if |p| > 1 {
      HeldSegmentsClean(m.children, p[1..], content);
    }
  }

  lemma StagedIsHeld(children: seq<Node>, entries: seq<Entry>, digest: Digest, e: Entry)
    returns (p: Path, content: Bytes)
    requires RootStaged(children, e.index, entries, digest) && e in entries && EntryOk(e) && e.index != 0
    ensures Holds(children, p, content) && p == Split(e.path) && e == EntryOf(digest, e.index, p, content)
  {
    OfMembers(entries, e.index, e);
    assert e in multiset(EntriesIn(children, e.index, [], digest));
    p, content := EntryIsHeld(children, e.index, [], digest, e);
    assert [] + p == p;
    HeldSegmentsClean(children, p, content);
    SplitJoin(p);
  }

  /** A write into a staged root is blocked exactly by a clash with an earlier entry. */
  lemma BlockedIffClash(children: seq<Node>, entries: seq<Entry>, i: nat, digest: Digest)
    requires i < |entries| && EntryOk(entries[i]) && entries[i].index != 0
    requires RootStaged(children, entries[i].index, entries[..i], digest)
    requires forall k :: 0 <= k < i ==> EntryOk(entries[k])
    ensures Blocked(children, Split(entries[i].path)) <==> exists k :: 0 <= k < i && Clash(entries[k], entries[i])
  {
    var e, segments := entries[i], Split(entries[i].path);
    if Blocked(children, segments) {
      var p, content :| Holds(children, p, content) && Overlap(p, segments);
      var f := HeldIsStaged(children, e.index, entries[..i], digest, p, content);
      var k :| 0 <= k < i && entries[..i][k] == f;
      assert Clash(entries[k], e);
    }
    if k :| 0 <= k < i && Clash(entries[k], e) {
      assert entries[..i][k] == entries[k];
      var p, content := StagedIsHeld(children, entries[..i], digest, entries[k]);
      assert Holds(children, p, content) && Overlap(p, segments);
    }
  }

  /** Writing an entry's file into its root stages that entry and no other. */
  lemma EntryStaged(children: seq<Node>, entries: seq<Entry>, i: nat, digest: Digest, content: Bytes)
    requires i < |entries| && EntryOk(entries[i]) && entries[i].index != 0
    requires |content| == entries[i].size && digest(content) == entries[i].hash
    requires RootStaged(children, entries[i].index, entries[..i], digest)
    requires WriteFile(children, Split(entries[i].path), content).Some?
    ensures RootStaged(WriteFile(children, Split(entries[i].path), content).value,
                       entries[i].index, entries[..i + 1], digest)
  {
    var e, segments := entries[i], Split(entries[i].path);
    EntrySegments(e);
    assert [] + segments == segments;
    WriteKeepsShape(children, segments, content);
    WriteKeepsAllowed(children, segments, content, []);
    WriteAddsEntry(children, segments, content, e.index, [], digest);
    assert e == EntryOf(digest, e.index, [] + segments, content);
    OfOneMore(entries, i, e.index);
  }

  /** Entries of other inputs do not concern a root. */
  lemma OtherRootUntouched(children: seq<Node>, index: nat, entries: seq<Entry>, i: nat, digest: Digest)
    requires i < |entries| && entries[i].index != index && RootStaged(children, index, entries[..i], digest)
    ensures RootStaged(children, index, entries[..i + 1], digest)
  {
    OfOneMore(entries, i, index);
  }

  // ---------------------------------------------------------------- scanned entries can be written

  /** No file of a scanned tree lies above or below another: a scanned inventory can
      always be staged again. */
  lemma ScannedIsWritable(inputs: Inputs, digest: Digest)
    requires ListedInputs(inputs) && Scannable(inputs, digest)
    ensures Writable(InventoryOf(inputs, digest).entries)
  {
    var entries := InventoryOf(inputs, digest).entries;
    InventoryStrictlyOrdered(inputs, digest);
    forall i, j | 0 <= i < j < |entries|
      ensures !Clash(entries[i], entries[j])
    {
      assert EntryLess(entries[i], entries[j]);
      if Clash(entries[i], entries[j]) {
        var e, f := entries[i], entries[j];
        assert e in entries && f in entries;
        InventoryListsFiles(inputs, digest, e);
        InventoryListsFiles(inputs, digest, f);
        FoundApart(inputs.roots, digest, e, f);
      }
    }
  }

  lemma FoundApart(roots: seq<Node>, digest: Digest, e: Entry, f: Entry)
    requires Found(roots, digest, e) && Found(roots, digest, f) && Clash(e, f)
    requires Listed(roots[e.index - 1].children)
    ensures e == f
  {
    var children := roots[e.index - 1].children;
    var p, c :| Holds(children, p, c) && e == EntryOf(digest, e.index, p, c);
    var q, d :| Holds(children, q, d) && f == EntryOf(digest, f.index, q, d);
    HeldSegmentsClean(children, p, c);
    HeldSegmentsClean(children, q, d);
    SplitJoin(p);
    SplitJoin(q);
    HeldPathsApart(children, p, c, q, d);
  }
}
