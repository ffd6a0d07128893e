/** The scan itself: an explicit stack of directories, running count and byte total,
    one sort at the end, and the inventory's own validation.  It is proved against the
    recursive definition of the same inventory. */
module InventoryScan {
  import opened Wrappers
  import opened Paths
  import opened StableSort
  import opened StringOrder
  import opened InputScan

  /** A directory still to be listed, with the path that led to it. */
  datatype Pending = Pending(children: seq<Node>, segments: Path)

  /** The running state of one scan: what was collected, and its count and byte total. */
  datatype Progress = Progress(collected: seq<Entry>, count: nat, bytes: nat)

  ghost predicate Tracks(p: Progress) {
    && p.count == |p.collected| <= MAXIMUM_INCLUDED_FILES
    && p.bytes == TotalSize(p.collected) <= MAXIMUM_TOTAL_BYTES
  }

  /** What is collected so far together with `more` stays inside both ceilings. */
  ghost predicate Fits(collected: seq<Entry>, more: seq<Entry>) {
    && |collected + more| <= MAXIMUM_INCLUDED_FILES
    && TotalSize(collected + more) <= MAXIMUM_TOTAL_BYTES
  }

  ghost function StackEntries(stack: seq<Pending>, index: nat, digest: Digest): seq<Entry>
    decreases |stack|
  {
    if stack == [] then []
    else
      var top := stack[|stack| - 1];
      StackEntries(stack[..|stack| - 1], index, digest) + EntriesIn(top.children, index, top.segments, digest)
  }

  ghost predicate StackAllowed(stack: seq<Pending>) {
    forall i :: 0 <= i < |stack| ==> AllowedIn(stack[i].children, stack[i].segments)
  }

  /** Directories and files left below a directory, itself included. */
  ghost function Weight(children: seq<Node>): nat
    decreases children, 0
  {
    if children == [] then 1 else NodeWeight(children[0]) + Weight(children[1..])
  }

  ghost function NodeWeight(n: Node): nat
    decreases n, 1
  {
    if n.Dir? then Weight(n.children) else 0
  }

  ghost function StackWeight(stack: seq<Pending>): nat
    decreases |stack|
  {
    if stack == [] then 0 else StackWeight(stack[..|stack| - 1]) + Weight(stack[|stack| - 1].children)
  }

  lemma Pushed(stack: seq<Pending>, top: Pending, index: nat, digest: Digest)
    ensures StackEntries(stack + [top], index, digest)
         == StackEntries(stack, index, digest) + EntriesIn(top.children, index, top.segments, digest)
    ensures StackAllowed(stack + [top]) <==> StackAllowed(stack) && AllowedIn(top.children, top.segments)
    ensures StackWeight(stack + [top]) == StackWeight(stack) + Weight(top.children)
  {
    var longer := stack + [top];
    assert longer[..|longer| - 1] == stack;
    assert StackAllowed(longer) ==> StackAllowed(stack) && AllowedIn(top.children, top.segments) by {
      if StackAllowed(longer) {
        assert longer[|stack|] == top;
        forall i | 0 <= i < |stack|
          ensures AllowedIn(stack[i].children, stack[i].segments)
        {
          assert longer[i] == stack[i];
        }
      }
    }
  }

  /** What is left of a directory once its first child is dealt with. */
  lemma FirstChild(children: seq<Node>, prefix: Path, index: nat, digest: Digest)
    requires children != []
    ensures EntriesIn(children, index, prefix, digest)
         == EntriesUnder(children[0], index, prefix, digest) + EntriesIn(children[1..], index, prefix, digest)
    ensures AllowedIn(children, prefix) <==> Allowed(children[0], prefix) && AllowedIn(children[1..], prefix)
    ensures Weight(children) == NodeWeight(children[0]) + Weight(children[1..])
  {
    assert AllowedIn(children[1..], prefix) && Allowed(children[0], prefix) ==> AllowedIn(children, prefix) by {
      if AllowedIn(children[1..], prefix) && Allowed(children[0], prefix) {
        forall i | 0 <= i < |children|
          ensures Allowed(children[i], prefix)
        {
          assert i > 0 ==> children[i] == children[1..][i - 1];
        }
      }
    }
  }

  lemma FitsPermuted(a: seq<Entry>, more: seq<Entry>, b: seq<Entry>, left: seq<Entry>)
    requires multiset(a + more) == multiset(b + left)
    ensures Fits(a, more) <==> Fits(b, left)
  {
    TotalSizePermuted(a + more, b + left);
    assert |multiset(a + more)| == |multiset(b + left)|;
  }

  lemma FitsSoFar(collected: seq<Entry>, more: seq<Entry>)
    requires Fits(collected, more)
    ensures |collected| <= MAXIMUM_INCLUDED_FILES && TotalSize(collected) <= MAXIMUM_TOTAL_BYTES
  {
    TotalSizeConcat(collected, more);
  }

  /** One regular file: count it, check the ceilings, read it and record its entry. */
  method Collect(p: Progress, content: Bytes, index: nat, segments: Path, digest: Digest)
    returns (r: Option<Progress>)
    requires Tracks(p)
    ensures r.Some? <==> Readable(content) && RelativePathOk(Join(segments))
                         && Fits(p.collected, [EntryOf(digest, index, segments, content)])
    ensures r.Some? ==> Tracks(r.value)
                        && r.value.collected == p.collected + [EntryOf(digest, index, segments, content)]
  {
    ghost var e := EntryOf(digest, index, segments, content);
    TotalSizeConcat(p.collected, [e]);
    var count := p.count + 1;
    if count > MAXIMUM_INCLUDED_FILES || !Readable(content) {
      return None;
    }
    var bytes := p.bytes + |content|;
    if bytes > MAXIMUM_TOTAL_BYTES || !RelativePathOk(Join(segments)) {
      return None;
    }
    r := Some(Progress(p.collected + [EntryOf(digest, index, segments, content)], count, bytes));
  }

  /** Everything still to be found while one directory is being listed. */
  ghost function Todo(stack: seq<Pending>, left: Pending, index: nat, digest: Digest): seq<Entry> {
    StackEntries(stack, index, digest) + EntriesIn(left.children, index, left.segments, digest)
  }

  ghost predicate TodoAllowed(stack: seq<Pending>, left: Pending) {
    StackAllowed(stack) && AllowedIn(left.children, left.segments)
  }

  /** One child: a file is recorded, a directory pushed, anything else refused. */
  method ScanChild(left: Pending, index: nat, digest: Digest, p: Progress, stack0: seq<Pending>)
    returns (r: Option<Progress>, stack: seq<Pending>)
    requires Tracks(p) && left.children != []
    ensures r.None? ==> !TodoAllowed(stack0, left) || !Fits(p.collected, Todo(stack0, left, index, digest))
    ensures r.Some? ==> Tracks(r.value)
    ensures r.Some? ==>
      var rest := Pending(left.children[1..], left.segments);
      && multiset(r.value.collected + Todo(stack, rest, index, digest))
         == multiset(p.collected + Todo(stack0, left, index, digest))
      && (TodoAllowed(stack, rest) <==> TodoAllowed(stack0, left))
      && StackWeight(stack) + Weight(rest.children) == StackWeight(stack0) + Weight(left.children)
  {
    var child, segments := left.children[0], left.segments + [left.children[0].name];
    FirstChild(left.children, left.segments, index, digest);
    stack := stack0;
    match child
    case Unsupported(_) =>
      r := None;
    case Dir(_, children) =>
      DirChild(left, index, digest, stack0);
      stack := stack0 + [Pending(children, segments)];
      r := Some(p);
    case File(_, content) =>
      r := Collect(p, content, index, segments, digest);
      FileChild(left, index, digest, p.collected, stack0);
  }

  lemma DirChild(left: Pending, index: nat, digest: Digest, stack: seq<Pending>)
    requires left.children != [] && left.children[0].Dir?
    ensures var child := left.children[0];
            var longer := stack + [Pending(child.children, left.segments + [child.name])];
            var rest := Pending(left.children[1..], left.segments);
            && Todo(longer, rest, index, digest) == Todo(stack, left, index, digest)
            && (TodoAllowed(longer, rest) <==> TodoAllowed(stack, left))
            && StackWeight(longer) + Weight(rest.children) == StackWeight(stack) + Weight(left.children)
  {
    var child := left.children[0];
    Pushed(stack, Pending(child.children, left.segments + [child.name]), index, digest);
    FirstChild(left.children, left.segments, index, digest);
    Regroup(StackEntries(stack, index, digest),
            EntriesIn(child.children, index, left.segments + [child.name], digest),
            EntriesIn(left.children[1..], index, left.segments, digest));
  }

  lemma Regroup(a: seq<Entry>, b: seq<Entry>, c: seq<Entry>)
    ensures (a + b) + c == a + (b + c)
  {
  }

  lemma FileChild(left: Pending, index: nat, digest: Digest, collected: seq<Entry>, stack: seq<Pending>)
    requires left.children != [] && left.children[0].File?
    ensures var child := left.children[0];
            var e := EntryOf(digest, index, left.segments + [child.name], child.content);
            var rest := Todo(stack, Pending(left.children[1..], left.segments), index, digest);
            && multiset(collected + [e] + rest) == multiset(collected + Todo(stack, left, index, digest))
            && (Fits(collected, Todo(stack, left, index, digest)) ==> Fits(collected, [e]))
  {
    var child := left.children[0];
    var e := EntryOf(digest, index, left.segments + [child.name], child.content);
    var stacked, rest := StackEntries(stack, index, digest), EntriesIn(left.children[1..], index, left.segments, digest);
    FirstChild(left.children, left.segments, index, digest);
    OneMore(collected, e, stacked, rest);
    FitsPermuted(collected, stacked + ([e] + rest), collected + [e], stacked + rest);
    if Fits(collected + [e], stacked + rest) {
      FitsSoFar(collected + [e], stacked + rest);
    }
  }

  lemma OneMore(collected: seq<Entry>, e: Entry, stacked: seq<Entry>, rest: seq<Entry>)
    ensures multiset(collected + [e] + (stacked + rest)) == multiset(collected + (stacked + ([e] + rest)))
  {
  }

  /** The inner loop: every child of the directory popped last. */
  method ScanChildren(top: Pending, index: nat, digest: Digest, p0: Progress, stack0: seq<Pending>)
    returns (r: Option<Progress>, stack: seq<Pending>)
    requires Tracks(p0)
    ensures r.None? ==> !TodoAllowed(stack0, top) || !Fits(p0.collected, Todo(stack0, top, index, digest))
    ensures r.Some? ==> Tracks(r.value)
    ensures r.Some? ==>
      && multiset(r.value.collected + StackEntries(stack, index, digest))
         == multiset(p0.collected + Todo(stack0, top, index, digest))
      && (StackAllowed(stack) <==> TodoAllowed(stack0, top))
      && StackWeight(stack) < StackWeight(stack0) + Weight(top.children)
  {
    r := Some(p0);
    stack := stack0;
    var left := top;
    while left.children != []
      invariant r.Some? && Tracks(r.value)
      invariant multiset(r.value.collected + Todo(stack, left, index, digest))
             == multiset(p0.collected + Todo(stack0, top, index, digest))
      invariant TodoAllowed(stack, left) == TodoAllowed(stack0, top)
      invariant StackWeight(stack) + Weight(left.children) == StackWeight(stack0) + Weight(top.children)
      decreases |left.children|
    {
      FitsPermuted(p0.collected, Todo(stack0, top, index, digest),
                   r.value.collected, Todo(stack, left, index, digest));
      r, stack := ScanChild(left, index, digest, r.value, stack);
      if r.None? {
        return;
      }
      left := Pending(left.children[1..], left.segments);
    }
    assert Todo(stack, left, index, digest) == StackEntries(stack, index, digest);
  }

  lemma Popped(stack: seq<Pending>, index: nat, digest: Digest)
    requires stack != []
    ensures var top, below := stack[|stack| - 1], stack[..|stack| - 1];
            && StackEntries(stack, index, digest) == Todo(below, top, index, digest)
            && StackAllowed(stack) == TodoAllowed(below, top)
            && StackWeight(stack) == StackWeight(below) + Weight(top.children)
  {
    var top, below := stack[|stack| - 1], stack[..|stack| - 1];
    assert below + [top] == stack;
    Pushed(below, top, index, digest);
  }

  lemma StackOfOne(children: seq<Node>, index: nat, digest: Digest)
    ensures var stack := [Pending(children, [])];
            && StackEntries(stack, index, digest) == EntriesIn(children, index, [], digest)
            && StackAllowed(stack) == AllowedIn(children, [])
  {
    Popped([Pending(children, [])], index, digest);
  }

  /** Nothing left on the stack: all was collected. */
  lemma AllCollected(p: Progress, collected: seq<Entry>, under: seq<Entry>, index: nat, digest: Digest)
    requires Tracks(p) && multiset(p.collected + StackEntries([], index, digest)) == multiset(collected + under)
    ensures multiset(p.collected) == multiset(collected + under) && Fits(collected, under)
  {
    assert p.collected + [] == p.collected;
    FitsPermuted(collected, under, p.collected, []);
  }

  /** One root: the outer loop over the stack. */
  method ScanRoot(children: seq<Node>, index: nat, digest: Digest, p0: Progress)
    returns (r: Option<Progress>)
    requires Tracks(p0)
    ensures r.Some? <==> AllowedIn(children, []) && Fits(p0.collected, EntriesIn(children, index, [], digest))
    ensures r.Some? ==>
      && Tracks(r.value)
      && multiset(r.value.collected) == multiset(p0.collected + EntriesIn(children, index, [], digest))
  {
    ghost var under := EntriesIn(children, index, [], digest);
    var stack := [Pending(children, [])];
    StackOfOne(children, index, digest);
    r := Some(p0);
    while stack != []
      invariant r.Some? && Tracks(r.value)
      invariant multiset(r.value.collected + StackEntries(stack, index, digest)) == multiset(p0.collected + under)
      invariant StackAllowed(stack) == AllowedIn(children, [])
      decreases StackWeight(stack)
    {
      Popped(stack, index, digest);
      FitsPermuted(p0.collected, under, r.value.collected, StackEntries(stack, index, digest));
      r, stack := ScanChildren(stack[|stack| - 1], index, digest, r.value, stack[..|stack| - 1]);
      if r.None? {
        return;
      }
    }
    AllCollected(r.value, p0.collected, under, index, digest);
  }

  // ---------------------------------------------------------------- the inventory

  predicate EntryOk(e: Entry) {
    && e.index <= ROOT_COUNT && 0 < e.size <= MAXIMUM_FILE_BYTES
    && (if e.index == 0 then e.path == "" else RelativePathOk(e.path))
  }

  /** What an inventory demands of its entries, however it was obtained. */
  ghost predicate ValidEntries(entries: seq<Entry>) {
    && (forall i :: 0 <= i < |entries| ==> EntryOk(entries[i]))
    && (forall i, j :: 0 <= i < j < |entries| ==> EntryLess(entries[i], entries[j]))
    && NoCaseClash(entries)
    && (exists i :: 0 <= i < |entries| && entries[i].index == 0)
  }

  lemma LessTransitive(e: Entry, f: Entry, g: Entry)
    requires EntryLess(e, f) && EntryLess(f, g)
    ensures EntryLess(e, g)
  {
    StrLeIsTotalOrder();
    if e.index == g.index && e.path == g.path {
      StrAntisymmetric(e.path, f.path);
    }
  }

  /** What the loop has established about the first `i` entries: keys in order, and the
      folded keys collected. */
  ghost predicate OrderedSoFar(entries: seq<Entry>, i: nat, specSeen: bool)
    requires i <= |entries|
  {
    && (forall k :: 0 <= k < i ==> EntryOk(entries[k]))
    && (forall j, k :: 0 <= j < k < i ==> EntryLess(entries[j], entries[k]))
    && (specSeen <==> exists k :: 0 <= k < i && entries[k].index == 0)
  }

  ghost predicate FoldedSoFar(entries: seq<Entry>, i: nat, folded: set<(nat, string)>)
    requires i <= |entries|
  {
    && (forall k :: 0 <= k < i ==> FoldKey(entries[k]) in folded)
    && (forall key :: key in folded ==> exists k :: 0 <= k < i && FoldKey(entries[k]) == key)
    && (forall j, k :: 0 <= j < k < i ==> FoldKey(entries[j]) != FoldKey(entries[k]))
  }

  lemma OrderedOneMore(entries: seq<Entry>, i: nat, specSeen: bool)
    requires i < |entries| && OrderedSoFar(entries, i, specSeen)
    requires EntryOk(entries[i]) && (i > 0 ==> EntryLess(entries[i - 1], entries[i]))
    ensures OrderedSoFar(entries, i + 1, specSeen || entries[i].index == 0)
  {
    forall j | 0 <= j < i
      ensures EntryLess(entries[j], entries[i])
    {
      if j < i - 1 {
        LessTransitive(entries[j], entries[i - 1], entries[i]);
      }
    }
  }

  lemma FoldedOneMore(entries: seq<Entry>, i: nat, folded: set<(nat, string)>)
    requires i < |entries| && FoldedSoFar(entries, i, folded) && FoldKey(entries[i]) !in folded
    ensures FoldedSoFar(entries, i + 1, folded + {FoldKey(entries[i])})
  {
  }

  lemma ValidApart(entries: seq<Entry>, k: nat, i: nat)
    requires ValidEntries(entries) && k < i < |entries|
    ensures FoldKey(entries[k]) != FoldKey(entries[i])
  {
    assert EntryLess(entries[k], entries[i]);
    assert entries[k] in entries && entries[i] in entries;
  }

  /** A repeated folded key is a case clash or a repeated key. */
  lemma FoldedTwice(entries: seq<Entry>, i: nat, folded: set<(nat, string)>)
    requires i < |entries| && FoldedSoFar(entries, i, folded) && FoldKey(entries[i]) in folded
    ensures !ValidEntries(entries)
  {
    var k :| 0 <= k < i && FoldKey(entries[k]) == FoldKey(entries[i]);
    if ValidEntries(entries) {
      ValidApart(entries, k, i);
    }
  }

  /** A second spec file would repeat the first one's folded key. */
  lemma SpecSeenOnce(entries: seq<Entry>, i: nat, folded: set<(nat, string)>)
    requires i < |entries| && OrderedSoFar(entries, i, true) && FoldedSoFar(entries, i, folded)
    requires EntryOk(entries[i]) && FoldKey(entries[i]) !in folded
    ensures entries[i].index != 0
  {
    var k :| 0 <= k < i && entries[k].index == 0;
    assert EntryOk(entries[k]);
  }

  lemma ValidAtEnd(entries: seq<Entry>, folded: set<(nat, string)>, specSeen: bool)
    requires OrderedSoFar(entries, |entries|, specSeen) && FoldedSoFar(entries, |entries|, folded)
    ensures ValidEntries(entries) <==> specSeen
  {
    FoldedApart(entries);
  }

  /** The validation loop: previous key, case-folded keys seen, spec file seen. */
  method ValidateEntries(entries: seq<Entry>) returns (ok: bool)
    ensures ok <==> ValidEntries(entries)
  {
    var folded: set<(nat, string)> := {};
    var specSeen := false;
    for i := 0 to |entries|
      invariant OrderedSoFar(entries, i, specSeen)
      invariant FoldedSoFar(entries, i, folded)
    {
      var e := entries[i];
      if !EntryOk(e) || (i > 0 && !EntryLess(entries[i - 1], e)) {
        return false;
      }
      if FoldKey(e) in folded {
        FoldedTwice(entries, i, folded);
        return false;
      }
      if specSeen {
        SpecSeenOnce(entries, i, folded);
      }
      OrderedOneMore(entries, i, specSeen);
      FoldedOneMore(entries, i, folded);
      folded := folded + {FoldKey(e)};
      if e.index == 0 {
        if specSeen {
          assert false;
        }
        specSeen := true;
      }
    }
    ok := specSeen;
    ValidAtEnd(entries, folded, specSeen);
  }

  lemma FoldedApart(entries: seq<Entry>)
    requires forall j, k :: 0 <= j < k < |entries| ==> FoldKey(entries[j]) != FoldKey(entries[k])
    ensures NoCaseClash(entries)
  {
    forall e, f | e in entries && f in entries && FoldKey(e) == FoldKey(f)
      ensures e == f
    {
      var j :| 0 <= j < |entries| && entries[j] == e;
      var k :| 0 <= k < |entries| && entries[k] == f;
    }
  }

  // ---------------------------------------------------------------- the whole scan

  ghost predicate RootsAllowed(roots: seq<Node>) {
    forall i :: 0 <= i < |roots| ==> roots[i].Dir? && AllowedIn(roots[i].children, [])
  }

  lemma FitsPart(collected: seq<Entry>, more: seq<Entry>, last: seq<Entry>)
    requires Fits(collected, more + last)
    ensures Fits(collected, more)
  {
    assert collected + (more + last) == (collected + more) + last;
    TotalSizeConcat(collected + more, last);
  }

  /** The first root of those left, and the later ones. */
  lemma NextRoot(left: seq<Node>, index: nat, digest: Digest, collected: seq<Entry>)
    requires left != [] && left[0].Dir?
    ensures var under, rest := EntriesIn(left[0].children, index, [], digest), RootEntries(left[1..], index + 1, digest);
            && collected + RootEntries(left, index, digest) == (collected + under) + rest
            && (Fits(collected, RootEntries(left, index, digest)) ==> Fits(collected, under))
  {
    var under, rest := EntriesIn(left[0].children, index, [], digest), RootEntries(left[1..], index + 1, digest);
    assert collected + (under + rest) == (collected + under) + rest;
    if Fits(collected, under + rest) {
      FitsPart(collected, under, rest);
    }
  }

  lemma RootsAllowedSplit(left: seq<Node>)
    requires left != []
    ensures RootsAllowed(left) <==> left[0].Dir? && AllowedIn(left[0].children, []) && RootsAllowed(left[1..])
  {
    assert left == [left[0]] + left[1..];
    assert RootsAllowed(left) ==> RootsAllowed(left[1..]) by {
      assert forall i :: 0 <= i < |left[1..]| ==> left[1..][i] == left[i + 1];
    }
  }

  method ScanNextRoot(left: seq<Node>, index: nat, digest: Digest, p: Progress) returns (r: Option<Progress>)
    requires Tracks(p) && left != []
    ensures r.None? ==> !RootsAllowed(left) || !Fits(p.collected, RootEntries(left, index, digest))
    ensures r.Some? ==>
      && Tracks(r.value)
      && RootsAllowed(left[1..]) == RootsAllowed(left)
      && multiset(r.value.collected + RootEntries(left[1..], index + 1, digest))
         == multiset(p.collected + RootEntries(left, index, digest))
  {
    RootsAllowedSplit(left);
    if !left[0].Dir? {
      return None;
    }
    NextRoot(left, index, digest, p.collected);
    r := ScanRoot(left[0].children, index, digest, p);
  }

  /** Scanning the roots in their fixed order. */
  method ScanRoots(roots: seq<Node>, digest: Digest, p0: Progress) returns (r: Option<Progress>)
    requires Tracks(p0)
    ensures r.Some? <==> RootsAllowed(roots) && Fits(p0.collected, RootEntries(roots, 1, digest))
    ensures r.Some? ==>
      Tracks(r.value) && multiset(r.value.collected) == multiset(p0.collected + RootEntries(roots, 1, digest))
  {
    r := Some(p0);
    var left, index: nat := roots, 1;
    ghost var all := RootEntries(roots, 1, digest);
    while left != []
      invariant r.Some? && Tracks(r.value)
      invariant RootsAllowed(left) == RootsAllowed(roots)
      invariant multiset(r.value.collected + RootEntries(left, index, digest)) == multiset(p0.collected + all)
      decreases |left|
    {
      FitsPermuted(p0.collected, all, r.value.collected, RootEntries(left, index, digest));
      r := ScanNextRoot(left, index, digest, r.value);
      if r.None? {
        return;
      }
      left, index := left[1..], index + 1;
    }
    assert r.value.collected + [] == r.value.collected;
    FitsPermuted(p0.collected, all, r.value.collected, []);
  }

  /** Every collected entry has a valid path and size. */
  lemma {:induction false} AllowedEntriesOk(children: seq<Node>, index: nat, prefix: Path, digest: Digest)
    requires AllowedIn(children, prefix) && 0 < index <= ROOT_COUNT
    ensures forall e :: e in EntriesIn(children, index, prefix, digest) ==> EntryOk(e)
    decreases children, 0
  {
    if children != [] {
      FirstChild(children, prefix, index, digest);
      if children[0].Dir? {
        AllowedEntriesOk(children[0].children, index, prefix + [children[0].name], digest);
      }
      AllowedEntriesOk(children[1..], index, prefix, digest);
    }
  }

  lemma {:induction false} AllowedRootsOk(roots: seq<Node>, first: nat, digest: Digest)
    requires RootsAllowed(roots) && 0 < first && first + |roots| <= ROOT_COUNT + 1
    ensures forall e :: e in RootEntries(roots, first, digest) ==> EntryOk(e)
    decreases |roots|
  {
    if roots != [] {
      AllowedEntriesOk(roots[0].children, first, [], digest);
      AllowedRootsOk(roots[1..], first + 1, digest);
    }
  }

  /** The sorted entries pass validation unless two paths differ only in case. */
  lemma SortedEntriesValid(inputs: Inputs, digest: Digest)
    requires ListedInputs(inputs)
    requires inputs.spec.File? && Readable(inputs.spec.content) && RootsAllowed(inputs.roots)
    ensures ValidEntries(InventoryOf(inputs, digest).entries) <==> NoCaseClash(AllEntries(inputs, digest))
  {
    var all := AllEntries(inputs, digest);
    InventoryStrictlyOrdered(inputs, digest);
    AllowedRootsOk(inputs.roots, 1, digest);
    assert all[0].index == 0;
    ValidWhenOrdered(InventoryOf(inputs, digest).entries, all);
  }

  lemma ValidWhenOrdered(entries: seq<Entry>, all: seq<Entry>)
    requires forall i, j :: 0 <= i < j < |entries| ==> EntryLess(entries[i], entries[j])
    requires multiset(entries) == multiset(all)
    requires forall e :: e in all ==> EntryOk(e)
    requires all != [] && all[0].index == 0
    ensures ValidEntries(entries) <==> NoCaseClash(all)
  {
    SameMembers(entries, all);
    assert NoCaseClash(entries) <==> NoCaseClash(all);
    assert all[0] in entries;
    forall i | 0 <= i < |entries|
      ensures EntryOk(entries[i])
    {
      assert entries[i] in all;
    }
  }

  lemma SameMembers(a: seq<Entry>, b: seq<Entry>)
    requires multiset(a) == multiset(b)
    ensures forall e :: e in a <==> e in b
  {
    forall e
      ensures e in a <==> e in b
    {
      assert e in a <==> e in multiset(a);
      assert e in b <==> e in multiset(b);
    }
  }

  lemma SameInventory(inputs: Inputs, digest: Digest, p: Progress)
    requires ListedInputs(inputs) && Tracks(p)
    requires multiset(p.collected) == multiset(AllEntries(inputs, digest))
    ensures Inventory(Sort(p.collected, EntryLe), p.count, p.bytes) == InventoryOf(inputs, digest)
  {
    var all := AllEntries(inputs, digest);
    AllEntriesUnique(inputs, digest);
    EntryLeIsPreorder();
    UniqueKeysSeparate(all);
    SortCanonical(all, p.collected, EntryLe);
    TotalSizePermuted(all, p.collected);
    assert |multiset(all)| == |multiset(p.collected)|;
  }

  /** The scan returns the recursively defined inventory exactly when the inputs can be
      scanned, and otherwise refuses. */
  method BuildInventory(inputs: Inputs, digest: Digest) returns (r: Option<Inventory>)
    requires ListedInputs(inputs)
    ensures r == if Scannable(inputs, digest) then Some(InventoryOf(inputs, digest)) else None
  {
    if !inputs.spec.File? || !Readable(inputs.spec.content) {
      return None;
    }
    var content := inputs.spec.content;
    var p0 := Progress([Entry(0, "", |content|, digest(content))], 1, |content|);
    var p := ScanRoots(inputs.roots, digest, p0);
    assert AllEntries(inputs, digest) == p0.collected + RootEntries(inputs.roots, 1, digest);
    if p.None? {
      return None;
    }
    SameInventory(inputs, digest, p.value);
    SortedEntriesValid(inputs, digest);
    var entries := Sort(p.value.collected, EntryLe);
    var ok := ValidateEntries(entries);
    r := if ok then Some(Inventory(entries, p.value.count, p.value.bytes)) else None;
  }
}
