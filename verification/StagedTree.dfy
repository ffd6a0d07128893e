/** Writing a file into a staged directory tree: missing parents are made, and the file
    itself must be new.  A write succeeds exactly when no file already written lies on
    its path or beneath it, and adds exactly its own inventory entry. */
module StagedTree {
  import opened Wrappers
  import opened Paths
  import opened InputScan
  import opened InventoryScan
  import opened InventoryLookup

  /** The position of a name among siblings, or their number. */
  function Find(children: seq<Node>, name: string): (i: nat)
    ensures i <= |children|
    ensures i < |children| ==> children[i].name == name
    ensures forall k :: 0 <= k < i ==> children[k].name != name
  {
    if children == [] then 0
    else if children[0].name == name then 0
    else 1 + Find(children[1..], name)
  }

  /** Make missing parents, then create the file exclusively. */
  function WriteFile(children: seq<Node>, segments: Path, content: Bytes): Option<seq<Node>>
    requires segments != []
    decreases |segments|
  {
    var i := Find(children, segments[0]);
    if |segments| == 1 then
      if i < |children| then None else Some(children + [File(segments[0], content)])
    else if i == |children| then
      match WriteFile([], segments[1..], content)
      case Some(made) => Some(children + [Dir(segments[0], made)])
      case None => None
    else if children[i].Dir? then
      match WriteFile(children[i].children, segments[1..], content)
      case Some(changed) => Some(children[i := Dir(segments[0], changed)])
      case None => None
    else None
  }

  /** Every directory below holds a file, and every object is a file or a directory. */
  ghost predicate NoEmptyDirs(children: seq<Node>)
    decreases children, 0
  {
    forall i :: 0 <= i < |children| ==> Inhabited(children[i])
  }

  ghost predicate Inhabited(n: Node)
    decreases n, 1
  {
    match n
    case File(_, _) => true
    case Dir(_, children) => children != [] && NoEmptyDirs(children)
    case Unsupported(_) => false
  }

  ghost predicate StagedShape(children: seq<Node>) {
    Listed(children) && NoEmptyDirs(children)
  }

  ghost predicate CleanSegments(segments: Path) {
    segments != [] && forall i :: 0 <= i < |segments| ==> segments[i] != "" && NoSlash(segments[i])
  }

  /** Some file at or above or below the path. */
  ghost predicate Blocked(children: seq<Node>, segments: Path) {
    exists p, content :: Holds(children, p, content) && Overlap(p, segments)
  }

  lemma {:induction false} SomeFile(children: seq<Node>) returns (p: Path, content: Bytes)
    requires children != [] && NoEmptyDirs(children)
    ensures Holds(children, p, content) && p[0] == children[0].name
    decreases children
  {
    if children[0].File? {
      p, content := [children[0].name], children[0].content;
      assert HoldsAt(children[0], p, content);
    } else {
      assert Inhabited(children[0]);
      p, content := SomeFile(children[0].children);
      p := [children[0].name] + p;
      assert HoldsAt(children[0], p, content);
    }
  }

  /** Anything standing at the path blocks it. */
  lemma StandingBlocks(children: seq<Node>, i: nat, segments: Path)
    requires NoEmptyDirs(children) && segments != [] && i < |children| && children[i].name == segments[0]
    requires |segments| == 1 || children[i].File?
    ensures Blocked(children, segments)
  {
    var n := children[i];
    if n.File? {
      assert HoldsAt(n, [n.name], n.content);
      assert Holds(children, [n.name], n.content);
      assert Overlap([n.name], segments);
    } else {
      assert Inhabited(n);
      var p, content := SomeFile(n.children);
      assert ([n.name] + p)[1..] == p;
      assert HoldsAt(n, [n.name] + p, content);
      assert Holds(children, [n.name] + p, content);
      assert Overlap([n.name] + p, segments);
    }
  }

  /** Below the first segment, blocking is decided in the directory of that name. */
  lemma BlockedBelow(children: seq<Node>, i: nat, segments: Path)
    requires Listed(children) && |segments| > 1 && i < |children|
    requires children[i].name == segments[0] && children[i].Dir?
    ensures Blocked(children, segments) <==> Blocked(children[i].children, segments[1..])
  {
    var n := children[i];
    if Blocked(children, segments) {
      var p, content :| Holds(children, p, content) && Overlap(p, segments);
      var m :| m in children && HoldsAt(m, p, content);
      OverlapTail(p, segments);
      assert m == n;
      assert Holds(n.children, p[1..], content);
    }
    if Blocked(n.children, segments[1..]) {
      var p, content :| Holds(n.children, p, content) && Overlap(p, segments[1..]);
      var q := [n.name] + p;
      assert q[1..] == p;
      assert HoldsAt(n, q, content);
      OverlapTail(q, segments);
      assert Holds(children, q, content) && Overlap(q, segments);
    }
  }

  lemma PrefixTail(p: Path, q: Path)
    requires 0 < |p| <= |q|
    ensures q[..|p|] == p <==> p[0] == q[0] && q[1..][..|p| - 1] == p[1..]
  {
    assert q[..|p|] == [q[0]] + q[1..][..|p| - 1];
    assert p == [p[0]] + p[1..];
  }

  lemma OverlapTail(p: Path, q: Path)
    requires p != [] && q != []
    ensures Overlap(p, q) <==> p[0] == q[0] && Overlap(p[1..], q[1..])
  {
    if |p| <= |q| {
      PrefixTail(p, q);
    } else {
      PrefixTail(q, p);
    }
  }

  /** A name no sibling has leaves the path free. */
  lemma NothingNamed(children: seq<Node>, segments: Path)
    requires segments != [] && Find(children, segments[0]) == |children|
    ensures !Blocked(children, segments)
  {
    if Blocked(children, segments) {
      var p, content :| Holds(children, p, content) && Overlap(p, segments);
      var m :| m in children && HoldsAt(m, p, content);
      OverlapTail(p, segments);
    }
  }

  /** A write succeeds exactly when nothing blocks it. */
  lemma {:induction false} WriteSucceedsIff(children: seq<Node>, segments: Path, content: Bytes)
    requires StagedShape(children) && segments != []
    ensures WriteFile(children, segments, content).Some? <==> !Blocked(children, segments)
    decreases |segments|
  {
    var i := Find(children, segments[0]);
    if i == |children| {
      NothingNamed(children, segments);
      if |segments| > 1 {
        WriteSucceedsIff([], segments[1..], content);
        NothingNamed([], segments[1..]);
      }
    } else if |segments| == 1 || children[i].File? {
      StandingBlocks(children, i, segments);
    } else {
      assert ListedNode(children[i]) && Inhabited(children[i]);
      WriteSucceedsIff(children[i].children, segments[1..], content);
      BlockedBelow(children, i, segments);
    }
  }

  /** Writing keeps siblings distinct and directories inhabited. */
  lemma {:induction false} WriteKeepsShape(children: seq<Node>, segments: Path, content: Bytes)
    requires StagedShape(children) && CleanSegments(segments)
    requires WriteFile(children, segments, content).Some?
    ensures StagedShape(WriteFile(children, segments, content).value)
    ensures WriteFile(children, segments, content).value != []
    decreases |segments|
  {
    var i := Find(children, segments[0]);
    if |segments| > 1 && i == |children| {
      WriteKeepsShape([], segments[1..], content);
    } else if |segments| > 1 {
      assert ListedNode(children[i]) && Inhabited(children[i]);
      WriteKeepsShape(children[i].children, segments[1..], content);
    }
  }

  lemma {:induction false} EntriesConcat(a: seq<Node>, b: seq<Node>, index: nat, prefix: Path, digest: Digest)
    ensures EntriesIn(a + b, index, prefix, digest)
         == EntriesIn(a, index, prefix, digest) + EntriesIn(b, index, prefix, digest)
    decreases |a|
  {
    if a == [] {
      assert a + b == b;
    } else {
      assert (a + b)[1..] == a[1..] + b;
      EntriesConcat(a[1..], b, index, prefix, digest);
    }
  }

  lemma EntriesOfOne(n: Node, index: nat, prefix: Path, digest: Digest)
    ensures EntriesIn([n], index, prefix, digest) == EntriesUnder(n, index, prefix, digest)
  {
    assert [n][1..] == [];
  }

  lemma EntriesReplaced(children: seq<Node>, i: nat, n: Node, index: nat, prefix: Path, digest: Digest)
    requires i < |children|
    ensures multiset(EntriesIn(children[i := n], index, prefix, digest))
               + multiset(EntriesUnder(children[i], index, prefix, digest))
         == multiset(EntriesIn(children, index, prefix, digest)) + multiset(EntriesUnder(n, index, prefix, digest))
  {
    var front, back := children[..i], children[i + 1..];
    assert children == front + ([children[i]] + back);
    assert children[i := n] == front + ([n] + back);
    EntriesConcat(front, [children[i]] + back, index, prefix, digest);
    EntriesConcat(front, [n] + back, index, prefix, digest);
    EntriesConcat([children[i]], back, index, prefix, digest);
    EntriesConcat([n], back, index, prefix, digest);
    EntriesOfOne(n, index, prefix, digest);
    EntriesOfOne(children[i], index, prefix, digest);
  }

  /** A new child, or a changed one, at the top of the path. */
  lemma AddedOnTop(children: seq<Node>, n: Node, index: nat, prefix: Path, digest: Digest)
    ensures multiset(EntriesIn(children + [n], index, prefix, digest))
         == multiset(EntriesIn(children, index, prefix, digest)) + multiset(EntriesUnder(n, index, prefix, digest))
  {
    EntriesConcat(children, [n], index, prefix, digest);
    EntriesOfOne(n, index, prefix, digest);
  }

  lemma ChangedOnTop(children: seq<Node>, i: nat, n: Node, index: nat, prefix: Path, digest: Digest, e: Entry)
    requires i < |children|
    requires multiset(EntriesUnder(n, index, prefix, digest))
          == multiset(EntriesUnder(children[i], index, prefix, digest)) + multiset{e}
    ensures multiset(EntriesIn(children[i := n], index, prefix, digest))
         == multiset(EntriesIn(children, index, prefix, digest)) + multiset{e}
  {
    EntriesReplaced(children, i, n, index, prefix, digest);
    Cancel(multiset(EntriesIn(children[i := n], index, prefix, digest)),
           multiset(EntriesUnder(children[i], index, prefix, digest)),
           multiset(EntriesIn(children, index, prefix, digest)), multiset{e});
  }

  lemma Cancel<T>(a: multiset<T>, b: multiset<T>, c: multiset<T>, d: multiset<T>)
    requires a + b == c + (b + d)
    ensures a == c + d
  {
    forall x: T
      ensures a[x] == (c + d)[x]
    {
      assert (a + b)[x] == (c + (b + d))[x];
    }
  }

  /** A write adds exactly the file's own entry. */
  lemma {:induction false} WriteAddsEntry(children: seq<Node>, segments: Path, content: Bytes,
                                          index: nat, prefix: Path, digest: Digest)
    requires segments != [] && WriteFile(children, segments, content).Some?
    ensures multiset(EntriesIn(WriteFile(children, segments, content).value, index, prefix, digest))
         == multiset(EntriesIn(children, index, prefix, digest))
            + multiset{EntryOf(digest, index, prefix + segments, content)}
    decreases |segments|
  {
    var i := Find(children, segments[0]);
    if |segments| == 1 {
      assert segments == [segments[0]];
      AddedOnTop(children, File(segments[0], content), index, prefix, digest);
    } else {
      var below := if i == |children| then [] else children[i].children;
      var made := WriteFile(below, segments[1..], content).value;
      var e := EntryOf(digest, index, prefix + segments, content);
      assert prefix + segments == prefix + [segments[0]] + segments[1..];
      WriteAddsEntry(below, segments[1..], content, index, prefix + [segments[0]], digest);
      if i == |children| {
        AddedOnTop(children, Dir(segments[0], made), index, prefix, digest);
      } else {
        ChangedOnTop(children, i, Dir(segments[0], made), index, prefix, digest, e);
      }
    }
  }

  /** A readable file at a valid path keeps the tree scannable. */
  lemma {:induction false} WriteKeepsAllowed(children: seq<Node>, segments: Path, content: Bytes, prefix: Path)
    requires segments != [] && AllowedIn(children, prefix)
    requires Readable(content) && RelativePathOk(Join(prefix + segments))
    requires WriteFile(children, segments, content).Some?
    ensures AllowedIn(WriteFile(children, segments, content).value, prefix)
    decreases |segments|
  {
    var i := Find(children, segments[0]);
    if |segments| == 1 {
      assert segments == [segments[0]];
    } else {
      var below := if i == |children| then [] else children[i].children;
      assert prefix + segments == prefix + [segments[0]] + segments[1..];
      if i < |children| {
        assert Allowed(children[i], prefix);
      }
      WriteKeepsAllowed(below, segments[1..], content, prefix + [segments[0]]);
    }
  }

  /** In any listed directory no file lies above or below another. */
  lemma {:induction false} HeldPathsApart(children: seq<Node>, p: Path, c: Bytes, q: Path, d: Bytes)
    requires Listed(children) && Holds(children, p, c) && Holds(children, q, d) && Overlap(p, q)
    ensures p == q && c == d
    decreases |p|
  {
    var m :| m in children && HoldsAt(m, p, c);
    var n :| n in children && HoldsAt(n, q, d);
    OverlapTail(p, q);
    assert m == n;
    if m.File? {
      assert p == [m.name] && q == [n.name];
    } else {
      assert ListedNode(m);
      HeldPathsApart(m.children, p[1..], c, q[1..], d);
      assert p == [p[0]] + p[1..] && q == [q[0]] + q[1..];
    }
  }
}
