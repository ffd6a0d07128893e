/** What an inventory entry means, without the scan: following its path from the root
    arrives at a regular file of that size and digest. */
module InventoryLookup {
  import opened Paths
  import opened StableSort
  import opened InputScan
  import opened InventoryScan
  import opened Texts

  ghost predicate Holds(children: seq<Node>, segments: Path, content: Bytes)
    decreases |segments|
  {
    segments != [] && exists n :: n in children && HoldsAt(n, segments, content)
  }

  ghost predicate HoldsAt(n: Node, segments: Path, content: Bytes)
    requires segments != []
    decreases |segments|, 0
  {
    && n.name == segments[0]
    && (if |segments| == 1 then n == File(segments[0], content)
        else n.Dir? && Holds(n.children, segments[1..], content))
  }

  lemma {:induction false} EntryIsHeld(children: seq<Node>, index: nat, prefix: Path, digest: Digest, e: Entry)
    returns (segments: Path, content: Bytes)
    requires e in EntriesIn(children, index, prefix, digest)
    ensures Holds(children, segments, content) && e == EntryOf(digest, index, prefix + segments, content)
    decreases children, 0
  {
    if e in EntriesUnder(children[0], index, prefix, digest) {
      segments, content := NodeIsHeld(children[0], index, prefix, digest, e);
    } else {
      segments, content := EntryIsHeld(children[1..], index, prefix, digest, e);
    }
  }

  lemma {:induction false} NodeIsHeld(n: Node, index: nat, prefix: Path, digest: Digest, e: Entry)
    returns (segments: Path, content: Bytes)
    requires e in EntriesUnder(n, index, prefix, digest)
    ensures segments != [] && HoldsAt(n, segments, content)
    ensures e == EntryOf(digest, index, prefix + segments, content)
    decreases n, 1
  {
    match n
    case File(name, bytes) =>
      segments, content := [name], bytes;
    case Dir(name, children) =>
      var inner;
      inner, content := EntryIsHeld(children, index, prefix + [name], digest, e);
      segments := [name] + inner;
      assert prefix + [name] + inner == prefix + segments;
      assert segments[1..] == inner;
  }

  lemma {:induction false} HeldIsEntry(children: seq<Node>, index: nat, prefix: Path, digest: Digest,
                                       segments: Path, content: Bytes)
    requires Holds(children, segments, content)
    ensures EntryOf(digest, index, prefix + segments, content) in EntriesIn(children, index, prefix, digest)
    decreases |segments|
  {
    var n :| n in children && HoldsAt(n, segments, content);
    var e := EntryOf(digest, index, prefix + segments, content);
    assert prefix + segments == prefix + [segments[0]] + segments[1..];
    if |segments| == 1 {
      assert segments == [segments[0]];
    } else {
      HeldIsEntry(n.children, index, prefix + [segments[0]], digest, segments[1..], content);
    }
    assert e in EntriesUnder(n, index, prefix, digest);
    InChild(children, index, prefix, digest, n, e);
  }

  lemma {:induction false} InChild(children: seq<Node>, index: nat, prefix: Path, digest: Digest, n: Node, e: Entry)
    requires n in children && e in EntriesUnder(n, index, prefix, digest)
    ensures e in EntriesIn(children, index, prefix, digest)
    decreases |children|
  {
    if n != children[0] {
      InChild(children[1..], index, prefix, digest, n, e);
    }
  }

  lemma {:induction false} InRoot(roots: seq<Node>, first: nat, digest: Digest, e: Entry)
    requires forall i :: 0 <= i < |roots| ==> roots[i].Dir?
    ensures e in RootEntries(roots, first, digest) <==>
            first <= e.index < first + |roots|
            && e in EntriesIn(roots[e.index - first].children, e.index, [], digest)
    decreases |roots|
  {
    if roots != [] {
      InRoot(roots[1..], first + 1, digest, e);
      if e in EntriesIn(roots[0].children, first, [], digest) {
        var segments, content := EntryIsHeld(roots[0].children, first, [], digest, e);
      }
    }
  }

  /** What following a path from its root says of an entry. */
  ghost predicate Found(roots: seq<Node>, digest: Digest, e: Entry) {
    0 < e.index <= |roots| && roots[e.index - 1].Dir? && exists segments, content ::
      Holds(roots[e.index - 1].children, segments, content)
      && e == EntryOf(digest, e.index, segments, content)
  }

  lemma FoundIffListed(roots: seq<Node>, digest: Digest, e: Entry)
    requires 0 < e.index <= |roots| && roots[e.index - 1].Dir?
    ensures Found(roots, digest, e) <==> e in EntriesIn(roots[e.index - 1].children, e.index, [], digest)
  {
    var children := roots[e.index - 1].children;
    if e in EntriesIn(children, e.index, [], digest) {
      var segments, content := EntryIsHeld(children, e.index, [], digest, e);
      assert [] + segments == segments;
    }
    if Found(roots, digest, e) {
      var segments, content :| Holds(children, segments, content) && e == EntryOf(digest, e.index, segments, content);
      HeldIsEntry(children, e.index, [], digest, segments, content);
      assert [] + segments == segments;
    }
  }

  /** An inventory lists, for each root, exactly the regular files found by following a
      path from that root; with `InventoryStrictlyOrdered`, each exactly once. */
  lemma InventoryListsFiles(inputs: Inputs, digest: Digest, e: Entry)
    requires ListedInputs(inputs) && inputs.spec.File? && RootsAllowed(inputs.roots) && e.index != 0
    ensures e in InventoryOf(inputs, digest).entries <==> Found(inputs.roots, digest, e)
  {
    var all := AllEntries(inputs, digest);
    SortPermutes(all, EntryLe);
    SameMembers(InventoryOf(inputs, digest).entries, all);
    InRoot(inputs.roots, 1, digest, e);
    assert e in all <==> e in RootEntries(inputs.roots, 1, digest);
    if e.index <= |inputs.roots| {
      FoundIffListed(inputs.roots, digest, e);
    }
  }

  // ---------------------------------------------------------------- which inputs can be scanned

  /** Following the names from a directory's children arrives at this object. */
  ghost predicate Arrives(children: seq<Node>, segments: Path, n: Node)
    decreases |segments|
  {
    segments != [] && exists m :: m in children && ArrivesAt(m, segments, n)
  }

  ghost predicate ArrivesAt(m: Node, segments: Path, n: Node)
    requires segments != []
    decreases |segments|, 0
  {
    && m.name == segments[0]
    && (if |segments| == 1 then m == n else m.Dir? && Arrives(m.children, segments[1..], n))
  }

  predicate Alphanumeric(c: char) {
    'A' <= c <= 'Z' || 'a' <= c <= 'z' || '0' <= c <= '9'
  }

  /** A name of at most 128 letters, digits, dots, underscores and hyphens that begins with
      a letter or digit: so neither hidden nor climbing. */
  predicate PlainName(s: string) {
    && 0 < |s| <= 128 && Alphanumeric(s[0])
    && forall i :: 0 <= i < |s| ==> Alphanumeric(s[i]) || s[i] in "._-"
  }

  /** What may be met at the end of a path: a directory, or a file neither empty nor larger
      than 256 MiB whose path has at most 512 characters and plain names only. */
  ghost predicate Acceptable(n: Node, path: Path) {
    || n.Dir?
    || (&& n.File? && 0 < |n.content| <= 268_435_456 && |Join(path)| <= 512
        && forall i :: 0 <= i < |path| ==> PlainName(path[i]))
  }

  lemma FileAcceptable(name: string, content: Bytes, prefix: Path)
    requires CleanPath(prefix + [name])
    ensures Acceptable(File(name, content), prefix + [name]) <==> Allowed(File(name, content), prefix)
  {
    var path := prefix + [name];
    SplitJoin(path);
    forall s: string
      ensures PlainName(s) <==> SegmentOk(s)
    {
    }
    if Acceptable(File(name, content), path) {
      assert PlainName(path[0]);
      JoinedLonger(path);
    }
  }

  lemma JoinedLonger(path: Path)
    requires path != [] && path[0] != ""
    ensures Join(path) != ""
  {
  }

  lemma {:induction false} AllowedMeans(children: seq<Node>, prefix: Path, p: Path, n: Node)
    requires Listed(children) && CleanPath(prefix) && AllowedIn(children, prefix) && Arrives(children, p, n)
    ensures Acceptable(n, prefix + p)
    decreases |p|
  {
    var m :| m in children && ArrivesAt(m, p, n);
    assert ListedNode(m) && Allowed(m, prefix);
    if |p| == 1 {
      assert p == [m.name];
      if m.File? { FileAcceptable(m.name, m.content, prefix); }
    } else {
      AllowedMeans(m.children, prefix + [m.name], p[1..], n);
      assert prefix + [m.name] + p[1..] == prefix + p;
    }
  }

  ghost predicate AllAcceptable(children: seq<Node>, prefix: Path) {
    forall p, n :: Arrives(children, p, n) ==> Acceptable(n, prefix + p)
  }

  lemma ArrivesThrough(children: seq<Node>, m: Node, p: Path, n: Node)
    requires m in children && m.Dir? && Arrives(m.children, p, n)
    ensures Arrives(children, [m.name] + p, n)
  {
    assert ([m.name] + p)[1..] == p;
    assert ArrivesAt(m, [m.name] + p, n);
  }

  lemma {:induction false} AcceptableIsAllowed(children: seq<Node>, prefix: Path)
    requires Listed(children) && CleanPath(prefix) && AllAcceptable(children, prefix)
    ensures AllowedIn(children, prefix)
    decreases children
  {
    forall i | 0 <= i < |children|
      ensures Allowed(children[i], prefix)
    {
      var m := children[i];
      assert ListedNode(m) && ArrivesAt(m, [m.name], m);
      assert Arrives(children, [m.name], m);
      assert Acceptable(m, prefix + [m.name]);
      if m.File? {
        FileAcceptable(m.name, m.content, prefix);
      } else {
        forall p, n | Arrives(m.children, p, n)
          ensures Acceptable(n, prefix + [m.name] + p)
        {
          ArrivesThrough(children, m, p, n);
          assert prefix + [m.name] + p == prefix + ([m.name] + p);
        }
        AcceptableIsAllowed(m.children, prefix + [m.name]);
      }
    }
  }

  /** A directory may be scanned exactly when every object in or below it is acceptable. */
  lemma AllowedIff(children: seq<Node>)
    requires Listed(children)
    ensures AllowedIn(children, []) <==> forall p, n :: Arrives(children, p, n) ==> Acceptable(n, p)
  {
    forall p: Path
      ensures [] + p == p
    {
    }
    if AllowedIn(children, []) {
      forall p, n | Arrives(children, p, n)
        ensures Acceptable(n, p)
      {
        AllowedMeans(children, [], p, n);
      }
    }
    if forall p, n :: Arrives(children, p, n) ==> Acceptable(n, p) {
      forall p, n | Arrives(children, p, n)
        ensures Acceptable(n, [] + p)
      {
      }
      AcceptableIsAllowed(children, []);
    }
  }

  /** The same character, or one letter in both its cases. */
  predicate CaseTwins(c: char, d: char) {
    c == d || ('A' <= c <= 'Z' && d as int == c as int + 32) || ('A' <= d <= 'Z' && c as int == d as int + 32)
  }

  predicate SameButCase(a: string, b: string) {
    |a| == |b| && forall k :: 0 <= k < |a| ==> CaseTwins(a[k], b[k])
  }

  lemma FoldsAlike(e: Entry, f: Entry)
    ensures FoldKey(e) == FoldKey(f) <==> e.index == f.index && SameButCase(e.path, f.path)
  {
    var a, b := FoldKey(e).1, FoldKey(f).1;
    if FoldKey(e) == FoldKey(f) {
      assert |e.path| == |a| == |b| == |f.path|;
      forall k | 0 <= k < |e.path|
        ensures CaseTwins(e.path[k], f.path[k])
      {
        assert a[k] == LowerChar(e.path[k]) && b[k] == LowerChar(f.path[k]);
      }
    }
    if e.index == f.index && SameButCase(e.path, f.path) {
      forall k | 0 <= k < |e.path|
        ensures a[k] == b[k]
      {
        assert CaseTwins(e.path[k], f.path[k]);
      }
      assert a == b;
    }
  }

  /** The listed files keep both ceilings, and no two of one input differ only in case. */
  ghost predicate ListingFits(entries: seq<Entry>) {
    && |entries| <= 100_000 && TotalSize(entries) <= 2_147_483_648
    && forall i, j :: 0 <= i < j < |entries| && entries[i].index == entries[j].index ==>
         !SameButCase(entries[i].path, entries[j].path)
  }

  lemma ListingFitsIff(entries: seq<Entry>, all: seq<Entry>)
    requires multiset(entries) == multiset(all) && KeysUnique(entries)
    ensures ListingFits(entries) <==>
              |all| <= MAXIMUM_INCLUDED_FILES && TotalSize(all) <= MAXIMUM_TOTAL_BYTES && NoCaseClash(all)
  {
    TotalSizePermuted(entries, all);
    assert |multiset(entries)| == |multiset(all)|;
    SameMembers(entries, all);
    forall i, j | 0 <= i < j < |entries|
      ensures FoldKey(entries[i]) == FoldKey(entries[j]) <==>
                entries[i].index == entries[j].index && SameButCase(entries[i].path, entries[j].path)
      ensures entries[i] in all && entries[j] in all && entries[i] != entries[j]
    {
      FoldsAlike(entries[i], entries[j]);
      assert entries[i] in entries && entries[j] in entries;
    }
    if NoCaseClash(all) {
    } else {
      var e, f :| e in all && f in all && FoldKey(e) == FoldKey(f) && e != f;
      assert e in entries && f in entries;
      var i :| 0 <= i < |entries| && entries[i] == e;
      var j :| 0 <= j < |entries| && entries[j] == f;
      FoldsAlike(e, f);
      FoldsAlike(f, e);
    }
  }

  /** Exactly which inputs are scanned to an inventory: the spec file can be read, all
      eleven roots are directories in which every object met is acceptable, and the files
      listed keep the ceilings and differ in more than case. */
  lemma ScannableIff(inputs: Inputs, digest: Digest)
    requires ListedInputs(inputs)
    ensures Scannable(inputs, digest) <==>
      && inputs.spec.File? && 0 < |inputs.spec.content| <= 268_435_456
      && (forall i :: 0 <= i < |inputs.roots| ==>
            && inputs.roots[i].Dir?
            && forall p, n :: Arrives(inputs.roots[i].children, p, n) ==> Acceptable(n, p))
      && ListingFits(InventoryOf(inputs, digest).entries)
  {
    var entries := InventoryOf(inputs, digest).entries;
    InventoryStrictlyOrdered(inputs, digest);
    assert KeysUnique(entries) by {
      forall i, j | 0 <= i < j < |entries|
        ensures (entries[i].index, entries[i].path) != (entries[j].index, entries[j].path)
      {
        assert EntryLess(entries[i], entries[j]);
      }
    }
    ListingFitsIff(entries, AllEntries(inputs, digest));
    forall i | 0 <= i < |inputs.roots| && inputs.roots[i].Dir?
      ensures AllowedIn(inputs.roots[i].children, []) <==>
                forall p, n :: Arrives(inputs.roots[i].children, p, n) ==> Acceptable(n, p)
    {
      AllowedIff(inputs.roots[i].children);
    }
  }

  /** The spec file is listed once, under the empty path, and nothing else of input 0. */
  lemma InventoryListsSpec(inputs: Inputs, digest: Digest, e: Entry)
    requires ListedInputs(inputs) && inputs.spec.File? && RootsAllowed(inputs.roots) && e.index == 0
    ensures e in InventoryOf(inputs, digest).entries <==>
              e == Entry(0, "", |inputs.spec.content|, digest(inputs.spec.content))
  {
    var all := AllEntries(inputs, digest);
    SortPermutes(all, EntryLe);
    SameMembers(InventoryOf(inputs, digest).entries, all);
    InRoot(inputs.roots, 1, digest, e);
  }
}
