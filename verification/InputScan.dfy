/** The local input scan: an explicit-stack walk over eleven directory trees and one
    mandatory file, collected into one canonical inventory.  Directory listings are
    given in whatever order they come; the digest is a parameter. */
module InputScan {
  import opened Wrappers
  import opened Paths
  import opened StableSort
  import opened StringOrder
  import opened Texts

  type Bytes = seq<bv8>
  type Digest = Bytes -> string

  const ROOT_COUNT: nat := 11
  const MAXIMUM_INCLUDED_FILES: nat := 100_000
  const MAXIMUM_FILE_BYTES: nat := 256 * 1024 * 1024
  const MAXIMUM_TOTAL_BYTES: nat := 2 * 1024 * 1024 * 1024
  const MAXIMUM_SEGMENT_LENGTH: nat := 128
  const MAXIMUM_RELATIVE_PATH_LENGTH: nat := 512

  datatype Node =
    | File(name: string, content: Bytes)
    | Dir(name: string, children: seq<Node>)
    | Unsupported(name: string)

  /** The assembly-spec file and the eleven read-only roots. */
  datatype Inputs = Inputs(spec: Node, roots: seq<Node>)

  /** `index` is the input's position in the fixed input order; 0 is the spec file. */
  datatype Entry = Entry(index: nat, path: string, size: nat, hash: string)

  datatype Inventory = Inventory(entries: seq<Entry>, count: nat, total: nat)

  predicate SegmentChar(c: char) {
    'A' <= c <= 'Z' || 'a' <= c <= 'z' || '0' <= c <= '9' || c == '.' || c == '_' || c == '-'
  }

  predicate SegmentOk(s: string) {
    && 0 < |s| <= MAXIMUM_SEGMENT_LENGTH
    && s[0] != '.' && s[0] != '_' && s[0] != '-'
    && forall i :: 0 <= i < |s| ==> SegmentChar(s[i])
  }

  predicate RelativePathOk(path: string) {
    && 0 < |path| <= MAXIMUM_RELATIVE_PATH_LENGTH
    && forall i :: 0 <= i < |Split(path)| ==> SegmentOk(Split(path)[i])
  }

  /** What the stable reader accepts: neither empty nor oversized. */
  predicate Readable(content: Bytes) {
    0 < |content| <= MAXIMUM_FILE_BYTES
  }

  function EntryOf(digest: Digest, index: nat, segments: Path, content: Bytes): Entry {
    Entry(index, Join(segments), |content|, digest(content))
  }

  /** What a file system guarantees of a directory: sibling names differ, none is empty
      and none contains a slash. */
  ghost predicate Listed(children: seq<Node>)
    decreases children, 0
  {
    && (forall i :: 0 <= i < |children| ==> ListedNode(children[i]))
    && (forall i, j :: 0 <= i < j < |children| ==> children[i].name != children[j].name)
  }

  ghost predicate ListedNode(n: Node)
    decreases n, 1
  {
    n.name != "" && NoSlash(n.name) && (n.Dir? ==> Listed(n.children))
  }

  ghost predicate ListedInputs(inputs: Inputs) {
    && |inputs.roots| == ROOT_COUNT
    && forall i :: 0 <= i < ROOT_COUNT && inputs.roots[i].Dir? ==> Listed(inputs.roots[i].children)
  }

  /** The entries of a directory by plain recursion. */
  ghost function EntriesIn(children: seq<Node>, index: nat, prefix: Path, digest: Digest): seq<Entry>
    decreases children, 0
  {
    if children == [] then []
    else EntriesUnder(children[0], index, prefix, digest) + EntriesIn(children[1..], index, prefix, digest)
  }

  ghost function EntriesUnder(n: Node, index: nat, prefix: Path, digest: Digest): seq<Entry>
    decreases n, 1
  {
    match n
    case File(name, content) => [EntryOf(digest, index, prefix + [name], content)]
    case Dir(name, children) => EntriesIn(children, index, prefix + [name], digest)
    case Unsupported(_) => []
  }

  /** Every object below a directory is a readable regular file at a valid path, or a
      directory. */
  ghost predicate AllowedIn(children: seq<Node>, prefix: Path)
    decreases children, 0
  {
    forall i :: 0 <= i < |children| ==> Allowed(children[i], prefix)
  }

  ghost predicate Allowed(n: Node, prefix: Path)
    decreases n, 1
  {
    match n
    case File(name, content) => Readable(content) && RelativePathOk(Join(prefix + [name]))
    case Dir(name, children) => AllowedIn(children, prefix + [name])
    case Unsupported(_) => false
  }

  ghost function RootEntries(roots: seq<Node>, first: nat, digest: Digest): seq<Entry>
    decreases |roots|
  {
    if roots == [] then []
    else
      (if roots[0].Dir? then EntriesIn(roots[0].children, first, [], digest) else [])
      + RootEntries(roots[1..], first + 1, digest)
  }

  /** All entries of the inputs, by plain recursion. */
  ghost function AllEntries(inputs: Inputs, digest: Digest): seq<Entry> {
    (if inputs.spec.File? then [Entry(0, "", |inputs.spec.content|, digest(inputs.spec.content))] else [])
    + RootEntries(inputs.roots, 1, digest)
  }

  function TotalSize(entries: seq<Entry>): nat {
    if entries == [] then 0 else entries[0].size + TotalSize(entries[1..])
  }

  /** The order `collected.sort` uses: input index, then relative path. */
  predicate EntryLe(e: Entry, f: Entry) {
    e.index < f.index || (e.index == f.index && StrLe(e.path, f.path))
  }

  predicate EntryLess(e: Entry, f: Entry) {
    EntryLe(e, f) && (e.index, e.path) != (f.index, f.path)
  }

  function FoldKey(e: Entry): (nat, string) {
    (e.index, seq(|e.path|, i requires 0 <= i < |e.path| => LowerChar(e.path[i])))
  }

  /** No two different files of one input have paths equal up to case. */
  ghost predicate NoCaseClash(entries: seq<Entry>) {
    forall e, f :: e in entries && f in entries && FoldKey(e) == FoldKey(f) ==> e == f
  }

  /** Exactly when a scan succeeds. */
  ghost predicate Scannable(inputs: Inputs, digest: Digest) {
    && inputs.spec.File? && Readable(inputs.spec.content)
    && (forall i :: 0 <= i < |inputs.roots| ==>
          inputs.roots[i].Dir? && AllowedIn(inputs.roots[i].children, []))
    && |AllEntries(inputs, digest)| <= MAXIMUM_INCLUDED_FILES
    && TotalSize(AllEntries(inputs, digest)) <= MAXIMUM_TOTAL_BYTES
    && NoCaseClash(AllEntries(inputs, digest))
  }

  /** The inventory a successful scan returns. */
  ghost function InventoryOf(inputs: Inputs, digest: Digest): Inventory {
    var all := AllEntries(inputs, digest);
    Inventory(Sort(all, EntryLe), |all|, TotalSize(all))
  }

  // ---------------------------------------------------------------- keys are unique

  /** Every entry below a directory has the directory's index and a path through one of
      the children. */
  ghost predicate Through(e: Entry, index: nat, prefix: Path, segments: Path) {
    && e.index == index
    && |segments| > |prefix| && segments[..|prefix|] == prefix
    && (forall i :: 0 <= i < |segments| ==> NoSlash(segments[i]))
    && e.path == Join(segments)
  }

  ghost predicate CleanPath(prefix: Path) {
    forall i :: 0 <= i < |prefix| ==> NoSlash(prefix[i])
  }

  lemma {:induction false} EntryPath(children: seq<Node>, index: nat, prefix: Path, digest: Digest, e: Entry)
    returns (segments: Path, i: nat)
    requires Listed(children) && CleanPath(prefix) && e in EntriesIn(children, index, prefix, digest)
    ensures i < |children| && e in EntriesUnder(children[i], index, prefix, digest)
    ensures Through(e, index, prefix, segments) && segments[|prefix|] == children[i].name
    decreases children, 0
  {
    if e in EntriesUnder(children[0], index, prefix, digest) {
      i := 0;
      segments := NodePath(children[0], index, prefix, digest, e);
    } else {
      assert forall k :: 0 <= k < |children[1..]| ==> children[1..][k] == children[k + 1];
      segments, i := EntryPath(children[1..], index, prefix, digest, e);
      i := i + 1;
    }
  }

  lemma {:induction false} NodePath(n: Node, index: nat, prefix: Path, digest: Digest, e: Entry)
    returns (segments: Path)
    requires ListedNode(n) && CleanPath(prefix) && e in EntriesUnder(n, index, prefix, digest)
    ensures Through(e, index, prefix, segments) && segments[|prefix|] == n.name
    decreases n, 1
  {
    match n
    case File(name, content) =>
      segments := prefix + [name];
    case Dir(name, children) =>
      var i;
      segments, i := EntryPath(children, index, prefix + [name], digest, e);
      assert segments[..|prefix|] == segments[..|prefix| + 1][..|prefix|] == prefix;
      assert segments[|prefix|] == segments[..|prefix| + 1][|prefix|];
  }

  /** No two positions hold the same input and path. */
  ghost predicate KeysUnique(entries: seq<Entry>) {
    forall i, j :: 0 <= i < j < |entries| ==>
      (entries[i].index, entries[i].path) != (entries[j].index, entries[j].path)
  }

  ghost predicate KeysDisjoint(a: seq<Entry>, b: seq<Entry>) {
    forall e, f :: e in a && f in b ==> (e.index, e.path) != (f.index, f.path)
  }

  lemma KeysUniqueConcat(a: seq<Entry>, b: seq<Entry>)
    requires KeysUnique(a) && KeysUnique(b) && KeysDisjoint(a, b)
    ensures KeysUnique(a + b)
  {
    forall i, j | 0 <= i < j < |a + b|
      ensures ((a + b)[i].index, (a + b)[i].path) != ((a + b)[j].index, (a + b)[j].path)
    {
      if i < |a| && j >= |a| {
        assert (a + b)[i] in a && (a + b)[j] in b;
      }
    }
  }

  lemma {:induction false} SiblingsDisjoint(children: seq<Node>, index: nat, prefix: Path, digest: Digest)
    requires Listed(children) && CleanPath(prefix) && children != []
    ensures KeysDisjoint(EntriesUnder(children[0], index, prefix, digest),
                         EntriesIn(children[1..], index, prefix, digest))
  {
    var rest := children[1..];
    assert forall k :: 0 <= k < |rest| ==> rest[k] == children[k + 1];
    forall e, f | e in EntriesUnder(children[0], index, prefix, digest) && f in EntriesIn(rest, index, prefix, digest)
      ensures (e.index, e.path) != (f.index, f.path)
    {
      var p := NodePath(children[0], index, prefix, digest, e);
      var q, i := EntryPath(rest, index, prefix, digest, f);
      JoinInjective(p, q);
      assert p[|prefix|] != q[|prefix|];
    }
  }

  lemma {:induction false} EntriesUnique(children: seq<Node>, index: nat, prefix: Path, digest: Digest)
    requires Listed(children) && CleanPath(prefix)
    ensures KeysUnique(EntriesIn(children, index, prefix, digest))
    decreases children, 0
  {
    if children != [] {
      assert forall k :: 0 <= k < |children[1..]| ==> children[1..][k] == children[k + 1];
      NodeEntriesUnique(children[0], index, prefix, digest);
      EntriesUnique(children[1..], index, prefix, digest);
      SiblingsDisjoint(children, index, prefix, digest);
      KeysUniqueConcat(EntriesUnder(children[0], index, prefix, digest),
                       EntriesIn(children[1..], index, prefix, digest));
    }
  }

  lemma {:induction false} NodeEntriesUnique(n: Node, index: nat, prefix: Path, digest: Digest)
    requires ListedNode(n) && CleanPath(prefix)
    ensures KeysUnique(EntriesUnder(n, index, prefix, digest))
    decreases n, 1
  {
    if n.Dir? {
      EntriesUnique(n.children, index, prefix + [n.name], digest);
    }
  }

  lemma {:induction false} RootEntriesUnique(roots: seq<Node>, first: nat, digest: Digest)
    requires forall i :: 0 <= i < |roots| && roots[i].Dir? ==> Listed(roots[i].children)
    ensures KeysUnique(RootEntries(roots, first, digest))
    ensures forall e :: e in RootEntries(roots, first, digest) ==> e.index >= first
    decreases |roots|
  {
    if roots != [] {
      assert forall k :: 0 <= k < |roots[1..]| ==> roots[1..][k] == roots[k + 1];
      RootEntriesUnique(roots[1..], first + 1, digest);
      var head := if roots[0].Dir? then EntriesIn(roots[0].children, first, [], digest) else [];
      if roots[0].Dir? {
        EntriesUnique(roots[0].children, first, [], digest);
      }
      forall e | e in head
        ensures e.index == first
      {
        var p, i := EntryPath(roots[0].children, first, [], digest, e);
      }
      KeysUniqueConcat(head, RootEntries(roots[1..], first + 1, digest));
    }
  }

  lemma AllEntriesUnique(inputs: Inputs, digest: Digest)
    requires ListedInputs(inputs)
    ensures KeysUnique(AllEntries(inputs, digest))
  {
    RootEntriesUnique(inputs.roots, 1, digest);
    var head := if inputs.spec.File?
                then [Entry(0, "", |inputs.spec.content|, digest(inputs.spec.content))] else [];
    KeysUniqueConcat(head, RootEntries(inputs.roots, 1, digest));
  }

  // ---------------------------------------------------------------- the sorted inventory

  lemma EntryLeIsPreorder()
    ensures Preorder(EntryLe)
  {
    StrLeIsTotalOrder();
  }

  lemma UniqueKeysSeparate(entries: seq<Entry>)
    requires KeysUnique(entries)
    ensures Separates(multiset(entries), EntryLe)
  {
    forall e, f | e in multiset(entries) && f in multiset(entries) && EntryLe(e, f) && EntryLe(f, e)
      ensures e == f
    {
      StrAntisymmetric(e.path, f.path);
      var i :| 0 <= i < |entries| && entries[i] == e;
      var j :| 0 <= j < |entries| && entries[j] == f;
    }
  }

  lemma PermutedKeysUnique(a: seq<Entry>, b: seq<Entry>)
    requires KeysUnique(a) && multiset(a) == multiset(b)
    ensures KeysUnique(b)
  {
    NoRepeatsPermuted(a, b);
    forall i, j | 0 <= i < j < |b|
      ensures (b[i].index, b[i].path) != (b[j].index, b[j].path)
    {
      assert b[i] in multiset(a) && b[j] in multiset(a);
      var k :| 0 <= k < |a| && a[k] == b[i];
      var l :| 0 <= l < |a| && a[l] == b[j];
      assert k != l;
    }
  }

  /** The inventory lists each file once, strictly ordered by input and path. */
  lemma InventoryStrictlyOrdered(inputs: Inputs, digest: Digest)
    requires ListedInputs(inputs)
    ensures var entries := InventoryOf(inputs, digest).entries;
            && multiset(entries) == multiset(AllEntries(inputs, digest))
            && forall i, j :: 0 <= i < j < |entries| ==> EntryLess(entries[i], entries[j])
  {
    var all := AllEntries(inputs, digest);
    AllEntriesUnique(inputs, digest);
    SortPermutes(all, EntryLe);
    EntryLeIsPreorder();
    SortSorted(all, EntryLe);
    PermutedKeysUnique(all, Sort(all, EntryLe));
  }

  /** The inventory depends on which files there are and on nothing else: not on how
      directories list them, nor on the order in which the scan meets them. */
  lemma InventoryDeterminedByFiles(inputs: Inputs, others: Inputs, digest: Digest)
    requires ListedInputs(inputs)
    requires multiset(AllEntries(inputs, digest)) == multiset(AllEntries(others, digest))
    ensures InventoryOf(inputs, digest) == InventoryOf(others, digest)
  {
    AllEntriesUnique(inputs, digest);
    EntryLeIsPreorder();
    UniqueKeysSeparate(AllEntries(inputs, digest));
    SortCanonical(AllEntries(inputs, digest), AllEntries(others, digest), EntryLe);
    TotalSizePermuted(AllEntries(inputs, digest), AllEntries(others, digest));
    assert |multiset(AllEntries(inputs, digest))| == |multiset(AllEntries(others, digest))|;
  }

  lemma {:induction false} TotalSizeConcat(a: seq<Entry>, b: seq<Entry>)
    ensures TotalSize(a + b) == TotalSize(a) + TotalSize(b)
    decreases |a|
  {
    if a == [] {
      assert a + b == b;
    } else {
      TotalSizeConcat(a[1..], b);
      assert (a + b)[1..] == a[1..] + b;
    }
  }

  lemma TotalSizeMiddle(front: seq<Entry>, e: Entry, back: seq<Entry>)
    ensures TotalSize(front + ([e] + back)) == e.size + TotalSize(front + back)
  {
    TotalSizeConcat(front, [e] + back);
    TotalSizeConcat(front, back);
    assert ([e] + back)[1..] == back;
  }

  lemma WithoutOneTotal(s: seq<Entry>, j: nat)
    requires j < |s|
    ensures TotalSize(s) == s[j].size + TotalSize(Without(s, j))
  {
    var front, back := PartsAround(s, j);
    TotalSizeMiddle(front, s[j], back);
  }

  /** The total depends only on which entries there are. */
  lemma {:induction false} TotalSizePermuted(a: seq<Entry>, b: seq<Entry>)
    requires multiset(a) == multiset(b)
    ensures TotalSize(a) == TotalSize(b)
    decreases |a|
  {
    if a == [] {
      assert |multiset(b)| == 0;
    } else {
      assert a[0] in multiset(b);
      var j :| 0 <= j < |b| && b[j] == a[0];
      assert multiset(Without(a, 0)) == multiset(a) - multiset{a[0]};
      assert multiset(Without(b, j)) == multiset(b) - multiset{a[0]};
      WithoutOneTotal(a, 0);
      WithoutOneTotal(b, j);
      TotalSizePermuted(Without(a, 0), Without(b, j));
    }
  }
}
