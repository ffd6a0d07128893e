/** Stable insertion sort by an order on elements, standing for the library's
    `sort`, and the two facts every canonical form rests on: sorting forgets
    nothing but order, and where the order separates elements it forgets all of it. */
module StableSort {

  ghost predicate Preorder<T(!new)>(le: (T, T) -> bool) {
    && (forall a, b :: le(a, b) || le(b, a))
    && (forall a, b, c :: le(a, b) && le(b, c) ==> le(a, c))
  }

  /** A total order: comparing equal both ways means being equal. */
  ghost predicate TotalOrder<T(!new)>(le: (T, T) -> bool) {
    Preorder(le) && forall a, b :: le(a, b) && le(b, a) ==> a == b
  }

  ghost predicate Sorted<T>(s: seq<T>, le: (T, T) -> bool) {
    forall i, j :: 0 <= i < j < |s| ==> le(s[i], s[j])
  }

  /** The order tells apart any two different elements of `s`. */
  ghost predicate Separates<T>(s: multiset<T>, le: (T, T) -> bool) {
    forall a, b :: a in s && b in s && le(a, b) && le(b, a) ==> a == b
  }

  function Insert<T>(x: T, s: seq<T>, le: (T, T) -> bool): seq<T> {
    if s == [] then [x]
    else if le(x, s[0]) then [x] + s
    else [s[0]] + Insert(x, s[1..], le)
  }

  function Sort<T>(s: seq<T>, le: (T, T) -> bool): seq<T> {
    if s == [] then [] else Insert(s[0], Sort(s[1..], le), le)
  }

  lemma {:induction false} InsertPermutes<T>(x: T, s: seq<T>, le: (T, T) -> bool)
    ensures multiset(Insert(x, s, le)) == multiset{x} + multiset(s)
  {
    if s == [] {
    } else {
      assert s == [s[0]] + s[1..];
      if !le(x, s[0]) {
        InsertPermutes(x, s[1..], le);
      }
    }
  }

  lemma {:induction false} SortPermutes<T>(s: seq<T>, le: (T, T) -> bool)
    ensures multiset(Sort(s, le)) == multiset(s)
    ensures |Sort(s, le)| == |s|
  {
    if s == [] {
    } else {
      SortPermutes(s[1..], le);
      InsertPermutes(s[0], Sort(s[1..], le), le);
      assert s == [s[0]] + s[1..];
      assert |multiset(Sort(s, le))| == |multiset(s)|;
    }
  }

  lemma {:induction false} InsertSorted<T(!new)>(x: T, s: seq<T>, le: (T, T) -> bool)
    requires Preorder(le) && Sorted(s, le)
    ensures Sorted(Insert(x, s, le), le)
  {
    if s != [] && !le(x, s[0]) {
      InsertSorted(x, s[1..], le);
      var rest := Insert(x, s[1..], le);
      InsertPermutes(x, s[1..], le);
      forall j | 0 <= j < |rest|
        ensures le(s[0], rest[j])
      {
        assert rest[j] in multiset(rest);
        if rest[j] != x {
          assert rest[j] in s[1..];
        }
      }
    }
  }

  lemma {:induction false} SortSorted<T(!new)>(s: seq<T>, le: (T, T) -> bool)
    requires Preorder(le)
    ensures Sorted(Sort(s, le), le)
  {
    if s != [] {
      SortSorted(s[1..], le);
      InsertSorted(s[0], Sort(s[1..], le), le);
    }
  }

  lemma HeadIsLeast<T(!new)>(s: seq<T>, le: (T, T) -> bool, x: T)
    requires Preorder(le) && Sorted(s, le) && x in multiset(s)
    ensures s != [] && le(s[0], x)
  {
    var i :| 0 <= i < |s| && s[i] == x;
  }

  lemma SameHead<T(!new)>(a: seq<T>, b: seq<T>, le: (T, T) -> bool)
    requires Preorder(le) && Sorted(a, le) && Sorted(b, le)
    requires multiset(a) == multiset(b) && Separates(multiset(a), le) && a != []
    ensures b != [] && a[0] == b[0]
  {
    assert a[0] in multiset(a);
    HeadIsLeast(b, le, a[0]);
    assert b[0] in multiset(b);
    HeadIsLeast(a, le, b[0]);
  }

  lemma SameTails<T>(a: seq<T>, b: seq<T>)
    requires a != [] && b != [] && a[0] == b[0] && multiset(a) == multiset(b)
    ensures multiset(a[1..]) == multiset(b[1..]) == multiset(a) - multiset{a[0]}
  {
    TailMultiset(a);
    TailMultiset(b);
  }

  lemma HeadAndTail<T>(a: seq<T>, b: seq<T>)
    requires a != [] && b != [] && a[0] == b[0] && a[1..] == b[1..]
    ensures a == b
  {
    assert a == [a[0]] + a[1..] && b == [b[0]] + b[1..];
  }

  lemma FewerSeparated<T(!new)>(s: multiset<T>, x: T, le: (T, T) -> bool)
    requires Separates(s, le)
    ensures Separates(s - multiset{x}, le)
  {
  }

  /** Two sorted sequences of the same elements are equal where the order separates them. */
  lemma {:induction false} SortedUnique<T(!new)>(a: seq<T>, b: seq<T>, le: (T, T) -> bool)
    requires Preorder(le) && Sorted(a, le) && Sorted(b, le)
    requires multiset(a) == multiset(b) && Separates(multiset(a), le)
    ensures a == b
  {
    if a == [] {
      assert |multiset(b)| == 0;
    } else {
      SameHead(a, b, le);
      SameTails(a, b);
      FewerSeparated(multiset(a), a[0], le);
      SortedUnique(a[1..], b[1..], le);
      HeadAndTail(a, b);
    }
  }

  lemma TailMultiset<T>(s: seq<T>)
    requires s != []
    ensures multiset(s[1..]) == multiset(s) - multiset{s[0]}
  {
    assert s == [s[0]] + s[1..];
  }

  /** Sorting gives equal results exactly on permutations of one another. */
  lemma SortCanonical<T(!new)>(a: seq<T>, b: seq<T>, le: (T, T) -> bool)
    requires Preorder(le) && Separates(multiset(a), le)
    ensures Sort(a, le) == Sort(b, le) <==> multiset(a) == multiset(b)
  {
    SortPermutes(a, le);
    SortPermutes(b, le);
    if multiset(a) == multiset(b) {
      SortSorted(a, le);
      SortSorted(b, le);
      SortedUnique(Sort(a, le), Sort(b, le), le);
    }
  }

  /** The elements of `s` that a test picks out, in order. */
  function Select<T>(s: seq<T>, pick: T -> bool): seq<T> {
    if s == [] then [] else (if pick(s[0]) then [s[0]] else []) + Select(s[1..], pick)
  }

  ghost predicate Increasing(at: seq<nat>) {
    forall i, j :: 0 <= i < j < |at| ==> at[i] < at[j]
  }

  function OneLater(at: seq<nat>): (later: seq<nat>)
    ensures |later| == |at| && forall i :: 0 <= i < |at| ==> later[i] == at[i] + 1
    ensures Increasing(at) ==> Increasing(later)
  {
    seq(|at|, i requires 0 <= i < |at| => at[i] + 1)
  }

  lemma OneLaterHas(at: seq<nat>, k: nat)
    ensures k in OneLater(at) <==> k > 0 && k - 1 in at
  {
    if k > 0 && k - 1 in at {
      var i :| 0 <= i < |at| && at[i] == k - 1;
      assert OneLater(at)[i] == k;
    }
  }

  /** The places that a test picks, in order. */
  ghost predicate Picked<T>(s: seq<T>, pick: T -> bool, at: seq<nat>) {
    && Increasing(at)
    && (forall i :: 0 <= i < |at| ==> at[i] < |s|)
    && (forall k: nat :: k in at <==> k < |s| && pick(s[k]))
  }

  lemma PickedOneLater<T>(s: seq<T>, pick: T -> bool, rest: seq<nat>)
    requires s != [] && Picked(s[1..], pick, rest)
    ensures Picked(s, pick, (if pick(s[0]) then [0] else []) + OneLater(rest))
  {
    var first: seq<nat> := if pick(s[0]) then [0] else [];
    var at := first + OneLater(rest);
    forall k: nat
      ensures k in at <==> k < |s| && pick(s[k])
    {
      OneLaterHas(rest, k);
      assert k in at <==> k in first || k in OneLater(rest);
      assert 0 < k < |s| ==> s[1..][k - 1] == s[k];
    }
  }

  /** Selecting picks every place whose element passes the test, and no other. */
  lemma {:induction false} SelectIs<T>(s: seq<T>, pick: T -> bool) returns (at: seq<nat>)
    ensures Picked(s, pick, at) && |at| == |Select(s, pick)|
    ensures forall i :: 0 <= i < |at| ==> Select(s, pick)[i] == s[at[i]]
  {
    if s == [] {
      at := [];
    } else {
      var rest := SelectIs(s[1..], pick);
      PickedOneLater(s, pick, rest);
      at := (if pick(s[0]) then [0] else []) + OneLater(rest);
    }
  }

  lemma {:induction false} InsertStable<T(!new)>(x: T, s: seq<T>, le: (T, T) -> bool, pick: T -> bool)
    requires forall a, b :: pick(a) && pick(b) ==> le(a, b)
    ensures Select(Insert(x, s, le), pick) == Select([x] + s, pick)
  {
    assert ([x] + s)[1..] == s;
    if s == [] {
    } else if le(x, s[0]) {
    } else {
      InsertStable(x, s[1..], le, pick);
      var rest := Insert(x, s[1..], le);
      assert ([s[0]] + rest)[1..] == rest;
      assert ([x] + s[1..])[1..] == s[1..];
    }
  }

  /** Elements the order ties keep their relative order. */
  lemma {:induction false} SortStable<T(!new)>(s: seq<T>, le: (T, T) -> bool, pick: T -> bool)
    requires forall a, b :: pick(a) && pick(b) ==> le(a, b)
    ensures Select(Sort(s, le), pick) == Select(s, pick)
  {
    if s != [] {
      SortStable(s[1..], le, pick);
      InsertStable(s[0], Sort(s[1..], le), le, pick);
      assert ([s[0]] + Sort(s[1..], le))[1..] == Sort(s[1..], le);
    }
  }

  /** Taking one element out. */
  function Without<T>(s: seq<T>, i: nat): (r: seq<T>)
    requires i < |s|
    ensures |r| == |s| - 1
    ensures forall k :: 0 <= k < |r| ==> r[k] == if k < i then s[k] else s[k + 1]
    ensures multiset(s) == multiset(r) + multiset{s[i]}
  {
    assert s == s[..i] + [s[i]] + s[i + 1..];
    s[..i] + s[i + 1..]
  }

  lemma PartsAround<T>(s: seq<T>, i: nat) returns (front: seq<T>, back: seq<T>)
    requires i < |s|
    ensures s == front + ([s[i]] + back) && Without(s, i) == front + back
  {
    front, back := s[..i], s[i + 1..];
  }

  // ---------------------------------------------------------------- repeats

  predicate NoRepeats<T(==)>(s: seq<T>) {
    forall i, j :: 0 <= i < j < |s| ==> s[i] != s[j]
  }

  lemma TwiceIn<T>(s: seq<T>, i: nat, j: nat)
    requires i < j < |s| && s[i] == s[j]
    ensures multiset(s)[s[i]] >= 2
  {
    assert s == s[..i] + [s[i]] + s[i + 1..j] + [s[j]] + s[j + 1..];
  }

  lemma OnceAmong<T>(s: seq<T>, k: nat)
    requires k < |s| && NoRepeats(s)
    ensures multiset(s)[s[k]] == 1
  {
    assert s == s[..k] + [s[k]] + s[k + 1..];
    assert s[k] !in s[..k] && s[k] !in s[k + 1..];
  }

  /** Different elements, all found in another list: that list has no fewer, and no others
      when it is as long. */
  lemma AllAmong<T>(a: seq<T>, b: seq<T>)
    requires NoRepeats(a) && forall x :: x in a ==> x in b
    ensures |a| <= |b|
    ensures |a| == |b| ==> multiset(a) == multiset(b)
  {
    forall x | x in multiset(a)
      ensures multiset(a)[x] <= multiset(b)[x]
    {
      var k :| 0 <= k < |a| && a[k] == x;
      OnceAmong(a, k);
      assert x in b;
    }
    var rest := multiset(b) - multiset(a);
    assert multiset(b) == multiset(a) + rest;
    assert |multiset(a)| == |a| && |multiset(b)| == |b|;
  }

  lemma NoRepeatsPermuted<T>(a: seq<T>, b: seq<T>)
    requires NoRepeats(a) && multiset(a) == multiset(b)
    ensures NoRepeats(b)
  {
    forall i, j | 0 <= i < j < |b|
      ensures b[i] != b[j]
    {
      assert b[i] in multiset(a);
      var k :| 0 <= k < |a| && a[k] == b[i];
      OnceAmong(a, k);
      if b[i] == b[j] {
        TwiceIn(b, i, j);
      }
    }
  }

  /** Sorting different elements leaves them different. */
  lemma SortKeepsApart<T>(s: seq<T>, le: (T, T) -> bool)
    requires NoRepeats(s)
    ensures NoRepeats(Sort(s, le))
    ensures forall x :: x in Sort(s, le) <==> x in s
  {
    SortPermutes(s, le);
    NoRepeatsPermuted(s, Sort(s, le));
    forall x
      ensures x in Sort(s, le) <==> x in s
    {
      assert x in Sort(s, le) <==> x in multiset(Sort(s, le));
      assert x in s <==> x in multiset(s);
    }
  }
}
