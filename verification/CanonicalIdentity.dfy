/** Canonical identity: the deterministic tree from which every content ID is
    hashed.  Values are acyclic here; `IdentityWalk` treats cyclic heaps.

    Trees stand for canonical JSON texts, whose object members are sorted by name.
    `order` is the order of those texts; text is injective on trees, so it is a total
    order on trees. */
module CanonicalIdentity {
  import opened SensitiveNames
  import opened StableSort
  import opened StringOrder

  /** A value with its iteration order: the items of a set and the entries of a
      mapping come in whatever order the container happens to yield them. */
  datatype Value =
    | VNone
    | VBool(b: bool)
    | VInt(n: int)
    | VStr(s: string)
    | VDecimal(text: string)
    | VDate(iso: string)
    | VInstant(iso: string)
    | VCallable(name: string)
    | VTuple(items: seq<Value>)
    | VList(items: seq<Value>)
    | VSet(items: seq<Value>)
    | VMapping(entries: seq<Entry>)
    | VDataclass(name: string, fields: seq<Field>)

  datatype Entry = Entry(key: Value, item: Value)

  /** Fields come in the order their class declares them. */
  datatype Field = Field(name: string, item: Value)

  datatype Json =
    | JNull
    | JBool(b: bool)
    | JInt(n: int)
    | JStr(s: string)
    | JArr(items: seq<Json>)
    | JObj(members: seq<(string, Json)>)

  type Order = (Json, Json) -> bool

  function Tagged(tag: string, body: Json): Json {
    JObj([(tag, body)])
  }

  function PairOrder(order: Order): ((Json, Json), (Json, Json)) -> bool {
    (p: (Json, Json), q: (Json, Json)) => order(p.0, q.0)
  }

  /** Entries under a sensitive string key never reach the identity. */
  predicate Dropped(key: Value) {
    key.VStr? && IsSensitive(key.s, IDENTITY_PARTS)
  }

  /** `canonical_identity`. */
  function Identity(v: Value, order: Order): Json
    decreases v, 1
  {
    match v
    case VNone => JNull
    case VBool(b) => JBool(b)
    case VInt(n) => JInt(n)
    case VStr(s) => JStr(s)
    case VDecimal(text) => Tagged("$decimal", JStr(text))
    case VDate(iso) => Tagged("$date", JStr(iso))
    case VInstant(iso) => Tagged("$datetime", JStr(iso))
    case VCallable(name) => Tagged("$callable", JStr(name))
    case VTuple(items) => Tagged("$tuple", JArr(IdentityAll(items, order)))
    case VList(items) => Tagged("$list", JArr(IdentityAll(items, order)))
    case VSet(items) => Tagged("$set", JArr(Sort(IdentityAll(items, order), order)))
    case VMapping(entries) =>
      Tagged("$mapping", JArr(Rows(Sort(IdentityPairs(entries, order), PairOrder(order)))))
    case VDataclass(name, fields) => DataclassTree(name, IdentityFields(fields, order))
  }

  predicate MemberOrder(p: (string, Json), q: (string, Json)) {
    StrLe(p.0, q.0)
  }

  function DataclassTree(name: string, members: seq<(string, Json)>): Json {
    JObj([("$dataclass", JStr(name)), ("fields", JObj(Sort(members, MemberOrder)))])
  }

  /** Name and item tree of the fields whose names are not sensitive. */
  function IdentityFields(fields: seq<Field>, order: Order): seq<(string, Json)>
    decreases fields, 0
  {
    if fields == [] then []
    else
      var rest := IdentityFields(fields[1..], order);
      if IsSensitive(fields[0].name, IDENTITY_PARTS) then rest else [IdentityField(fields[0], order)] + rest
  }

  function IdentityField(f: Field, order: Order): (string, Json)
    decreases f, 2
  {
    (f.name, Identity(f.item, order))
  }

  function IdentityAll(items: seq<Value>, order: Order): (trees: seq<Json>)
    ensures |trees| == |items|
    ensures forall i :: 0 <= i < |items| ==> trees[i] == Identity(items[i], order)
    decreases items, 0
  {
    if items == [] then []
    else [Identity(items[0], order)] + IdentityAll(items[1..], order)
  }

  /** Key and item trees of the entries that are not dropped. */
  function IdentityPairs(entries: seq<Entry>, order: Order): seq<(Json, Json)>
    decreases entries, 0
  {
    if entries == [] then []
    else
      var rest := IdentityPairs(entries[1..], order);
      if Dropped(entries[0].key) then rest else [IdentityPair(entries[0], order)] + rest
  }

  function IdentityPair(e: Entry, order: Order): (Json, Json)
    decreases e, 2
  {
    (Identity(e.key, order), Identity(e.item, order))
  }

  function Rows(pairs: seq<(Json, Json)>): (rows: seq<Json>)
    ensures |rows| == |pairs|
    ensures forall i :: 0 <= i < |pairs| ==> rows[i] == JArr([pairs[i].0, pairs[i].1])
  {
    seq(|pairs|, i requires 0 <= i < |pairs| => JArr([pairs[i].0, pairs[i].1]))
  }

  /** The tagged value itself: containers without an order keep only their contents. */
  datatype Meaning =
    | MNone
    | MBool(b: bool)
    | MInt(n: int)
    | MStr(s: string)
    | MDecimal(text: string)
    | MDate(iso: string)
    | MInstant(iso: string)
    | MCallable(name: string)
    | MTuple(items: seq<Meaning>)
    | MList(items: seq<Meaning>)
    | MSet(elements: multiset<Meaning>)
    | MMapping(entries: multiset<(Meaning, Meaning)>)
    | MDataclass(name: string, fields: multiset<(string, Meaning)>)

  ghost function Denote(v: Value): Meaning
    decreases v, 1
  {
    match v
    case VNone => MNone
    case VBool(b) => MBool(b)
    case VInt(n) => MInt(n)
    case VStr(s) => MStr(s)
    case VDecimal(text) => MDecimal(text)
    case VDate(iso) => MDate(iso)
    case VInstant(iso) => MInstant(iso)
    case VCallable(name) => MCallable(name)
    case VTuple(items) => MTuple(DenoteAll(items))
    case VList(items) => MList(DenoteAll(items))
    case VSet(items) => MSet(multiset(DenoteAll(items)))
    case VMapping(entries) => MMapping(multiset(DenotePairs(entries)))
    case VDataclass(name, fields) => MDataclass(name, multiset(DenoteFields(fields)))
  }

  ghost function DenoteFields(fields: seq<Field>): (meanings: seq<(string, Meaning)>)
    ensures |meanings| == |fields|
    ensures forall i :: 0 <= i < |fields| ==> meanings[i] == DenoteField(fields[i])
    decreases fields, 0
  {
    if fields == [] then [] else [DenoteField(fields[0])] + DenoteFields(fields[1..])
  }

  ghost function DenoteField(f: Field): (string, Meaning)
    decreases f, 2
  {
    (f.name, Denote(f.item))
  }

  ghost function DenoteAll(items: seq<Value>): (meanings: seq<Meaning>)
    ensures |meanings| == |items|
    ensures forall i :: 0 <= i < |items| ==> meanings[i] == Denote(items[i])
    decreases items, 0
  {
    if items == [] then [] else [Denote(items[0])] + DenoteAll(items[1..])
  }

  ghost function DenotePairs(entries: seq<Entry>): (meanings: seq<(Meaning, Meaning)>)
    ensures |meanings| == |entries|
    ensures forall i :: 0 <= i < |entries| ==> meanings[i] == DenotePair(entries[i])
    decreases entries, 0
  {
    if entries == [] then [] else [DenotePair(entries[0])] + DenotePairs(entries[1..])
  }

  ghost function DenotePair(e: Entry): (Meaning, Meaning)
    decreases e, 2
  {
    (Denote(e.key), Denote(e.item))
  }

  /** Nothing inside `v` sits under a sensitive key or field name, and the keys of every
      mapping are different tagged values; the names of a class's fields always differ. */
  ghost predicate Plain(v: Value)
    decreases v, 1
  {
    match v
    case VTuple(items) => forall i :: 0 <= i < |items| ==> Plain(items[i])
    case VList(items) => forall i :: 0 <= i < |items| ==> Plain(items[i])
    case VSet(items) => forall i :: 0 <= i < |items| ==> Plain(items[i])
    case VMapping(entries) =>
      (forall i :: 0 <= i < |entries| ==> PlainEntry(entries[i])) && KeysDiffer(entries)
    case VDataclass(_, fields) =>
      (forall i :: 0 <= i < |fields| ==> PlainField(fields[i])) && NamesDiffer(fields)
    case _ => true
  }

  ghost predicate PlainField(f: Field)
    decreases f, 2
  {
    !IsSensitive(f.name, IDENTITY_PARTS) && Plain(f.item)
  }

  ghost predicate PlainEntry(e: Entry)
    decreases e, 2
  {
    !Dropped(e.key) && Plain(e.key) && Plain(e.item)
  }

  /** As the fields of any class do. */
  ghost predicate NamesDiffer(fields: seq<Field>) {
    forall i, j :: 0 <= i < j < |fields| ==> fields[i].name != fields[j].name
  }

  ghost predicate KeysDiffer(entries: seq<Entry>) {
    forall i, j :: 0 <= i < j < |entries| ==> Denote(entries[i].key) != Denote(entries[j].key)
  }

  /** Position by position, one representation distinguishes what the other does. */
  ghost predicate SameDistinctions<A(!new), B(!new)>(a: seq<A>, b: seq<A>, c: seq<B>, d: seq<B>) {
    && |a| == |c| && |b| == |d|
    && forall i, j :: 0 <= i < |a| && 0 <= j < |b| ==> (a[i] == b[j] <==> c[i] == d[j])
  }

  lemma {:induction false} SequencesTransfer<A(!new), B(!new)>(a: seq<A>, b: seq<A>, c: seq<B>, d: seq<B>)
    requires SameDistinctions(a, b, c, d)
    ensures a == b <==> c == d
  {
    if a == b {
      assert forall i :: 0 <= i < |c| ==> c[i] == d[i];
    }
    if c == d {
      assert forall i :: 0 <= i < |a| ==> a[i] == b[i];
    }
  }

  lemma WithoutKeepsDistinctions<A(!new), B(!new)>(a: seq<A>, b: seq<A>, c: seq<B>, d: seq<B>, j: nat)
    requires SameDistinctions(a, b, c, d) && a != [] && j < |b|
    ensures SameDistinctions(Without(a, 0), Without(b, j), Without(c, 0), Without(d, j))
  {
    var a', b', c', d' := Without(a, 0), Without(b, j), Without(c, 0), Without(d, j);
    forall i, k | 0 <= i < |a'| && 0 <= k < |b'|
      ensures a'[i] == b'[k] <==> c'[i] == d'[k]
    {
      var l := if k < j then k else k + 1;
      assert a'[i] == a[i + 1] && b'[k] == b[l] && c'[i] == c[i + 1] && d'[k] == d[l];
    }
  }

  lemma {:induction false} MultisetsTransfer<A(!new), B(!new)>(a: seq<A>, b: seq<A>, c: seq<B>, d: seq<B>)
    requires SameDistinctions(a, b, c, d)
    requires multiset(a) == multiset(b)
    ensures multiset(c) == multiset(d)
    decreases |a|
  {
    if a == [] {
      assert |multiset(b)| == 0;
    } else {
      assert a[0] in multiset(b);
      var j :| 0 <= j < |b| && b[j] == a[0];
      assert c[0] == d[j];
      WithoutKeepsDistinctions(a, b, c, d, j);
      assert multiset(Without(a, 0)) == multiset(a) - multiset{a[0]};
      assert multiset(Without(b, j)) == multiset(b) - multiset{b[j]};
      MultisetsTransfer(Without(a, 0), Without(b, j), Without(c, 0), Without(d, j));
    }
  }

  lemma SameDistinctionsFlip<A(!new), B(!new)>(a: seq<A>, b: seq<A>, c: seq<B>, d: seq<B>)
    requires SameDistinctions(a, b, c, d)
    ensures SameDistinctions(c, d, a, b)
    ensures multiset(a) == multiset(b) <==> multiset(c) == multiset(d)
  {
    if multiset(a) == multiset(b) { MultisetsTransfer(a, b, c, d); }
    if multiset(c) == multiset(d) { MultisetsTransfer(c, d, a, b); }
  }

  lemma {:induction false} NothingDropped(entries: seq<Entry>, order: Order)
    requires forall i :: 0 <= i < |entries| ==> !Dropped(entries[i].key)
    ensures |IdentityPairs(entries, order)| == |entries|
    ensures forall i :: 0 <= i < |entries| ==>
              IdentityPairs(entries, order)[i] == (Identity(entries[i].key, order), Identity(entries[i].item, order))
  {
    if entries != [] {
      NothingDropped(entries[1..], order);
      forall i | 0 <= i < |entries|
        ensures IdentityPairs(entries, order)[i]
                  == (Identity(entries[i].key, order), Identity(entries[i].item, order))
      {
        if i > 0 { assert entries[i] == entries[1..][i - 1]; }
      }
    }
  }

  lemma {:induction false} NoFieldDropped(fields: seq<Field>, order: Order)
    requires forall i :: 0 <= i < |fields| ==> PlainField(fields[i])
    ensures |IdentityFields(fields, order)| == |fields|
    ensures forall i :: 0 <= i < |fields| ==> IdentityFields(fields, order)[i] == IdentityField(fields[i], order)
  {
    if fields != [] {
      NoFieldDropped(fields[1..], order);
    }
  }

  lemma RowsInjective(p: seq<(Json, Json)>, q: seq<(Json, Json)>)
    ensures Rows(p) == Rows(q) <==> p == q
  {
    if Rows(p) == Rows(q) {
      forall i | 0 <= i < |p|
        ensures p[i] == q[i]
      {
        assert Rows(p)[i] == Rows(q)[i];
        assert [p[i].0, p[i].1][0] == [q[i].0, q[i].1][0];
        assert [p[i].0, p[i].1][1] == [q[i].0, q[i].1][1];
      }
    }
  }

  lemma PairOrderIsPreorder(order: Order)
    requires TotalOrder(order)
    ensures Preorder(PairOrder(order))
  {
    var le := PairOrder(order);
    forall p, q
      ensures le(p, q) == order(p.0, q.0)
    {
    }
    forall p, q, r | le(p, q) && le(q, r)
      ensures le(p, r)
    {
      assert order(p.0, q.0) && order(q.0, r.0);
    }
  }

  lemma {:induction false} ItemsFaithful(xs: seq<Value>, ys: seq<Value>, order: Order)
    requires TotalOrder(order)
    requires forall i :: 0 <= i < |xs| ==> Plain(xs[i])
    requires forall i :: 0 <= i < |ys| ==> Plain(ys[i])
    ensures SameDistinctions(IdentityAll(xs, order), IdentityAll(ys, order), DenoteAll(xs), DenoteAll(ys))
    decreases xs, 0
  {
    forall i, j | 0 <= i < |xs| && 0 <= j < |ys|
      ensures Identity(xs[i], order) == Identity(ys[j], order) <==> Denote(xs[i]) == Denote(ys[j])
    {
      IdentityFaithful(xs[i], ys[j], order);
    }
  }

  lemma {:induction false} EntryFaithful(e: Entry, f: Entry, order: Order)
    requires TotalOrder(order) && PlainEntry(e) && PlainEntry(f)
    ensures Identity(e.key, order) == Identity(f.key, order) <==> Denote(e.key) == Denote(f.key)
    ensures IdentityPair(e, order) == IdentityPair(f, order) <==> DenotePair(e) == DenotePair(f)
    decreases e, 2
  {
    IdentityFaithful(e.key, f.key, order);
    IdentityFaithful(e.item, f.item, order);
  }

  lemma {:induction false} EntriesFaithful(es: seq<Entry>, fs: seq<Entry>, order: Order)
    requires TotalOrder(order)
    requires forall i :: 0 <= i < |es| ==> PlainEntry(es[i])
    requires forall i :: 0 <= i < |fs| ==> PlainEntry(fs[i])
    ensures SameDistinctions(
              IdentityPairs(es, order), IdentityPairs(fs, order), DenotePairs(es), DenotePairs(fs))
    decreases es, 0
  {
    NothingDropped(es, order);
    NothingDropped(fs, order);
    forall i, j | 0 <= i < |es| && 0 <= j < |fs|
      ensures IdentityPair(es[i], order) == IdentityPair(fs[j], order) <==> DenotePair(es[i]) == DenotePair(fs[j])
    {
      EntryFaithful(es[i], fs[j], order);
    }
  }

  lemma {:induction false} FieldsFaithful(es: seq<Field>, fs: seq<Field>, order: Order)
    requires TotalOrder(order)
    requires forall i :: 0 <= i < |es| ==> PlainField(es[i])
    requires forall i :: 0 <= i < |fs| ==> PlainField(fs[i])
    ensures SameDistinctions(
              IdentityFields(es, order), IdentityFields(fs, order), DenoteFields(es), DenoteFields(fs))
    decreases es, 0
  {
    NoFieldDropped(es, order);
    NoFieldDropped(fs, order);
    forall i, j | 0 <= i < |es| && 0 <= j < |fs|
      ensures IdentityField(es[i], order) == IdentityField(fs[j], order) <==> DenoteField(es[i]) == DenoteField(fs[j])
    {
      FieldFaithful(es[i], fs[j], order);
    }
  }

  lemma {:induction false} FieldFaithful(e: Field, f: Field, order: Order)
    requires TotalOrder(order) && PlainField(e) && PlainField(f)
    ensures IdentityField(e, order) == IdentityField(f, order) <==> DenoteField(e) == DenoteField(f)
    decreases e, 2
  {
    IdentityFaithful(e.item, f.item, order);
  }

  lemma DataclassTreeInjective(a: string, p: seq<(string, Json)>, b: string, q: seq<(string, Json)>)
    ensures DataclassTree(a, p) == DataclassTree(b, q) <==> a == b && Sort(p, MemberOrder) == Sort(q, MemberOrder)
  {
    if DataclassTree(a, p) == DataclassTree(b, q) {
      assert DataclassTree(a, p).members[0] == DataclassTree(b, q).members[0];
      assert DataclassTree(a, p).members[1] == DataclassTree(b, q).members[1];
    }
  }

  /** Different keys have different trees. */
  lemma {:induction false} TiedPairs(es: seq<Entry>, i: nat, j: nat, order: Order)
    requires TotalOrder(order) && KeysDiffer(es) && i < |es| && j < |es|
    requires forall i :: 0 <= i < |es| ==> PlainEntry(es[i])
    requires IdentityPair(es[i], order).0 == IdentityPair(es[j], order).0
    ensures i == j
    decreases es, 0
  {
    EntryFaithful(es[i], es[j], order);
    assert Denote(es[i].key) == Denote(es[j].key);
  }

  /** So sorting by key text leaves no ties. */
  lemma {:induction false} KeysSeparate(es: seq<Entry>, order: Order)
    requires TotalOrder(order) && KeysDiffer(es)
    requires forall i :: 0 <= i < |es| ==> PlainEntry(es[i])
    ensures Separates(multiset(IdentityPairs(es, order)), PairOrder(order))
    decreases es, 1
  {
    var pairs := IdentityPairs(es, order);
    NothingDropped(es, order);
    forall p: (Json, Json), q: (Json, Json) | p in multiset(pairs) && q in multiset(pairs) && order(p.0, q.0) && order(q.0, p.0)
      ensures p == q
    {
      var i :| 0 <= i < |pairs| && pairs[i] == p;
      var j :| 0 <= j < |pairs| && pairs[j] == q;
      TiedPairs(es, i, j, order);
    }
  }

  lemma MemberOrderIsPreorder()
    ensures Preorder(MemberOrder)
  {
    StrLeIsTotalOrder();
    forall p, q, r | MemberOrder(p, q) && MemberOrder(q, r)
      ensures MemberOrder(p, r)
    {
      assert StrLe(p.0, q.0) && StrLe(q.0, r.0);
    }
  }

  lemma MembersSeparate(members: seq<(string, Json)>)
    requires forall i, j :: 0 <= i < j < |members| ==> members[i].0 != members[j].0
    ensures Separates(multiset(members), MemberOrder)
  {
    forall p: (string, Json), q: (string, Json) |
      p in multiset(members) && q in multiset(members) && MemberOrder(p, q) && MemberOrder(q, p)
      ensures p == q
    {
      StrAntisymmetric(p.0, q.0);
      var i :| 0 <= i < |members| && members[i] == p;
      var j :| 0 <= j < |members| && members[j] == q;
    }
  }

  lemma MemberNames(fields: seq<Field>, order: Order)
    requires forall i :: 0 <= i < |fields| ==> PlainField(fields[i])
    ensures |IdentityFields(fields, order)| == |fields|
    ensures forall i :: 0 <= i < |fields| ==> IdentityFields(fields, order)[i].0 == fields[i].name
  {
    NoFieldDropped(fields, order);
  }

  /** Different field names leave no ties either. */
  lemma NamesSeparate(fields: seq<Field>, members: seq<(string, Json)>)
    requires NamesDiffer(fields) && |members| == |fields|
    requires forall i :: 0 <= i < |fields| ==> members[i].0 == fields[i].name
    ensures Separates(multiset(members), MemberOrder)
  {
    MembersSeparate(members);
  }

  lemma SortedTransfer<A(!new), B(!new)>(a: seq<A>, b: seq<A>, c: seq<B>, d: seq<B>, le: (A, A) -> bool)
    requires Preorder(le) && Separates(multiset(a), le) && SameDistinctions(a, b, c, d)
    ensures Sort(a, le) == Sort(b, le) <==> multiset(c) == multiset(d)
  {
    SortCanonical(a, b, le);
    SameDistinctionsFlip(a, b, c, d);
  }

  /** Two plain values have the same identity tree exactly when they are the same tagged
      value: the tree depends on no iteration order and confuses no two values. */
  lemma {:induction false} IdentityFaithful(v: Value, w: Value, order: Order)
    requires TotalOrder(order) && Plain(v) && Plain(w)
    ensures Identity(v, order) == Identity(w, order) <==> Denote(v) == Denote(w)
    decreases v, 1
  {
    match (v, w)
    case (VTuple(xs), VTuple(ys)) =>
      ItemsFaithful(xs, ys, order);
      SequencesTransfer(IdentityAll(xs, order), IdentityAll(ys, order), DenoteAll(xs), DenoteAll(ys));
    case (VList(xs), VList(ys)) =>
      ItemsFaithful(xs, ys, order);
      SequencesTransfer(IdentityAll(xs, order), IdentityAll(ys, order), DenoteAll(xs), DenoteAll(ys));
    case (VSet(xs), VSet(ys)) =>
      ItemsFaithful(xs, ys, order);
      SortedTransfer(IdentityAll(xs, order), IdentityAll(ys, order), DenoteAll(xs), DenoteAll(ys), order);
    case (VMapping(es), VMapping(fs)) =>
      EntriesFaithful(es, fs, order);
      KeysSeparate(es, order);
      var p, q, le := IdentityPairs(es, order), IdentityPairs(fs, order), PairOrder(order);
      PairOrderIsPreorder(order);
      SortedTransfer(p, q, DenotePairs(es), DenotePairs(fs), le);
      RowsInjective(Sort(p, le), Sort(q, le));
    case (VDataclass(a, es), VDataclass(b, fs)) =>
      FieldsFaithful(es, fs, order);
      MemberNames(es, order);
      NamesSeparate(es, IdentityFields(es, order));
      MemberOrderIsPreorder();
      SortedTransfer(IdentityFields(es, order), IdentityFields(fs, order), DenoteFields(es), DenoteFields(fs), MemberOrder);
      DataclassTreeInjective(a, IdentityFields(es, order), b, IdentityFields(fs, order));
    case _ =>
      TagsDiffer(v, w, order);
  }

  function Kind(v: Value): nat {
    match v
    case VNone => 0
    case VBool(_) => 1
    case VInt(_) => 2
    case VStr(_) => 3
    case VDecimal(_) => 4
    case VDate(_) => 5
    case VInstant(_) => 6
    case VCallable(_) => 7
    case VTuple(_) => 8
    case VList(_) => 9
    case VSet(_) => 10
    case VMapping(_) => 11
    case VDataclass(_, _) => 12
  }

  /** The kind a tree announces by its shape or its first member name. */
  function TreeKind(t: Json): nat {
    match t
    case JNull => 0
    case JBool(_) => 1
    case JInt(_) => 2
    case JStr(_) => 3
    case JArr(_) => 13
    case JObj(members) =>
      if members == [] then 13
      else if members[0].0 == "$decimal" then 4
      else if members[0].0 == "$date" then 5
      else if members[0].0 == "$datetime" then 6
      else if members[0].0 == "$callable" then 7
      else if members[0].0 == "$tuple" then 8
      else if members[0].0 == "$list" then 9
      else if members[0].0 == "$set" then 10
      else if members[0].0 == "$mapping" then 11
      else if members[0].0 == "$dataclass" then 12
      else 13
  }

  lemma TreeShowsKind(v: Value, order: Order)
    ensures TreeKind(Identity(v, order)) == Kind(v)
  {
  }

  /** Values of different kinds, and different scalars, never share a tree. */
  lemma TagsDiffer(v: Value, w: Value, order: Order)
    requires Kind(v) != Kind(w) || Kind(v) < 8
    ensures Identity(v, order) == Identity(w, order) <==> Denote(v) == Denote(w)
  {
    TreeShowsKind(v, order);
    TreeShowsKind(w, order);
  }

  ghost predicate Permutes(es: seq<Entry>, fs: seq<Entry>) {
    multiset(es) == multiset(fs)
  }

  ghost predicate SameKeyTree(e: Entry, f: Entry, order: Order) {
    !Dropped(e.key) && !Dropped(f.key) && Identity(e.key, order) == Identity(f.key, order)
  }

  /** Kept entries whose keys have the same tree also have the same item tree. */
  ghost predicate KeyTreesDetermineItems(es: seq<Entry>, order: Order) {
    forall e, f | e in es && f in es && SameKeyTree(e, f, order) ::
      Identity(e.item, order) == Identity(f.item, order)
  }

  lemma {:induction false} PairsOfConcat(es: seq<Entry>, fs: seq<Entry>, order: Order)
    ensures IdentityPairs(es + fs, order) == IdentityPairs(es, order) + IdentityPairs(fs, order)
    decreases |es|
  {
    if es == [] {
      assert es + fs == fs;
    } else {
      PairsOfConcat(es[1..], fs, order);
      assert (es + fs)[1..] == es[1..] + fs;
    }
  }

  lemma PairsWithout(es: seq<Entry>, i: nat, order: Order)
    requires i < |es|
    ensures multiset(IdentityPairs(es, order))
         == multiset(IdentityPairs([es[i]], order)) + multiset(IdentityPairs(Without(es, i), order))
  {
    SplitAt(es, i);
    PairsOfThree(es[..i], [es[i]], es[i + 1..], order);
  }

  lemma SplitAt<T>(s: seq<T>, i: nat)
    requires i < |s|
    ensures s == s[..i] + [s[i]] + s[i + 1..] && Without(s, i) == s[..i] + s[i + 1..]
  {
  }

  lemma PairsOfThree(a: seq<Entry>, x: seq<Entry>, b: seq<Entry>, order: Order)
    ensures multiset(IdentityPairs(a + x + b, order))
         == multiset(IdentityPairs(x, order)) + multiset(IdentityPairs(a + b, order))
  {
    PairsOfConcat(a + x, b, order);
    PairsOfConcat(a, x, order);
    PairsOfConcat(a, b, order);
  }

  lemma {:induction false} PermutedPairs(es: seq<Entry>, fs: seq<Entry>, order: Order)
    requires Permutes(es, fs)
    ensures multiset(IdentityPairs(es, order)) == multiset(IdentityPairs(fs, order))
    decreases |es|
  {
    if es == [] {
      assert |multiset(fs)| == 0;
    } else {
      assert es[0] in multiset(fs);
      var j :| 0 <= j < |fs| && fs[j] == es[0];
      assert multiset(Without(es, 0)) == multiset(es) - multiset{es[0]} == multiset(Without(fs, j));
      PermutedPairs(Without(es, 0), Without(fs, j), order);
      PairsWithout(es, 0, order);
      PairsWithout(fs, j, order);
    }
  }

  lemma {:induction false} PairOrigin(es: seq<Entry>, order: Order, p: (Json, Json)) returns (e: Entry)
    requires p in IdentityPairs(es, order)
    ensures e in es && !Dropped(e.key) && p == IdentityPair(e, order)
    decreases |es|
  {
    if !Dropped(es[0].key) && IdentityPair(es[0], order) == p {
      e := es[0];
    } else {
      e := PairOrigin(es[1..], order, p);
    }
  }

  lemma DeterminedPairsSeparate(es: seq<Entry>, order: Order)
    requires TotalOrder(order) && KeyTreesDetermineItems(es, order)
    ensures Separates(multiset(IdentityPairs(es, order)), PairOrder(order))
  {
    var pairs := IdentityPairs(es, order);
    forall p: (Json, Json), q: (Json, Json) |
      p in multiset(pairs) && q in multiset(pairs) && order(p.0, q.0) && order(q.0, p.0)
      ensures p == q
    {
      var e := PairOrigin(es, order, p);
      var f := PairOrigin(es, order, q);
      assert SameKeyTree(e, f, order);
    }
  }

  lemma FrontPairs(e: Entry, f: Entry, rest: seq<Entry>, order: Order)
    requires !Dropped(e.key) && !Dropped(f.key)
    ensures IdentityPairs([e, f] + rest, order)
         == [IdentityPair(e, order)] + [IdentityPair(f, order)] + IdentityPairs(rest, order)
  {
    PairsOfConcat([e, f], rest, order);
    PairsOfConcat([e], [f], order);
    assert [e] + [f] == [e, f];
  }

  /** Sorting keeps tied rows in their given order, so swapping two tied rows shows. */
  lemma TiedRowsShow(p: (Json, Json), q: (Json, Json), tail: seq<(Json, Json)>, order: Order)
    requires TotalOrder(order) && p.0 == q.0 && p.1 != q.1
    ensures var le := PairOrder(order); Sort([p] + [q] + tail, le) != Sort([q] + [p] + tail, le)
  {
    var le := PairOrder(order);
    var pick := (r: (Json, Json)) => r.0 == p.0;
    var a, b := [p] + [q] + tail, [q] + [p] + tail;
    SortStable(a, le, pick);
    SortStable(b, le, pick);
    assert Select(a, pick)[0] == p && Select(b, pick)[0] == q;
  }

  /** Two kept entries that share a key tree but not an item tree: swapping them at the
      front of the iteration order changes the identity. */
  lemma SwapLeaks(e: Entry, f: Entry, rest: seq<Entry>, order: Order)
    requires TotalOrder(order) && SameKeyTree(e, f, order)
    requires Identity(e.item, order) != Identity(f.item, order)
    ensures Identity(VMapping([e, f] + rest), order) != Identity(VMapping([f, e] + rest), order)
  {
    var le := PairOrder(order);
    FrontPairs(e, f, rest, order);
    FrontPairs(f, e, rest, order);
    var a, b := IdentityPairs([e, f] + rest, order), IdentityPairs([f, e] + rest, order);
    TiedRowsShow(IdentityPair(e, order), IdentityPair(f, order), IdentityPairs(rest, order), order);
    RowsInjective(Sort(a, le), Sort(b, le));
  }

  ghost predicate OrderIndependent(es: seq<Entry>, order: Order) {
    forall fs, gs :: Permutes(fs, es) && Permutes(gs, es) ==>
      Identity(VMapping(fs), order) == Identity(VMapping(gs), order)
  }

  lemma DeterminedIsIndependent(es: seq<Entry>, fs: seq<Entry>, gs: seq<Entry>, order: Order)
    requires TotalOrder(order) && KeyTreesDetermineItems(es, order)
    requires Permutes(fs, es) && Permutes(gs, es)
    ensures Identity(VMapping(fs), order) == Identity(VMapping(gs), order)
  {
    PermutedPairs(fs, es, order);
    PermutedPairs(gs, es, order);
    DeterminedPairsSeparate(es, order);
    PairOrderIsPreorder(order);
    SortCanonical(IdentityPairs(fs, order), IdentityPairs(gs, order), PairOrder(order));
  }

  lemma UndeterminedLeaks(es: seq<Entry>, e: Entry, f: Entry, order: Order)
    requires TotalOrder(order) && e in es && f in es && SameKeyTree(e, f, order)
    requires Identity(e.item, order) != Identity(f.item, order)
    ensures !OrderIndependent(es, order)
  {
    var rest := FrontPair(es, e, f);
    SwapLeaks(e, f, rest, order);
    var fs, gs := [e, f] + rest, [f, e] + rest;
    assert Permutes(fs, es) && Permutes(gs, es);
  }

  /** Exactly when a mapping's identity is independent of its iteration order, for every
      mapping whatever: no two kept entries share a key tree with different items. */
  lemma MappingOrderIndependentIff(es: seq<Entry>, order: Order)
    requires TotalOrder(order)
    ensures OrderIndependent(es, order) <==> KeyTreesDetermineItems(es, order)
  {
    if KeyTreesDetermineItems(es, order) {
      forall fs, gs | Permutes(fs, es) && Permutes(gs, es)
        ensures Identity(VMapping(fs), order) == Identity(VMapping(gs), order)
      {
        DeterminedIsIndependent(es, fs, gs, order);
      }
    } else {
      var e, f :| e in es && f in es && SameKeyTree(e, f, order)
        && Identity(e.item, order) != Identity(f.item, order);
      UndeterminedLeaks(es, e, f, order);
    }
  }

  lemma FrontPair(es: seq<Entry>, e: Entry, f: Entry) returns (rest: seq<Entry>)
    requires e in es && f in es && e != f
    ensures Permutes([e, f] + rest, es) && Permutes([f, e] + rest, es)
  {
    var without := TakeOut(es, e);
    assert f in multiset(es) - multiset{e};
    rest := TakeOut(without, f);
    TwoInFront(e, f, rest);
    TwoInFront(f, e, rest);
  }

  lemma TwoInFront<T>(x: T, y: T, rest: seq<T>)
    ensures multiset([x, y] + rest) == multiset(rest) + multiset{x} + multiset{y}
  {
    assert [x, y] + rest == [x] + ([y] + rest);
  }

  lemma TakeOut<T>(s: seq<T>, x: T) returns (rest: seq<T>)
    requires x in multiset(s)
    ensures multiset(s) == multiset(rest) + multiset{x}
    ensures multiset(rest) == multiset(s) - multiset{x}
  {
    var i :| 0 <= i < |s| && s[i] == x;
    rest := Without(s, i);
  }

  /** Such a mapping exists: two callables of one qualified name as keys. */
  lemma MappingOrderCanLeak(order: Order)
    requires TotalOrder(order)
    ensures var e, f := Entry(VCallable("m.f"), VInt(1)), Entry(VCallable("m.f"), VInt(2));
            Identity(VMapping([e, f]), order) != Identity(VMapping([f, e]), order)
  {
    var e, f := Entry(VCallable("m.f"), VInt(1)), Entry(VCallable("m.f"), VInt(2));
    SwapLeaks(e, f, [], order);
    assert [e, f] + [] == [e, f] && [f, e] + [] == [f, e];
  }

  /** `v` without anything that sits under a sensitive key or field name. */
  function Strip(v: Value): Value
    decreases v, 1
  {
    match v
    case VTuple(items) => VTuple(StripAll(items))
    case VList(items) => VList(StripAll(items))
    case VSet(items) => VSet(StripAll(items))
    case VMapping(entries) => VMapping(StripEntries(entries))
    case VDataclass(name, fields) => VDataclass(name, StripFields(fields))
    case _ => v
  }

  function StripAll(items: seq<Value>): seq<Value>
    decreases items, 0
  {
    if items == [] then [] else [Strip(items[0])] + StripAll(items[1..])
  }

  function StripEntries(entries: seq<Entry>): seq<Entry>
    decreases entries, 0
  {
    if entries == [] then []
    else if Dropped(entries[0].key) then StripEntries(entries[1..])
    else [StripEntry(entries[0])] + StripEntries(entries[1..])
  }

  function StripEntry(e: Entry): Entry
    decreases e, 2
  {
    Entry(Strip(e.key), Strip(e.item))
  }

  function StripFields(fields: seq<Field>): seq<Field>
    decreases fields, 0
  {
    if fields == [] then []
    else if IsSensitive(fields[0].name, IDENTITY_PARTS) then StripFields(fields[1..])
    else [StripField(fields[0])] + StripFields(fields[1..])
  }

  function StripField(f: Field): Field
    decreases f, 2
  {
    Field(f.name, Strip(f.item))
  }

  /** Secrets leave no trace: an identity is that of the stripped value. */
  lemma {:induction false} SecretsLeaveNoTrace(v: Value, order: Order)
    ensures Identity(Strip(v), order) == Identity(v, order)
    decreases v, 1
  {
    match v
    case VTuple(items) => StrippedItems(items, order);
    case VList(items) => StrippedItems(items, order);
    case VSet(items) => StrippedItems(items, order);
    case VMapping(entries) => StrippedEntries(entries, order);
    case VDataclass(_, fields) => StrippedFields(fields, order);
    case _ =>
  }

  lemma {:induction false} StrippedItems(items: seq<Value>, order: Order)
    ensures IdentityAll(StripAll(items), order) == IdentityAll(items, order)
    decreases items, 0
  {
    if items != [] {
      SecretsLeaveNoTrace(items[0], order);
      StrippedItems(items[1..], order);
      assert ([Strip(items[0])] + StripAll(items[1..]))[1..] == StripAll(items[1..]);
    }
  }

  lemma {:induction false} StrippedEntries(entries: seq<Entry>, order: Order)
    ensures IdentityPairs(StripEntries(entries), order) == IdentityPairs(entries, order)
    decreases entries, 0
  {
    if entries != [] {
      StrippedEntries(entries[1..], order);
      if !Dropped(entries[0].key) {
        StrippedEntry(entries[0], order);
        assert ([StripEntry(entries[0])] + StripEntries(entries[1..]))[1..] == StripEntries(entries[1..]);
      }
    }
  }

  lemma {:induction false} StrippedEntry(e: Entry, order: Order)
    ensures IdentityPair(StripEntry(e), order) == IdentityPair(e, order)
    ensures Dropped(StripEntry(e).key) == Dropped(e.key)
    decreases e, 2
  {
    SecretsLeaveNoTrace(e.key, order);
    SecretsLeaveNoTrace(e.item, order);
  }

  lemma {:induction false} StrippedFields(fields: seq<Field>, order: Order)
    ensures IdentityFields(StripFields(fields), order) == IdentityFields(fields, order)
    decreases fields, 0
  {
    if fields != [] {
      StrippedFields(fields[1..], order);
      if !IsSensitive(fields[0].name, IDENTITY_PARTS) {
        StrippedField(fields[0], order);
        assert ([StripField(fields[0])] + StripFields(fields[1..]))[1..] == StripFields(fields[1..]);
      }
    }
  }

  lemma {:induction false} StrippedField(f: Field, order: Order)
    ensures IdentityField(StripField(f), order) == IdentityField(f, order)
    decreases f, 2
  {
    SecretsLeaveNoTrace(f.item, order);
  }

  // ---------------------------------------------------------------- which entries and fields are secret

  /** One of the listed parts stands in the name. */
  ghost predicate Secret(name: string) {
    exists i :: 0 <= i < |IDENTITY_PARTS| && Holds(name, IDENTITY_PARTS[i])
  }

  lemma OneMorePair(a: seq<Entry>, e: Entry, b: seq<Entry>, order: Order)
    ensures IdentityPairs(a + [e] + b, order)
         == IdentityPairs(a, order) + (if Dropped(e.key) then [] else [IdentityPair(e, order)]) + IdentityPairs(b, order)
    ensures IdentityPairs(a + b, order) == IdentityPairs(a, order) + IdentityPairs(b, order)
  {
    PairsOfConcat(a + [e], b, order);
    PairsOfConcat(a, [e], order);
    PairsOfConcat(a, b, order);
    assert [e][1..] == [] && IdentityPairs([], order) == [];
  }

  lemma SortedLength<T>(s: seq<T>, le: (T, T) -> bool)
    ensures |Sort(s, le)| == |s|
  {
    SortPermutes(s, le);
    assert |multiset(s)| == |s| && |multiset(Sort(s, le))| == |Sort(s, le)|;
  }

  lemma MappingCounts(es: seq<Entry>, fs: seq<Entry>, order: Order)
    requires |IdentityPairs(es, order)| != |IdentityPairs(fs, order)|
    ensures Identity(VMapping(es), order) != Identity(VMapping(fs), order)
  {
    SortedLength(IdentityPairs(es, order), PairOrder(order));
    SortedLength(IdentityPairs(fs, order), PairOrder(order));
    var rows, others := Rows(Sort(IdentityPairs(es, order), PairOrder(order))),
                        Rows(Sort(IdentityPairs(fs, order), PairOrder(order)));
    assert |rows| != |others|;
    TaggedArrays("$mapping", rows, others);
  }

  lemma TaggedArrays(tag: string, rows: seq<Json>, others: seq<Json>)
    requires rows != others
    ensures Tagged(tag, JArr(rows)) != Tagged(tag, JArr(others))
  {
    assert Tagged(tag, JArr(rows)).members[0].1 == JArr(rows);
    assert Tagged(tag, JArr(others)).members[0].1 == JArr(others);
  }

  /** An entry leaves no trace in its mapping's identity exactly when its key is a string
      that is secret. */
  lemma EntryTracelessIff(a: seq<Entry>, e: Entry, b: seq<Entry>, order: Order)
    ensures Identity(VMapping(a + [e] + b), order) == Identity(VMapping(a + b), order)
       <==> e.key.VStr? && Secret(e.key.s)
  {
    OneMorePair(a, e, b, order);
    assert IdentityPairs(a, order) + [] == IdentityPairs(a, order);
    if e.key.VStr? {
      SensitiveIff(e.key.s, IDENTITY_PARTS);
    }
    if !Dropped(e.key) {
      MappingCounts(a + [e] + b, a + b, order);
    }
  }

  lemma {:induction false} FieldsConcat(a: seq<Field>, b: seq<Field>, order: Order)
    ensures IdentityFields(a + b, order) == IdentityFields(a, order) + IdentityFields(b, order)
    decreases |a|
  {
    if a == [] {
      assert a + b == b;
    } else {
      FieldsConcat(a[1..], b, order);
      assert (a + b)[1..] == a[1..] + b && (a + b)[0] == a[0];
    }
  }

  lemma OneMoreField(a: seq<Field>, f: Field, b: seq<Field>, order: Order)
    ensures IdentityFields(a + [f] + b, order)
         == IdentityFields(a, order)
            + (if IsSensitive(f.name, IDENTITY_PARTS) then [] else [IdentityField(f, order)]) + IdentityFields(b, order)
    ensures IdentityFields(a + b, order) == IdentityFields(a, order) + IdentityFields(b, order)
  {
    FieldsConcat(a + [f], b, order);
    FieldsConcat(a, [f], order);
    FieldsConcat(a, b, order);
    assert [f][1..] == [] && IdentityFields([], order) == [];
  }

  lemma FieldCounts(name: string, fs: seq<Field>, gs: seq<Field>, order: Order)
    requires |IdentityFields(fs, order)| != |IdentityFields(gs, order)|
    ensures Identity(VDataclass(name, fs), order) != Identity(VDataclass(name, gs), order)
  {
    SortedLength(IdentityFields(fs, order), MemberOrder);
    SortedLength(IdentityFields(gs, order), MemberOrder);
    var tree, other := Identity(VDataclass(name, fs), order), Identity(VDataclass(name, gs), order);
    assert tree.members[1].1.members == Sort(IdentityFields(fs, order), MemberOrder);
    assert other.members[1].1.members == Sort(IdentityFields(gs, order), MemberOrder);
  }

  /** A field leaves no trace in its object's identity exactly when its name is secret. */
  lemma FieldTracelessIff(name: string, a: seq<Field>, f: Field, b: seq<Field>, order: Order)
    ensures Identity(VDataclass(name, a + [f] + b), order) == Identity(VDataclass(name, a + b), order)
       <==> Secret(f.name)
  {
    OneMoreField(a, f, b, order);
    assert IdentityFields(a, order) + [] == IdentityFields(a, order);
    SensitiveIff(f.name, IDENTITY_PARTS);
    if !Secret(f.name) {
      FieldCounts(name, a + [f] + b, a + b, order);
    }
  }

  /** Any two values share an identity exactly when, without their secrets, they are the
      same tagged value; of a stripped value only the keys of its mappings can still tie. */
  lemma StrippedFaithful(v: Value, w: Value, order: Order)
    requires TotalOrder(order) && Plain(Strip(v)) && Plain(Strip(w))
    ensures Identity(v, order) == Identity(w, order) <==> Denote(Strip(v)) == Denote(Strip(w))
  {
    SecretsLeaveNoTrace(v, order);
    SecretsLeaveNoTrace(w, order);
    IdentityFaithful(Strip(v), Strip(w), order);
  }

  /** Nothing is stripped from a plain value. */
  lemma {:induction false} PlainIsStripped(v: Value)
    requires Plain(v)
    ensures Strip(v) == v
    decreases v, 1
  {
    match v
    case VTuple(items) => PlainItemsAreStripped(items);
    case VList(items) => PlainItemsAreStripped(items);
    case VSet(items) => PlainItemsAreStripped(items);
    case VMapping(entries) => PlainEntriesAreStripped(entries);
    case VDataclass(_, fields) => PlainFieldsAreStripped(fields);
    case _ =>
  }

  lemma {:induction false} PlainItemsAreStripped(items: seq<Value>)
    requires forall i :: 0 <= i < |items| ==> Plain(items[i])
    ensures StripAll(items) == items
    decreases items, 0
  {
    if items != [] {
      PlainIsStripped(items[0]);
      PlainItemsAreStripped(items[1..]);
    }
  }

  lemma {:induction false} PlainEntriesAreStripped(entries: seq<Entry>)
    requires forall i :: 0 <= i < |entries| ==> PlainEntry(entries[i])
    ensures StripEntries(entries) == entries
    decreases entries, 0
  {
    if entries != [] {
      PlainEntryIsStripped(entries[0]);
      PlainEntriesAreStripped(entries[1..]);
    }
  }

  lemma {:induction false} PlainEntryIsStripped(e: Entry)
    requires PlainEntry(e)
    ensures StripEntry(e) == e
    decreases e, 2
  {
    PlainIsStripped(e.key);
    PlainIsStripped(e.item);
  }

  lemma {:induction false} PlainFieldsAreStripped(fields: seq<Field>)
    requires forall i :: 0 <= i < |fields| ==> PlainField(fields[i])
    ensures StripFields(fields) == fields
    decreases fields, 0
  {
    if fields != [] {
      PlainFieldIsStripped(fields[0]);
      PlainFieldsAreStripped(fields[1..]);
    }
  }

  lemma {:induction false} PlainFieldIsStripped(f: Field)
    requires PlainField(f)
    ensures StripField(f) == f
    decreases f, 2
  {
    PlainIsStripped(f.item);
  }

  /** A full-length content ID over an injective digest separates exactly the values that
      differ without their secrets. */
  lemma ContentIdFaithful(v: Value, w: Value, order: Order, digest: Json -> string)
    requires TotalOrder(order) && Plain(Strip(v)) && Plain(Strip(w))
    requires forall a, b :: digest(a) == digest(b) ==> a == b
    ensures digest(Identity(v, order)) == digest(Identity(w, order)) <==> Denote(Strip(v)) == Denote(Strip(w))
  {
    StrippedFaithful(v, w, order);
  }
}
