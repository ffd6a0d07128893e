/** The identity walk as it runs: over a heap of objects that may contain cycles,
    with one set of the objects on the current path. */
module IdentityWalk {
  import opened Wrappers
  import opened Finite
  import opened SensitiveNames
  import opened StableSort
  import opened CanonicalIdentity

  type Ref = nat

  datatype Kind = Tuple | List | Set

  datatype Node =
    | Scalar(value: Value)
    | Sequence(kind: Kind, items: seq<Ref>)
    | Mapping(entries: seq<(Ref, Ref)>)
    | Dataclass(name: string, fields: seq<(string, Ref)>)

  type Heap = map<Ref, Node>

  ghost predicate Closed(h: Heap) {
    forall r :: r in h ==> NodeClosed(h, h[r])
  }

  ghost predicate NodeClosed(h: Heap, n: Node) {
    match n
    case Scalar(_) => true
    case Mapping(entries) => forall i :: 0 <= i < |entries| ==> entries[i].0 in h && entries[i].1 in h
    case Dataclass(_, fields) => forall i :: 0 <= i < |fields| ==> fields[i].1 in h
    case Sequence(_, items) => forall i :: 0 <= i < |items| ==> items[i] in h
  }

  function TypeName(n: Node): string {
    match n
    case Scalar(_) => "scalar"
    case Sequence(kind, _) =>
      if kind.Tuple? then "builtins.tuple" else if kind.List? then "builtins.list" else "builtins.set"
    case Mapping(_) => "builtins.dict"
    case Dataclass(name, _) => name
  }

  function SequenceTree(kind: Kind, trees: seq<Json>, order: Order): Json {
    match kind
    case Tuple => Tagged("$tuple", JArr(trees))
    case List => Tagged("$list", JArr(trees))
    case Set => Tagged("$set", JArr(Sort(trees, order)))
  }

  function SequenceValue(kind: Kind, items: seq<Value>): Value {
    match kind
    case Tuple => VTuple(items)
    case List => VList(items)
    case Set => VSet(items)
  }

  predicate DroppedRef(h: Heap, key: Ref)
    requires key in h
  {
    h[key].Scalar? && Dropped(h[key].value)
  }

  /** The tree the walk yields, as a function of the heap and of the path so far. */
  function TreeAt(h: Heap, r: Ref, path: set<Ref>, order: Order): Json
    requires Closed(h) && r in h && path <= h.Keys
    decreases |h.Keys - path|, 0, 0
  {
    if h[r].Scalar? then Identity(h[r].value, order)
    else if r in path then Tagged("$cycle", JStr(TypeName(h[r])))
    else
      assert NodeClosed(h, h[r]);
      PathGrows(h, r, path);
      NodeTree(h, h[r], path + {r}, order)
  }

  /** The tree of an object whose own reference is already on the path. */
  function NodeTree(h: Heap, n: Node, path: set<Ref>, order: Order): Json
    requires Closed(h) && NodeClosed(h, n) && path <= h.Keys
    decreases |h.Keys - path|, 2, 0
  {
    match n
    case Scalar(v) => Identity(v, order)
    case Sequence(kind, items) => SequenceTree(kind, TreesAt(h, items, path, order), order)
    case Mapping(entries) =>
      Tagged("$mapping", JArr(Rows(Sort(PairsAt(h, entries, path, order), PairOrder(order)))))
    case Dataclass(name, fields) => DataclassTree(name, FieldsAt(h, fields, path, order))
  }

  function TreesAt(h: Heap, items: seq<Ref>, path: set<Ref>, order: Order): seq<Json>
    requires Closed(h) && path <= h.Keys && forall i :: 0 <= i < |items| ==> items[i] in h
    decreases |h.Keys - path|, 1, |items|
  {
    if items == [] then [] else [TreeAt(h, items[0], path, order)] + TreesAt(h, items[1..], path, order)
  }

  function PairsAt(h: Heap, entries: seq<(Ref, Ref)>, path: set<Ref>, order: Order): seq<(Json, Json)>
    requires Closed(h) && path <= h.Keys
    requires forall i :: 0 <= i < |entries| ==> entries[i].0 in h && entries[i].1 in h
    decreases |h.Keys - path|, 1, |entries|
  {
    if entries == [] then []
    else
      var rest := PairsAt(h, entries[1..], path, order);
      if DroppedRef(h, entries[0].0) then rest
      else [(TreeAt(h, entries[0].0, path, order), TreeAt(h, entries[0].1, path, order))] + rest
  }

  function FieldsAt(h: Heap, fields: seq<(string, Ref)>, path: set<Ref>, order: Order): seq<(string, Json)>
    requires Closed(h) && path <= h.Keys && forall i :: 0 <= i < |fields| ==> fields[i].1 in h
    decreases |h.Keys - path|, 1, |fields|
  {
    if fields == [] then []
    else
      var rest := FieldsAt(h, fields[1..], path, order);
      if IsSensitive(fields[0].0, IDENTITY_PARTS) then rest
      else [(fields[0].0, TreeAt(h, fields[0].1, path, order))] + rest
  }

  /** The acyclic value an object denotes, if no path below it meets a cycle. */
  ghost function Unfold(h: Heap, r: Ref, path: set<Ref>): Option<Value>
    requires Closed(h) && r in h && path <= h.Keys
    decreases |h.Keys - path|, 0, 0
  {
    if h[r].Scalar? then Some(h[r].value)
    else if r in path then None
    else
      assert NodeClosed(h, h[r]);
      PathGrows(h, r, path);
      UnfoldNode(h, h[r], path + {r})
  }

  ghost function UnfoldNode(h: Heap, n: Node, path: set<Ref>): Option<Value>
    requires Closed(h) && NodeClosed(h, n) && path <= h.Keys
    decreases |h.Keys - path|, 2, 0
  {
    match n
    case Scalar(v) => Some(v)
    case Mapping(entries) =>
      var r := UnfoldEntries(h, entries, path);
      if r.None? then None else Some(VMapping(r.value))
    case Dataclass(name, fields) =>
      var r := UnfoldFields(h, fields, path);
      if r.None? then None else Some(VDataclass(name, r.value))
    case Sequence(kind, items) =>
      var r := UnfoldAll(h, items, path);
      if r.None? then None else Some(SequenceValue(kind, r.value))
  }

  ghost function UnfoldAll(h: Heap, items: seq<Ref>, path: set<Ref>): Option<seq<Value>>
    requires Closed(h) && path <= h.Keys && forall i :: 0 <= i < |items| ==> items[i] in h
    decreases |h.Keys - path|, 1, |items|
  {
    if items == [] then Some([])
    else
      var v, rest := Unfold(h, items[0], path), UnfoldAll(h, items[1..], path);
      if v.None? || rest.None? then None else Some([v.value] + rest.value)
  }

  ghost function UnfoldEntries(h: Heap, entries: seq<(Ref, Ref)>, path: set<Ref>): Option<seq<Entry>>
    requires Closed(h) && path <= h.Keys
    requires forall i :: 0 <= i < |entries| ==> entries[i].0 in h && entries[i].1 in h
    decreases |h.Keys - path|, 1, |entries|
  {
    if entries == [] then Some([])
    else
      var k, v := Unfold(h, entries[0].0, path), Unfold(h, entries[0].1, path);
      var rest := UnfoldEntries(h, entries[1..], path);
      if k.None? || v.None? || rest.None? then None else Some([Entry(k.value, v.value)] + rest.value)
  }

  ghost function UnfoldFields(h: Heap, fields: seq<(string, Ref)>, path: set<Ref>): Option<seq<Field>>
    requires Closed(h) && path <= h.Keys && forall i :: 0 <= i < |fields| ==> fields[i].1 in h
    decreases |h.Keys - path|, 1, |fields|
  {
    if fields == [] then Some([])
    else
      var v, rest := Unfold(h, fields[0].1, path), UnfoldFields(h, fields[1..], path);
      if v.None? || rest.None? then None else Some([Field(fields[0].0, v.value)] + rest.value)
  }

  /** Only scalars of a mapping's keys can be sensitive strings, cyclic or not. */
  lemma DroppedAgrees(h: Heap, key: Ref, path: set<Ref>)
    requires Closed(h) && key in h && path <= h.Keys && Unfold(h, key, path).Some?
    ensures Dropped(Unfold(h, key, path).value) == DroppedRef(h, key)
  {
  }

  /** Where the heap below an object is acyclic, its identity is that of the value it
      unfolds to: addresses and sharing leave no trace. */
  lemma {:induction false} TreeOfUnfolding(h: Heap, r: Ref, path: set<Ref>, order: Order)
    requires Closed(h) && r in h && path <= h.Keys && Unfold(h, r, path).Some?
    ensures TreeAt(h, r, path, order) == Identity(Unfold(h, r, path).value, order)
    decreases |h.Keys - path|, 0, 0
  {
    if !h[r].Scalar? {
      assert NodeClosed(h, h[r]);
      PathGrows(h, r, path);
      NodeOfUnfolding(h, h[r], path + {r}, order);
    }
  }

  lemma SequenceAgrees(kind: Kind, values: seq<Value>, order: Order)
    ensures SequenceTree(kind, IdentityAll(values, order), order) == Identity(SequenceValue(kind, values), order)
  {
  }

  lemma {:induction false} NodeOfUnfolding(h: Heap, n: Node, path: set<Ref>, order: Order)
    requires Closed(h) && NodeClosed(h, n) && path <= h.Keys && UnfoldNode(h, n, path).Some?
    ensures NodeTree(h, n, path, order) == Identity(UnfoldNode(h, n, path).value, order)
    decreases |h.Keys - path|, 2, 0
  {
    match n
    case Scalar(_) =>
    case Mapping(entries) => PairsOfUnfolding(h, entries, path, order);
    case Dataclass(_, fields) => FieldsOfUnfolding(h, fields, path, order);
    case Sequence(kind, items) =>
      TreesOfUnfolding(h, items, path, order);
      SequenceAgrees(kind, UnfoldAll(h, items, path).value, order);
  }

  lemma {:induction false} TreesOfUnfolding(h: Heap, items: seq<Ref>, path: set<Ref>, order: Order)
    requires Closed(h) && path <= h.Keys && forall i :: 0 <= i < |items| ==> items[i] in h
    requires UnfoldAll(h, items, path).Some?
    ensures TreesAt(h, items, path, order) == IdentityAll(UnfoldAll(h, items, path).value, order)
    decreases |h.Keys - path|, 1, |items|
  {
    if items != [] {
      TreeOfUnfolding(h, items[0], path, order);
      TreesOfUnfolding(h, items[1..], path, order);
      var values := UnfoldAll(h, items, path).value;
      assert values[1..] == UnfoldAll(h, items[1..], path).value;
    }
  }

  lemma {:induction false} PairsOfUnfolding(h: Heap, entries: seq<(Ref, Ref)>, path: set<Ref>, order: Order)
    requires Closed(h) && path <= h.Keys
    requires forall i :: 0 <= i < |entries| ==> entries[i].0 in h && entries[i].1 in h
    requires UnfoldEntries(h, entries, path).Some?
    ensures PairsAt(h, entries, path, order) == IdentityPairs(UnfoldEntries(h, entries, path).value, order)
    decreases |h.Keys - path|, 1, |entries|
  {
    if entries != [] {
      TreeOfUnfolding(h, entries[0].0, path, order);
      TreeOfUnfolding(h, entries[0].1, path, order);
      DroppedAgrees(h, entries[0].0, path);
      PairsOfUnfolding(h, entries[1..], path, order);
      var values := UnfoldEntries(h, entries, path).value;
      assert values[1..] == UnfoldEntries(h, entries[1..], path).value;
    }
  }

  lemma {:induction false} FieldsOfUnfolding(h: Heap, fields: seq<(string, Ref)>, path: set<Ref>, order: Order)
    requires Closed(h) && path <= h.Keys && forall i :: 0 <= i < |fields| ==> fields[i].1 in h
    requires UnfoldFields(h, fields, path).Some?
    ensures FieldsAt(h, fields, path, order) == IdentityFields(UnfoldFields(h, fields, path).value, order)
    decreases |h.Keys - path|, 1, |fields|
  {
    if fields != [] {
      TreeOfUnfolding(h, fields[0].1, path, order);
      FieldsOfUnfolding(h, fields[1..], path, order);
      var values := UnfoldFields(h, fields, path).value;
      assert values[1..] == UnfoldFields(h, fields[1..], path).value;
    }
  }

  lemma {:induction false} TreesSnoc(h: Heap, items: seq<Ref>, r: Ref, path: set<Ref>, order: Order)
    requires Closed(h) && path <= h.Keys && r in h && forall i :: 0 <= i < |items| ==> items[i] in h
    ensures TreesAt(h, items + [r], path, order) == TreesAt(h, items, path, order) + [TreeAt(h, r, path, order)]
    decreases |items|
  {
    if items != [] {
      TreesSnoc(h, items[1..], r, path, order);
      assert (items + [r])[1..] == items[1..] + [r];
    }
  }

  lemma {:induction false} PairsSnoc(h: Heap, entries: seq<(Ref, Ref)>, e: (Ref, Ref), path: set<Ref>, order: Order)
    requires Closed(h) && path <= h.Keys && e.0 in h && e.1 in h
    requires forall i :: 0 <= i < |entries| ==> entries[i].0 in h && entries[i].1 in h
    ensures PairsAt(h, entries + [e], path, order)
         == PairsAt(h, entries, path, order) + PairsAt(h, [e], path, order)
    decreases |entries|
  {
    if entries == [] {
      assert entries + [e] == [e];
    } else {
      PairsSnoc(h, entries[1..], e, path, order);
      assert (entries + [e])[1..] == entries[1..] + [e];
    }
  }

  lemma {:induction false} FieldsSnoc(
    h: Heap, fields: seq<(string, Ref)>, f: (string, Ref), path: set<Ref>, order: Order)
    requires Closed(h) && path <= h.Keys && f.1 in h && forall i :: 0 <= i < |fields| ==> fields[i].1 in h
    ensures FieldsAt(h, fields + [f], path, order)
         == FieldsAt(h, fields, path, order) + FieldsAt(h, [f], path, order)
    decreases |fields|
  {
    if fields == [] {
      assert fields + [f] == [f];
    } else {
      FieldsSnoc(h, fields[1..], f, path, order);
      assert (fields + [f])[1..] == fields[1..] + [f];
    }
  }

  /** `_identity_value`: one mutable path set, entered and left around every object. */
  class IdentityWalker {
    var path: set<Ref>

    constructor ()
      ensures path == {}
    {
      path := {};
    }

    method Walk(h: Heap, r: Ref, order: Order) returns (t: Json)
      requires Closed(h) && r in h && path <= h.Keys
      modifies this
      ensures path == old(path) && t == TreeAt(h, r, path, order)
      decreases |h.Keys - path|, 0
    {
      if h[r].Scalar? {
        t := Identity(h[r].value, order);
      } else if r in path {
        t := Tagged("$cycle", JStr(TypeName(h[r])));
      } else {
        ghost var before := path;
        PathGrows(h, r, path);
        assert NodeClosed(h, h[r]);
        path := path + {r};
        t := WalkNode(h, h[r], order);
        path := path - {r};
        assert path == before;
      }
    }

    method WalkNode(h: Heap, n: Node, order: Order) returns (t: Json)
      requires Closed(h) && NodeClosed(h, n) && path <= h.Keys
      modifies this
      ensures path == old(path) && t == NodeTree(h, n, path, order)
      decreases |h.Keys - path|, 2
    {
      match n {
        case Scalar(v) =>
          t := Identity(v, order);
        case Sequence(kind, items) =>
          var trees := WalkAll(h, items, order);
          t := SequenceTree(kind, trees, order);
        case Mapping(entries) =>
          var pairs := WalkPairs(h, entries, order);
          t := Tagged("$mapping", JArr(Rows(Sort(pairs, PairOrder(order)))));
        case Dataclass(name, fields) =>
          var members := WalkFields(h, fields, order);
          t := DataclassTree(name, members);
      }
    }

    method WalkAll(h: Heap, items: seq<Ref>, order: Order) returns (trees: seq<Json>)
      requires Closed(h) && path <= h.Keys && forall i :: 0 <= i < |items| ==> items[i] in h
      modifies this
      ensures path == old(path) && trees == TreesAt(h, items, path, order)
      decreases |h.Keys - path|, 1
    {
      trees := [];
      for i := 0 to |items|
        invariant path == old(path) && trees == TreesAt(h, items[..i], path, order)
      {
        var t := Walk(h, items[i], order);
        trees := trees + [t];
        TreesSnoc(h, items[..i], items[i], path, order);
        assert items[..i + 1] == items[..i] + [items[i]];
      }
      assert items[..|items|] == items;
    }

    method WalkPairs(h: Heap, entries: seq<(Ref, Ref)>, order: Order) returns (pairs: seq<(Json, Json)>)
      requires Closed(h) && path <= h.Keys
      requires forall i :: 0 <= i < |entries| ==> entries[i].0 in h && entries[i].1 in h
      modifies this
      ensures path == old(path) && pairs == PairsAt(h, entries, path, order)
      decreases |h.Keys - path|, 1
    {
      pairs := [];
      for i := 0 to |entries|
        invariant path == old(path) && pairs == PairsAt(h, entries[..i], path, order)
      {
        PairsSnoc(h, entries[..i], entries[i], path, order);
        assert entries[..i + 1] == entries[..i] + [entries[i]];
        if !DroppedRef(h, entries[i].0) {
          var k := Walk(h, entries[i].0, order);
          var v := Walk(h, entries[i].1, order);
          pairs := pairs + [(k, v)];
        }
      }
      assert entries[..|entries|] == entries;
    }

    method WalkFields(h: Heap, fields: seq<(string, Ref)>, order: Order) returns (members: seq<(string, Json)>)
      requires Closed(h) && path <= h.Keys && forall i :: 0 <= i < |fields| ==> fields[i].1 in h
      modifies this
      ensures path == old(path) && members == FieldsAt(h, fields, path, order)
      decreases |h.Keys - path|, 1
    {
      members := [];
      for i := 0 to |fields|
        invariant path == old(path) && members == FieldsAt(h, fields[..i], path, order)
      {
        FieldsSnoc(h, fields[..i], fields[i], path, order);
        assert fields[..i + 1] == fields[..i] + [fields[i]];
        if !IsSensitive(fields[i].0, IDENTITY_PARTS) {
          var t := Walk(h, fields[i].1, order);
          members := members + [(fields[i].0, t)];
        }
      }
      assert fields[..|fields|] == fields;
    }
  }
}
