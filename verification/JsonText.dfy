/** JSON as trees: text syntax is a parameter, objects keep the order and the repetition of
    their keys as the decoder's pair hook sees them. */
module JsonText {
  import opened Wrappers
  import opened StableSort

  type Bytes = seq<bv8>

  datatype Doc =
    | Null
    | Flag(b: bool)
    | Integer(n: int)
    | Text(s: string)
    | Items(items: seq<Doc>)
    | Fields(fields: seq<Field>)

  datatype Field = Field(key: string, value: Doc)

  /** Reading and writing text: reading what was written gives the tree back. */
  datatype Syntax = Syntax(parse: Bytes -> Option<Doc>, render: Doc -> Bytes)

  ghost predicate Sound(x: Syntax) {
    forall d :: x.parse(x.render(d)) == Some(d) && x.render(d) != []
  }

  predicate UniqueKeys(fields: seq<Field>) {
    forall i, j :: 0 <= i < j < |fields| ==> fields[i].key != fields[j].key
  }

  function Keys(fields: seq<Field>): set<string> {
    set i | 0 <= i < |fields| :: fields[i].key
  }

  /** The value of a key, `Null` when it is missing. */
  function At(fields: seq<Field>, key: string): Doc {
    if fields == [] then Null
    else if fields[0].key == key then fields[0].value
    else At(fields[1..], key)
  }

  function TextItems(values: seq<string>): (items: seq<Doc>)
    ensures |items| == |values| && forall i :: 0 <= i < |values| ==> items[i] == Text(values[i])
  {
    if values == [] then [] else [Text(values[0])] + TextItems(values[1..])
  }

  /** The texts of a list, when it is a list of texts. */
  function Texts(items: seq<Doc>): Option<seq<string>> {
    if items == [] then Some([])
    else
      match (items[0], Texts(items[1..]))
      case (Text(s), Some(rest)) => Some([s] + rest)
      case _ => None
  }

  lemma {:induction false} TextsOfItems(values: seq<string>)
    ensures Texts(TextItems(values)) == Some(values)
  {
    if values != [] {
      TextsOfItems(values[1..]);
      assert TextItems(values)[1..] == TextItems(values[1..]);
      assert values == [values[0]] + values[1..];
    }
  }

  /** Named values in the given order. */
  function Named(names: seq<string>, values: seq<Doc>): (fields: seq<Field>)
    requires |names| == |values|
    ensures |fields| == |names|
    ensures forall i :: 0 <= i < |names| ==> fields[i] == Field(names[i], values[i])
  {
    if names == [] then [] else [Field(names[0], values[0])] + Named(names[1..], values[1..])
  }

  /** With different names every value is found under its own name, and no other name is
      there. */
  lemma {:induction false} NamedFound(names: seq<string>, values: seq<Doc>)
    requires |names| == |values| && NoRepeats(names)
    ensures UniqueKeys(Named(names, values)) && Keys(Named(names, values)) == set n | n in names
    ensures forall i :: 0 <= i < |names| ==> At(Named(names, values), names[i]) == values[i]
  {
    if names != [] {
      NamedFound(names[1..], values[1..]);
      var fields := Named(names, values);
      forall i | 0 <= i < |names|
        ensures At(fields, names[i]) == values[i]
      {
        if i > 0 {
          assert names[1..][i - 1] == names[i] && fields[1..] == Named(names[1..], values[1..]);
        }
      }
      forall n
        ensures n in Keys(fields) <==> n in names
      {
        if n in names {
          var i :| 0 <= i < |names| && names[i] == n;
          assert fields[i].key == n;
        }
      }
    }
  }

  /** How much text a tree holds. */
  function TextSize(d: Doc): nat
    decreases d, 1
  {
    match d
    case Text(s) => |s|
    case Items(items) => ItemsSize(items)
    case Fields(fields) => FieldsSize(fields)
    case _ => 0
  }

  function ItemsSize(items: seq<Doc>): nat
    decreases items, 0
  {
    if items == [] then 0 else TextSize(items[0]) + ItemsSize(items[1..])
  }

  function FieldsSize(fields: seq<Field>): nat
    decreases fields, 0
  {
    if fields == [] then 0 else TextSize(fields[0].value) + FieldsSize(fields[1..])
  }

  lemma {:induction false} TextItemsSize(values: seq<string>, width: nat)
    requires forall i :: 0 <= i < |values| ==> |values[i]| == width
    ensures ItemsSize(TextItems(values)) == width * |values|
  {
    if values != [] {
      TextItemsSize(values[1..], width);
      assert TextItems(values)[1..] == TextItems(values[1..]);
    }
  }

  lemma {:induction false} FieldWithin(fields: seq<Field>, i: nat)
    requires i < |fields|
    ensures TextSize(fields[i].value) <= FieldsSize(fields)
  {
    if i > 0 {
      FieldWithin(fields[1..], i - 1);
    }
  }
}
