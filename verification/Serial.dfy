/** A plain serialisation of lists of texts, with which concrete codecs and digests are
    built that meet everything asked of the abstract ones. */
module Serial {
  import opened Paths

  type Bytes = seq<bv8>

  /** `n` copies of a byte. */
  function Copies(n: nat): (bytes: Bytes)
    ensures |bytes| == n && forall i :: 0 <= i < n ==> bytes[i] == 2
  {
    if n == 0 then [] else Copies(n - 1) + [2]
  }

  function CharBytes(c: char): Bytes {
    Copies(c as int) + [3]
  }

  function TextBytes(s: string): (bytes: Bytes)
    ensures bytes != [] && bytes[0] != 0
  {
    if s == "" then [1] else CharBytes(s[0]) + TextBytes(s[1..])
  }

  function ListBytes(texts: seq<string>): (bytes: Bytes)
    ensures bytes != []
  {
    if texts == [] then [0] else TextBytes(texts[0]) + ListBytes(texts[1..])
  }

  function Serialise(lists: seq<seq<string>>): Bytes {
    if lists == [] then [] else ListBytes(lists[0]) + Serialise(lists[1..])
  }

  lemma CharCancels(c: char, d: char, x: Bytes, y: Bytes)
    requires CharBytes(c) + x == CharBytes(d) + y
    ensures c == d && x == y
  {
    var a, b := CharBytes(c) + x, CharBytes(d) + y;
    assert a[c as int] == 3 && b[d as int] == 3;
    assert forall i :: 0 <= i < c as int ==> a[i] == 2;
    assert forall i :: 0 <= i < d as int ==> b[i] == 2;
    assert x == a[c as int + 1..] && y == b[d as int + 1..];
  }

  lemma {:induction false} TextCancels(s: string, t: string, x: Bytes, y: Bytes)
    requires TextBytes(s) + x == TextBytes(t) + y
    ensures s == t && x == y
  {
    var a, b := TextBytes(s) + x, TextBytes(t) + y;
    assert s != "" ==> a[0] == CharBytes(s[0])[0] && a[0] != 1;
    assert t != "" ==> b[0] == CharBytes(t[0])[0] && b[0] != 1;
    assert s == "" ==> a[0] == 1;
    assert t == "" ==> b[0] == 1;
    if s == "" {
      assert x == a[1..] && y == b[1..];
    } else {
      assert a == CharBytes(s[0]) + (TextBytes(s[1..]) + x);
      assert b == CharBytes(t[0]) + (TextBytes(t[1..]) + y);
      CharCancels(s[0], t[0], TextBytes(s[1..]) + x, TextBytes(t[1..]) + y);
      TextCancels(s[1..], t[1..], x, y);
      assert s == [s[0]] + s[1..] && t == [t[0]] + t[1..];
    }
  }

  lemma {:induction false} ListCancels(s: seq<string>, t: seq<string>, x: Bytes, y: Bytes)
    requires ListBytes(s) + x == ListBytes(t) + y
    ensures s == t && x == y
  {
    var a, b := ListBytes(s) + x, ListBytes(t) + y;
    assert s != [] ==> a[0] == TextBytes(s[0])[0];
    assert t != [] ==> b[0] == TextBytes(t[0])[0];
    assert s == [] ==> a[0] == 0;
    assert t == [] ==> b[0] == 0;
    if s == [] {
      assert x == a[1..] && y == b[1..];
    } else {
      assert a == TextBytes(s[0]) + (ListBytes(s[1..]) + x);
      assert b == TextBytes(t[0]) + (ListBytes(t[1..]) + y);
      TextCancels(s[0], t[0], ListBytes(s[1..]) + x, ListBytes(t[1..]) + y);
      ListCancels(s[1..], t[1..], x, y);
      assert s == [s[0]] + s[1..] && t == [t[0]] + t[1..];
    }
  }

  /** Different lists of texts have different bytes. */
  lemma {:induction false} SerialiseInjective(a: seq<seq<string>>, b: seq<seq<string>>)
    ensures Serialise(a) == Serialise(b) <==> a == b
  {
    if Serialise(a) == Serialise(b) && a != [] && b != [] {
      ListCancels(a[0], b[0], Serialise(a[1..]), Serialise(b[1..]));
      SerialiseInjective(a[1..], b[1..]);
      assert a == [a[0]] + a[1..] && b == [b[0]] + b[1..];
    }
  }

  /** A number as a text of that length. */
  function Tally(n: nat): (text: string)
    ensures |text| == n
  {
    if n == 0 then "" else "1" + Tally(n - 1)
  }

  // ---------------------------------------------------------------- sizes

  lemma {:induction false} TextSize(s: string)
    requires forall i :: 0 <= i < |s| ==> s[i] as int < 512
    ensures |TextBytes(s)| <= 513 * |s| + 1
  {
    if s != "" {
      TextSize(s[1..]);
    }
  }

  // ---------------------------------------------------------------- a digest

  /** Each byte as a character beyond ASCII, so no digest holds a slash. */
  function Glyph(b: bv8): char {
    (256 + b as int) as char
  }

  function Digest(bytes: Bytes): (text: string)
    ensures |text| == |bytes| && forall i :: 0 <= i < |bytes| ==> text[i] == Glyph(bytes[i])
  {
    if bytes == [] then "" else [Glyph(bytes[0])] + Digest(bytes[1..])
  }

  lemma GlyphInjective(a: bv8, b: bv8)
    ensures Glyph(a) == Glyph(b) ==> a == b
  {
    assert (a as int) as bv8 == a && (b as int) as bv8 == b;
  }

  lemma GlyphIsPlain(a: bv8)
    ensures Glyph(a) != '/' && Glyph(a) as int < 512
  {
    assert a as int < 256;
  }

  lemma DigestInjective(a: Bytes, b: Bytes)
    ensures Digest(a) == Digest(b) ==> a == b
    ensures NoSlash(Digest(a)) && forall i :: 0 <= i < |a| ==> Digest(a)[i] as int < 512
  {
    forall i | 0 <= i < |a|
      ensures Digest(a)[i] != '/' && Digest(a)[i] as int < 512
    {
      GlyphIsPlain(a[i]);
    }
    if Digest(a) == Digest(b) {
      forall i | 0 <= i < |a|
        ensures a[i] == b[i]
      {
        assert Digest(a)[i] == Digest(b)[i];
        GlyphInjective(a[i], b[i]);
      }
    }
  }
}
