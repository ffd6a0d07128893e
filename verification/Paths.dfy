/** Component paths: joining and splitting on slashes, and the prefix-overlap test
    that both the cloud control and the slot supervisor apply. */
module Paths {

  type Path = seq<string>

  /** `_paths_overlap` and `_scopes_overlap`: the shorter is a prefix of the longer. */
  predicate Overlap(a: Path, b: Path) {
    if |a| <= |b| then b[..|a|] == a else a[..|b|] == b
  }

  /** `p` is `scope` or lies inside it. */
  predicate Covers(scope: Path, p: Path) {
    |scope| <= |p| && p[..|scope|] == scope
  }

  /** Two scopes overlap exactly when some path lies inside both. */
  lemma OverlapIffSharedPath(a: Path, b: Path)
    ensures Overlap(a, b) <==> exists p :: Covers(a, p) && Covers(b, p)
  {
    if Overlap(a, b) {
      var p := if |a| <= |b| then b else a;
      assert Covers(a, p) && Covers(b, p);
    }
    if p :| Covers(a, p) && Covers(b, p) {
      if |a| <= |b| {
        assert b[..|a|] == p[..|b|][..|a|] == p[..|a|];
      } else {
        assert a[..|b|] == p[..|a|][..|b|] == p[..|b|];
      }
    }
  }

  lemma OverlapCommutes(a: Path, b: Path)
    ensures Overlap(a, b) <==> Overlap(b, a)
  {
  }

  /** What overlaps a path inside a scope overlaps the scope. */
  lemma OverlapWiden(scope: Path, p: Path, q: Path)
    requires Covers(scope, p) && Overlap(p, q)
    ensures Overlap(scope, q)
  {
    OverlapIffSharedPath(p, q);
    var r :| Covers(p, r) && Covers(q, r);
    assert r[..|scope|] == r[..|p|][..|scope|];
    assert Covers(scope, r) && Covers(q, r);
    OverlapIffSharedPath(scope, q);
  }

  predicate NoSlash(s: string) {
    forall i :: 0 <= i < |s| ==> s[i] != '/'
  }

  /** `"/".join(segments)`. */
  function Join(segments: seq<string>): string {
    if segments == [] then ""
    else if |segments| == 1 then segments[0]
    else segments[0] + "/" + Join(segments[1..])
  }

  /** `text.split("/")`: always at least one, possibly empty, segment. */
  function Split(text: string): (segments: seq<string>)
    ensures segments != []
  {
    if text == "" then [""]
    else
      var rest := Split(text[1..]);
      if text[0] == '/' then [""] + rest
      else [[text[0]] + rest[0]] + rest[1..]
  }

  lemma {:induction false} SplitSegment(s: string, rest: string)
    requires NoSlash(s)
    ensures Split(s + "/" + rest) == [s] + Split(rest)
  {
    var text := s + "/" + rest;
    if s == "" {
      assert text == ['/'] + rest;
      assert text[1..] == rest;
    } else {
      SplitSegment(s[1..], rest);
      assert text[1..] == s[1..] + "/" + rest;
      assert [s[0]] + s[1..] == s;
    }
  }

  lemma {:induction false} SplitWhole(s: string)
    requires NoSlash(s)
    ensures Split(s) == [s]
  {
    if s != "" {
      SplitWhole(s[1..]);
      assert [s[0]] + s[1..] == s;
    }
  }

  /** Splitting a joined path gives back its segments. */
  lemma {:induction false} SplitJoin(segments: seq<string>)
    requires segments != [] && forall i :: 0 <= i < |segments| ==> NoSlash(segments[i])
    ensures Split(Join(segments)) == segments
  {
    if |segments| == 1 {
      SplitWhole(segments[0]);
    } else {
      SplitJoin(segments[1..]);
      SplitSegment(segments[0], Join(segments[1..]));
    }
  }

  lemma JoinInjective(a: seq<string>, b: seq<string>)
    requires a != [] && b != []
    requires forall i :: 0 <= i < |a| ==> NoSlash(a[i])
    requires forall i :: 0 <= i < |b| ==> NoSlash(b[i])
    ensures Join(a) == Join(b) <==> a == b
  {
    SplitJoin(a);
    SplitJoin(b);
  }

  lemma {:induction false} SplitHasNoSlash(text: string)
    ensures forall i :: 0 <= i < |Split(text)| ==> NoSlash(Split(text)[i])
  {
    if text != "" {
      SplitHasNoSlash(text[1..]);
    }
  }

  /** Joining the segments of a text gives back the text. */
  lemma {:induction false} JoinSplit(text: string)
    ensures Join(Split(text)) == text
  {
    if text != "" {
      JoinSplit(text[1..]);
      var rest := Split(text[1..]);
      if text[0] == '/' {
        assert ([""] + rest)[1..] == rest;
        assert text == "" + "/" + text[1..];
      } else {
        var s := [[text[0]] + rest[0]] + rest[1..];
        assert s[1..] == rest[1..];
        assert text == [text[0]] + text[1..];
      }
    }
  }
}
