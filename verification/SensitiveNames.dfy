/** Names that must not reach an identity or an audit record: a case-insensitive
    search, with hyphens read as underscores, for any of a fixed list of parts. */
module SensitiveNames {
  import opened Texts

  const IDENTITY_PARTS := [
    "api_key", "apikey", "authorization", "credential", "password", "private_key", "secret",
    "access_token", "refresh_token", "request_token", "session_token", "auth_token"]

  const AUDIT_PARTS := IDENTITY_PARTS + ["cookie", "set_cookie"]

  function FoldedChar(c: char): char {
    if c == '-' then '_' else LowerChar(c)
  }

  function Fold(name: string): string {
    seq(|name|, i requires 0 <= i < |name| => FoldedChar(name[i]))
  }

  predicate IsSensitive(name: string, parts: seq<string>) {
    exists i :: 0 <= i < |parts| && Contains(Fold(name), parts[i])
  }

  // ---------------------------------------------------------------- what is sensitive

  /** The part stands somewhere in the name, once the name is folded. */
  ghost predicate Holds(name: string, part: string) {
    exists before, after :: Fold(name) == before + part + after
  }

  lemma ContainsIff(text: string, word: string)
    ensures Contains(text, word) <==> exists before, after :: text == before + word + after
  {
    if Contains(text, word) {
      var i :| 0 <= i <= |text| && StandsAt(text, word, i);
      assert text == text[..i] + word + text[i + |word|..];
    }
    if before, after :| text == before + word + after {
      assert StandsAt(text, word, |before|);
    }
  }

  /** A name is sensitive exactly when one of the parts stands anywhere in it. */
  lemma SensitiveIff(name: string, parts: seq<string>)
    ensures IsSensitive(name, parts) <==> exists i :: 0 <= i < |parts| && Holds(name, parts[i])
  {
    forall i | 0 <= i < |parts|
      ensures Contains(Fold(name), parts[i]) <==> Holds(name, parts[i])
    {
      ContainsIff(Fold(name), parts[i]);
    }
  }

  /** The same letter in either case, or either of hyphen and underscore. */
  predicate SameLetter(c: char, d: char) {
    || c == d
    || ('A' <= c <= 'Z' && d as int == c as int + 32) || ('A' <= d <= 'Z' && c as int == d as int + 32)
    || (c in "-_" && d in "-_")
  }

  /** Neither case nor the choice of hyphen hides a name. */
  lemma SpellingDoesNotMatter(name: string, other: string, parts: seq<string>)
    requires |name| == |other| && forall i :: 0 <= i < |name| ==> SameLetter(name[i], other[i])
    ensures Fold(name) == Fold(other)
    ensures IsSensitive(name, parts) == IsSensitive(other, parts)
  {
    forall i | 0 <= i < |name|
      ensures Fold(name)[i] == Fold(other)[i]
    {
      assert SameLetter(name[i], other[i]);
    }
  }

  /** A folded part is sensitive wherever it is put in a name. */
  lemma EmbeddedIsSensitive(before: string, i: nat, after: string, parts: seq<string>)
    requires i < |parts| && Fold(parts[i]) == parts[i]
    ensures IsSensitive(before + parts[i] + after, parts)
  {
    var name := before + parts[i] + after;
    assert Fold(name) == Fold(before) + parts[i] + Fold(after);
    assert Holds(name, parts[i]);
    SensitiveIff(name, parts);
  }
}
