/** Lowercase hexadecimal digests as text. */
module HexText {

  predicate HexDigit(c: char) {
    '0' <= c <= '9' || 'a' <= c <= 'f'
  }

  /** A SHA-256 in its one text form. */
  predicate ShaOk(s: string) {
    |s| == 64 && forall i :: 0 <= i < |s| ==> HexDigit(s[i])
  }
}
