/** ASCII character classes and upper-casing. Both scanners take Rust's
    `is_whitespace`, `is_numeric`, `is_alphanumeric` and `to_uppercase` on
    their ASCII range only. */
module Ascii {
  predicate IsDigit(c: char) { '0' <= c <= '9' }

  predicate IsAlpha(c: char) { 'a' <= c <= 'z' || 'A' <= c <= 'Z' }

  predicate IsAlphaNumeric(c: char) { IsAlpha(c) || IsDigit(c) }

  /** Characters that may continue a word. */
  predicate IsWordChar(c: char) { IsAlphaNumeric(c) || c == '_' }

  /** ASCII whitespace: space, and tab through carriage return. */
  predicate IsWhitespace(c: char) { c == ' ' || '\t' <= c <= '\r' }

  function Upper(c: char): (r: char)
    ensures IsAlpha(c) <==> IsAlpha(r)
    ensures IsWordChar(c) <==> IsWordChar(r)
    ensures !('a' <= r <= 'z')
  {
    if 'a' <= c <= 'z' then (c as int - 32) as char else c
  }

  /** `to_uppercase` on ASCII text. */
  function ToUpper(s: string): (r: string)
    ensures |r| == |s|
    ensures forall i :: 0 <= i < |s| ==> r[i] == Upper(s[i])
  {
    if s == [] then [] else [Upper(s[0])] + ToUpper(s[1..])
  }
}
