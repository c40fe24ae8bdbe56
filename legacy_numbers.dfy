/** The two text-to-number conversions of the older front end: Rust's
    `f64::from_str`, used by the scanner on a NUMBER lexeme and by the
    parser's `expression`, and `usize::from_str`, used for a VARCHAR size
    (src/parser/scanner.rs, src/parser/mod.rs). Only whether the text is
    accepted, and the `usize` value, are modelled; the `f64` value is kept as
    its text. */
module LegacyNumbers {
  import opened Wrappers
  import opened Ascii

  predicate AllDigits(s: string) {
    forall i :: 0 <= i < |s| ==> IsDigit(s[i])
  }

  predicate IsSign(c: char) { c == '+' || c == '-' }

  /** The index of the first character with property `p`, or `|s|`. */
  function FirstOf(s: string, p: char -> bool): (r: nat)
    ensures r <= |s|
    ensures forall i :: 0 <= i < r ==> !p(s[i])
    ensures r < |s| ==> p(s[r])
  {
    if s == [] then 0
    else if p(s[0]) then 0
    else 1 + FirstOf(s[1..], p)
  }

  /** `Digit+ | Digit+ '.' Digit* | Digit* '.' Digit+`. */
  predicate IsMantissa(m: string) {
    var dot := FirstOf(m, c => c == '.');
    AllDigits(m[..dot]) && (dot == |m| || AllDigits(m[dot + 1..])) && (dot > 0 || dot + 1 < |m|)
  }

  /** What follows the `e`: `Sign? Digit+`. */
  predicate IsExponent(e: string) {
    var digits := if |e| > 0 && IsSign(e[0]) then e[1..] else e;
    |digits| > 0 && AllDigits(digits)
  }

  /** The text `f64::from_str` accepts: a sign, then `inf`, `infinity` or
      `nan` in any case, or a mantissa and an optional exponent. No
      whitespace is allowed anywhere. */
  predicate IsFloatText(s: string) {
    var body := if |s| > 0 && IsSign(s[0]) then s[1..] else s;
    var word := ToUpper(body);
    word == "INF" || word == "INFINITY" || word == "NAN" ||
    (var e := FirstOf(body, c => c == 'e' || c == 'E');
     IsMantissa(body[..e]) && (e == |body| || IsExponent(body[e + 1..])))
  }

  /** The number a string of decimal digits denotes. */
  function DigitsValue(s: string): (r: nat)
    requires AllDigits(s)
  {
    if s == [] then 0 else DigitsValue(s[..|s| - 1]) * 10 + (s[|s| - 1] as int - '0' as int)
  }

  /** `usize` on the 64-bit targets the source is built for. */
  const UsizeLimit: nat := 0x1_0000_0000_0000_0000

  /** `usize::from_str`: an optional `+`, then at least one digit, and a
      value below 2^64; anything else (a `-`, a `.`, an overflow) is an
      error. */
  function ParseUsize(s: string): (r: Option<nat>)
    ensures r.Some? ==> r.value < UsizeLimit
    ensures r.Some? ==> exists digits :: (s == digits || s == "+" + digits) && |digits| > 0 && AllDigits(digits)
  {
    var digits := if |s| > 0 && s[0] == '+' then s[1..] else s;
    assert s == digits || s == "+" + digits;
    if |digits| > 0 && AllDigits(digits) && DigitsValue(digits) < UsizeLimit then Some(DigitsValue(digits)) else None
  }

  /** The shortest decimal text of `n`: a partner of `ParseUsize`. */
  function DecimalText(n: nat): (r: string)
    ensures |r| > 0 && AllDigits(r)
  {
    var last := [('0' as int + n % 10) as char];
    if n < 10 then last else DecimalText(n / 10) + last
  }

  lemma {:induction false} DecimalTextValue(n: nat)
    ensures DigitsValue(DecimalText(n)) == n
  {
    var last := [('0' as int + n % 10) as char];
    if n >= 10 {
      DecimalTextValue(n / 10);
      var t := DecimalText(n / 10) + last;
      assert t[..|t| - 1] == DecimalText(n / 10);
    }
  }

  /** Every `usize` is read back from its decimal text, with or without a
      leading `+`. */
  lemma UsizeRoundTrip(n: nat)
    requires n < UsizeLimit
    ensures ParseUsize(DecimalText(n)) == Some(n)
    ensures ParseUsize("+" + DecimalText(n)) == Some(n)
  {
    DecimalTextValue(n);
    assert ("+" + DecimalText(n))[1..] == DecimalText(n);
  }

  /** 2^64 does not fit: `usize::from_str` reports the overflow. */
  lemma UsizeOverflows()
    ensures ParseUsize(DecimalText(UsizeLimit)) == None
  {
    DecimalTextValue(UsizeLimit);
  }

  /** Text with a fraction, or with a sign other than `+`, is no `usize`. */
  lemma UsizeRejects(whole: string, fraction: string)
    requires AllDigits(whole) && AllDigits(fraction)
    ensures ParseUsize(whole + "." + fraction) == None
    ensures ParseUsize("-" + whole) == None
  {
    var s := whole + "." + fraction;
    assert s[|whole|] == '.';
    assert s[0] == if |whole| > 0 then whole[0] else '.';
    assert !IsDigit(s[|whole|]);
    var m := "-" + whole;
    assert m[0] == '-' && !IsDigit(m[0]);
  }

  /** The scanner's numbers, digits with an optional `.` and more digits,
      are always accepted by `f64::from_str`. */
  lemma ScannedNumberIsFloat(whole: string, fraction: string)
    requires |whole| > 0 && AllDigits(whole) && AllDigits(fraction)
    ensures IsFloatText(whole)
    ensures |fraction| > 0 ==> IsFloatText(whole + "." + fraction)
  {
    WholeIsFloat(whole);
    if |fraction| > 0 {
      var s := whole + "." + fraction;
      assert !IsSign(s[0]) && ToUpper(s)[0] == Upper(s[0]);
      NoExponent(s);
      assert FirstOf(s, c => c == '.') == |whole| by {
        FirstDot(whole, fraction);
      }
      assert s[..|whole|] == whole && s[|whole| + 1..] == fraction;
      assert s[..|s|] == s;
    }
  }

  lemma WholeIsFloat(whole: string)
    requires |whole| > 0 && AllDigits(whole)
    ensures IsFloatText(whole)
  {
    assert !IsSign(whole[0]) && ToUpper(whole)[0] == Upper(whole[0]);
    NoExponent(whole);
    assert FirstOf(whole, c => c == '.') == |whole|;
    assert whole[..|whole|] == whole;
  }

  lemma NoExponent(s: string)
    requires forall i :: 0 <= i < |s| ==> IsDigit(s[i]) || s[i] == '.'
    ensures FirstOf(s, c => c == 'e' || c == 'E') == |s|
  {
  }

  lemma FirstDot(whole: string, fraction: string)
    requires AllDigits(whole)
    ensures FirstOf(whole + "." + fraction, c => c == '.') == |whole|
  {
    var s := whole + "." + fraction;
    assert s[|whole|] == '.';
    assert forall i :: 0 <= i < |whole| ==> s[i] == whole[i];
  }
}
