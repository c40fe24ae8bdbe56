/** Properties of the older scanner (src/parser/scanner.rs), proved about
    the functions of `LegacyLex` that the `Scanner` class is proved to
    follow. */
module LegacyLexFacts {
  import opened Wrappers
  import opened Ascii
  import opened LegacyTokens
  import opened LegacyLex
  import opened LegacyNumbers

  /** `src[from..to]` is a run of characters with property `p` that ends at
      the end of the source or before a character without `p`. */
  predicate Run(src: string, from: nat, to: nat, p: char -> bool) {
    from <= to <= |src|
    && (forall i :: from <= i < to ==> p(src[i]))
    && (to == |src| || !p(src[to]))
  }

  /** Skipping over a run moves the cursor to its end and nothing else. */
  lemma {:induction false} SkipRun(src: string, s: Scan, p: char -> bool, to: nat)
    requires Within(src, s) && !p('\0') && Run(src, s.current, to, p)
    ensures SkipWhile(src, s, p) == s.(current := to)
    decreases |src| - s.current
  {
    if s.current < to {
      SkipRun(src, s.(current := s.current + 1), p, to);
    }
  }

  /** The state in which `scan_tokens` calls `scan_token`. */
  function Begin(s: Scan): Scan {
    s.(start := s.current)
  }

  /** A digit starts a number: the longest run of digits, then a `.` and a
      second run only when a digit follows the `.`. */
  lemma WholeNumber(src: string, s: Scan, end: nat)
    requires Within(src, s) && s.current < end && Run(src, s.current, end, IsDigit)
    requires !(end + 1 < |src| && src[end] == '.' && IsDigit(src[end + 1]))
    ensures var text := src[s.current..end];
            ScanToken(src, Begin(s))
            == Ok(Scan(s.current, end, s.line, s.tokens + [Token(Number, text, Some(NumberValue(text)))]))
  {
    var next := Begin(s).(current := s.current + 1);
    SkipRun(src, next, IsDigit, end);
    assert Peek(src, next.(current := end)) != '.' || !IsDigit(PeekNext(src, next.(current := end)));
  }

  lemma FractionalNumber(src: string, s: Scan, dot: nat, end: nat)
    requires Within(src, s) && s.current < dot && Run(src, s.current, dot, IsDigit)
    requires Run(src, dot + 1, end, IsDigit) && dot + 1 < end && src[dot] == '.'
    ensures var text := src[s.current..end];
            ScanToken(src, Begin(s))
            == Ok(Scan(s.current, end, s.line, s.tokens + [Token(Number, text, Some(NumberValue(text)))]))
  {
    var next := Begin(s).(current := s.current + 1);
    SkipRun(src, next, IsDigit, dot);
    var whole := next.(current := dot);
    assert Peek(src, whole) == '.' && IsDigit(PeekNext(src, whole));
    SkipRun(src, whole.(current := dot + 1), IsDigit, end);
    var text := src[s.current..end];
    assert ScanNumber(src, next)
        == AddToken(src, whole.(current := end), Number, Some(NumberValue(text)));
  }

  /** A letter starts a word of letters, digits and `_`: its upper-cased
      text picks the keyword, while the lexeme keeps the source's case. */
  lemma Word(src: string, s: Scan, end: nat)
    requires Within(src, s) && Run(src, s.current + 1, end, IsWordChar) && IsAlpha(src[s.current])
    ensures var text := src[s.current..end];
            ScanToken(src, Begin(s))
            == Ok(Scan(s.current, end, s.line, s.tokens + [Token(KeywordType(ToUpper(text)), text, None)]))
  {
    var next := Begin(s).(current := s.current + 1);
    SkipRun(src, next, IsWordChar, end);
    assert !IsDigit(src[s.current]);
  }

  /** `( ) * , ; > < =` are one token each, whatever follows them. */
  lemma PunctuationToken(src: string, s: Scan)
    requires Within(src, s) && s.current < |src| && Punctuation(src[s.current]).Some?
    ensures var c := src[s.current];
            ScanToken(src, Begin(s))
            == Ok(Scan(s.current, s.current + 1, s.line, s.tokens + [Tok(Punctuation(c).value, [c])]))
  {
    assert src[s.current..s.current + 1] == [src[s.current]];
  }

  /** A keyword is found whatever the case of its letters. */
  lemma KeywordsIgnoreCase()
    ensures KeywordType(ToUpper("select")) == Select
    ensures KeywordType(ToUpper("users")) == Identifier
  {
    assert ToUpper("select") == "SELECT";
    assert ToUpper("users") == "USERS";
  }

  lemma {:induction false} SkipsToQuote(src: string, s: Scan, close: nat)
    requires Within(src, s) && s.current <= close < |src| && src[close] == '\''
    requires forall i :: s.current <= i < close ==> src[i] != '\''
    ensures SkipToQuote(src, s) == Ok(s.(current := close))
    decreases |src| - s.current
  {
    if s.current < close {
      SkipsToQuote(src, s.(current := s.current + 1), close);
    }
  }

  /** A quoted string is an IDENTIFIER token whose lexeme, and boxed value,
      run from the opening quote over the closing one: the quotes stay in. */
  lemma QuotedString(src: string, s: Scan, close: nat)
    requires Within(src, s) && s.current < close < |src|
    requires src[s.current] == '\'' && src[close] == '\''
    requires forall i :: s.current < i < close ==> src[i] != '\''
    ensures var text := src[s.current..close + 1];
            ScanToken(src, Begin(s))
            == Ok(Scan(s.current, close + 1, s.line, s.tokens + [Token(Identifier, text, Some(StringValue(text)))]))
  {
    SkipsToQuote(src, Begin(s).(current := s.current + 1), close);
  }

  /** With no closing quote `advance` runs past the end and panics. */
  lemma UnterminatedString(src: string, s: Scan)
    requires Within(src, s) && s.current < |src| && src[s.current] == '\''
    requires forall i :: s.current < i < |src| ==> src[i] != '\''
    ensures ScanToken(src, Begin(s)) == Err(AdvancePastEnd)
  {
  }

  /** A newline counts a line and makes no token. */
  lemma NewlineCounted(src: string, s: Scan)
    requires Within(src, s) && s.current < |src| && src[s.current] == '\n'
    ensures ScanToken(src, Begin(s)) == Ok(Begin(s).(current := s.current + 1, line := s.line + 1))
  {
  }

  /** Any other character, such as a space or `!`, is passed over without a
      token and without an error. */
  lemma OtherSkipped(src: string, s: Scan)
    requires Within(src, s) && s.current < |src|
    requires src[s.current] !in "()*,;><='\n" && !IsDigit(src[s.current]) && !IsAlpha(src[s.current])
    ensures ScanToken(src, Begin(s)) == Ok(Begin(s).(current := s.current + 1))
  {
  }

  /** None of the tokens is EOF and none has a type the scanner has no rule
      for. */
  predicate Scanned(tokens: seq<Token>) {
    forall i :: 0 <= i < |tokens| ==> tokens[i].tokenType != Eof && !NeverScanned(tokens[i].tokenType)
  }

  /** Token `i`'s lexeme is `src[spans[i].0..spans[i].1]`, the slices lie
      within `src[..upto]` and each one starts at or after the end of the one
      before. */
  predicate Slices(src: string, tokens: seq<Token>, spans: seq<(nat, nat)>, upto: nat) {
    |spans| == |tokens|
    && (forall i :: 0 <= i < |spans| ==>
          spans[i].0 <= spans[i].1 <= upto && spans[i].1 <= |src| && tokens[i].lexeme == src[spans[i].0..spans[i].1])
    && (forall i :: 0 < i < |spans| ==> spans[i - 1].1 <= spans[i].0)
  }

  /** One step of the loop keeps the tokens scanned and sliced in order. */
  lemma StepSlices(src: string, s: Scan, spans: seq<(nat, nat)>) returns (more: seq<(nat, nat)>)
    requires Within(src, s) && s.current < |src| && Slices(src, s.tokens, spans, s.current) && Scanned(s.tokens)
    requires ScanToken(src, Begin(s)).Ok?
    ensures var n := ScanToken(src, Begin(s)).value;
            Slices(src, n.tokens, more, n.current) && Scanned(n.tokens)
  {
    var n := ScanToken(src, Begin(s)).value;
    assert Emits(src, Begin(s), n);
    assert n.tokens[..|s.tokens|] == s.tokens;
    if |n.tokens| == |s.tokens| {
      assert n.tokens == s.tokens;
      more := spans;
    } else {
      more := spans + [(s.current, n.current)];
      assert n.tokens == s.tokens + [n.tokens[|s.tokens|]];
    }
  }

  lemma {:induction false} LoopSlices(src: string, s: Scan, spans: seq<(nat, nat)>) returns (all: seq<(nat, nat)>)
    requires Within(src, s) && Slices(src, s.tokens, spans, s.current) && Scanned(s.tokens)
    ensures ScanLoop(src, s).Ok? ==>
              Slices(src, ScanLoop(src, s).value.tokens, all, |src|) && Scanned(ScanLoop(src, s).value.tokens)
    decreases |src| - s.current
  {
    if s.current >= |src| {
      all := spans;
    } else if ScanToken(src, Begin(s)).Ok? {
      var more := StepSlices(src, s, spans);
      all := LoopSlices(src, ScanToken(src, Begin(s)).value, more);
    } else {
      all := spans;
    }
  }

  /** The token list ends in the one EOF token, with an empty lexeme; every
      token before it is a slice of the source, in source order, and has a
      type the scanner has a rule for. */
  lemma ScannedTokens(src: string) returns (spans: seq<(nat, nat)>)
    requires ScanTokens(src).Ok?
    ensures var t := ScanTokens(src).value;
            t[|t| - 1] == Token(Eof, "", None)
            && Scanned(t[..|t| - 1]) && Slices(src, t[..|t| - 1], spans, |src|)
  {
    spans := LoopSlices(src, Initial(), []);
    var end := ScanLoop(src, Initial()).value;
    assert ScanTokens(src).value[..|end.tokens|] == end.tokens;
  }

  /** The loop of `scan_tokens` goes on from the state one token leaves. */
  lemma LoopStep(src: string, s: Scan, n: Scan)
    requires Within(src, s) && s.current < |src| && ScanToken(src, Begin(s)) == Ok(n)
    ensures ScanLoop(src, s) == ScanLoop(src, n)
  {
  }

  /** At the end of the source the loop stops and EOF is appended. */
  lemma LoopEnd(src: string, s: Scan)
    requires Within(src, s) && s.current == |src|
    ensures ScanTokensFrom(src, s) == Ok(s.tokens + [Token(Eof, "", None)])
  {
  }

  /** `>=` is two tokens, GREATER then EQUAL: no text scans to
      GREATER_OR_EQUAL. */
  lemma GreaterEqualIsTwoTokens()
    ensures ScanTokens(">=") == Ok([Tok(Greater, ">"), Tok(Equal, "="), Token(Eof, "", None)])
  {
    var src := ">=";
    var s1 := Scan(0, 1, 1, [Tok(Greater, ">")]);
    var s2 := Scan(1, 2, 1, [Tok(Greater, ">"), Tok(Equal, "=")]);
    PunctuationToken(src, Initial());
    LoopStep(src, Initial(), s1);
    PunctuationToken(src, s1);
    assert src[1] == '=' && Punctuation('=') == Some(Equal);
    assert s1.tokens + [Tok(Equal, "=")] == s2.tokens;
    LoopStep(src, s1, s2);
    LoopEnd(src, s2);
    assert ScanTokensFrom(src, Initial()) == ScanTokensFrom(src, s2);
    assert s2.tokens + [Token(Eof, "", None)] == [Tok(Greater, ">"), Tok(Equal, "="), Token(Eof, "", None)];
  }

  /** `!` is passed over, so `a != 1` scans as `a = 1`. */
  lemma NotEqualReadsAsEqual()
    ensures ScanTokens("a != 1")
            == Ok([Tok(Identifier, "a"), Tok(Equal, "="), Token(Number, "1", Some(NumberValue("1"))), Token(Eof, "", None)])
  {
    var src := "a != 1";
    var a := Tok(Identifier, "a");
    var eq := Tok(Equal, "=");
    var one := Token(Number, "1", Some(NumberValue("1")));
    var s3 := Scan(2, 3, 1, [a]);
    var s6 := Scan(5, 6, 1, [a, eq, one]);
    NotEqualWordAndBang();
    NotEqualRest();
    LoopEnd(src, s6);
    assert ScanTokensFrom(src, Initial()) == ScanTokensFrom(src, s6);
    assert s6.tokens + [Token(Eof, "", None)] == [a, eq, one, Token(Eof, "", None)];
  }

  lemma NotEqualWordAndBang()
    ensures ScanLoop("a != 1", Initial()) == ScanLoop("a != 1", Scan(2, 3, 1, [Tok(Identifier, "a")]))
  {
    var src := "a != 1";
    var a := Tok(Identifier, "a");
    var s1 := Scan(0, 1, 1, [a]);
    assert ScanToken(src, Begin(Initial())) == Ok(s1) by {
      Word(src, Initial(), 1);
      assert src[0..1] == "a" && ToUpper("a") == "A" && KeywordType("A") == Identifier;
      assert Initial().tokens + [a] == [a];
    }
    LoopStep(src, Initial(), s1);
    NotEqualSpaceAndBang();
  }

  lemma NotEqualSpaceAndBang()
    ensures ScanLoop("a != 1", Scan(0, 1, 1, [Tok(Identifier, "a")]))
            == ScanLoop("a != 1", Scan(2, 3, 1, [Tok(Identifier, "a")]))
  {
    var src := "a != 1";
    var a := Tok(Identifier, "a");
    var s1 := Scan(0, 1, 1, [a]);
    var s2 := Scan(1, 2, 1, [a]);
    var s3 := Scan(2, 3, 1, [a]);
    OtherSkipped(src, s1);
    LoopStep(src, s1, s2);
    OtherSkipped(src, s2);
    LoopStep(src, s2, s3);
  }

  lemma NotEqualRest()
    ensures var a := Tok(Identifier, "a");
            ScanLoop("a != 1", Scan(2, 3, 1, [a]))
            == ScanLoop("a != 1", Scan(5, 6, 1, [a, Tok(Equal, "="), Token(Number, "1", Some(NumberValue("1")))]))
  {
    var src := "a != 1";
    var a := Tok(Identifier, "a");
    var eq := Tok(Equal, "=");
    var one := Token(Number, "1", Some(NumberValue("1")));
    var s3 := Scan(2, 3, 1, [a]);
    var s4 := Scan(3, 4, 1, [a, eq]);
    var s5 := Scan(4, 5, 1, [a, eq]);
    var s6 := Scan(5, 6, 1, [a, eq, one]);
    PunctuationToken(src, s3);
    assert src[3] == '=' && Punctuation('=') == Some(Equal);
    assert s3.tokens + [Tok(Equal, "=")] == s4.tokens;
    LoopStep(src, s3, s4);
    OtherSkipped(src, s4);
    LoopStep(src, s4, s5);
    WholeNumber(src, s5, 6);
    assert src[5..6] == "1";
    assert s5.tokens + [one] == s6.tokens;
    LoopStep(src, s5, s6);
  }

  /** Where the run of characters with property `p` starting at `from`
      ends. */
  function RunEnd(src: string, from: nat, p: char -> bool): (r: nat)
    requires from <= |src|
    ensures Run(src, from, r, p)
    decreases |src| - from
  {
    if from == |src| || !p(src[from]) then from else RunEnd(src, from + 1, p)
  }

  /** Every NUMBER lexeme is text `f64::from_str` accepts, so the
      scanner's `parse().unwrap()` on it never panics. */
  lemma NumberTokenIsFloat(src: string, s: Scan)
    requires Within(src, s) && s.current < |src| && IsDigit(src[s.current])
    ensures ScanToken(src, Begin(s)).Ok?
    ensures var n := ScanToken(src, Begin(s)).value;
            var text := src[s.current..n.current];
            n.tokens == s.tokens + [Token(Number, text, Some(NumberValue(text)))] && IsFloatText(text)
  {
    var dot := RunEnd(src, s.current, IsDigit);
    if dot + 1 < |src| && src[dot] == '.' && IsDigit(src[dot + 1]) {
      var end := RunEnd(src, dot + 1, IsDigit);
      FractionalNumber(src, s, dot, end);
      FractionIsFloat(src, s.current, dot, end);
    } else {
      WholeNumber(src, s, dot);
      ScannedNumberIsFloat(src[s.current..dot], "");
    }
  }

  lemma FractionIsFloat(src: string, from: nat, dot: nat, end: nat)
    requires from < dot && Run(src, from, dot, IsDigit) && Run(src, dot + 1, end, IsDigit) && dot + 1 < end && src[dot] == '.'
    ensures IsFloatText(src[from..end])
  {
    var whole, fraction := src[from..dot], src[dot + 1..end];
    assert AllDigits(whole) && AllDigits(fraction);
    ScannedNumberIsFloat(whole, fraction);
    DotJoins(src, from, dot, end);
  }

  lemma DotJoins(src: string, from: nat, dot: nat, end: nat)
    requires from <= dot < end <= |src| && src[dot] == '.'
    ensures src[from..end] == src[from..dot] + "." + src[dot + 1..end]
  {
    assert src[dot..dot + 1] == ".";
    assert src[from..end] == src[from..dot] + src[dot..end];
    assert src[dot..end] == src[dot..dot + 1] + src[dot + 1..end];
  }
}
