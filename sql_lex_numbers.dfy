/** Number literals of the newer scanner (`handle_numeric` in
    src/parser_v2/scanner.rs): what it accepts as written, and the fraction
    rule it evidently means. */
module SqlLexNumbers {
  import opened Wrappers
  import opened SqlTokens
  import opened Ascii
  import opened SqlLex
  import opened SqlLexFacts

  /** The digit loop after the dot, over a run of digits: it stops at the end
      of the run, and the flag survives only when the run reaches the end of
      the source. */
  lemma {:induction false} FractionRun(src: string, s: Scan, to: nat, hasDigits: bool)
    requires Within(src, s) && Run(src, s.current, to, IsDigit)
    ensures FractionDigits(src, s, hasDigits)
         == (s.(current := to, column := s.column + (to - s.current)),
             to == |src| && (hasDigits || s.current < to))
    decreases |src| - s.current
  {
    if s.current < to {
      FractionRun(src, Advanced(src, s), to, true);
    }
  }

  /** The state once a number's characters up to `to` have been read, with
      its token added: a Literal whose lexeme and value are the text from
      `start` to `to`. */
  function WithNumber(src: string, s: Scan, to: nat): (r: Scan)
    requires s.start <= s.current <= to <= |src|
    ensures r.start == s.start && r.current == to && r.line == s.line
    ensures |r.tokens| == |s.tokens| + 1 && r.tokens[..|s.tokens|] == s.tokens
    ensures var t := r.tokens[|s.tokens|];
            t.tokenType == Literal && t.lexeme == src[s.start..to]
            && t.literal == Some(ParsedLiteral.Decimal(src[s.start..to]))
  {
    var e := s.(current := to, column := s.column + (to - s.current));
    e.(tokens := e.tokens + [NumberToken(src, e)])
  }

  /** A run of digits not followed by a dot is one Literal token whose text
      is those digits. */
  lemma IntegerLiteral(src: string, s: Scan, to: nat)
    requires Within(src, s) && s.start < s.current && Run(src, s.current, to, IsDigit)
    requires to == |src| || src[to] != '.'
    ensures ScanNumeric(src, s) == Ok(WithNumber(src, s, to))
  {
    SkipRun(src, s, IsDigit, to);
    var e := s.(current := to, column := s.column + (to - s.current));
    assert SkipWhile(src, s, IsDigit) == e;
  }

  /** Digits, a dot and at least one digit that run to the end of the source
      are one Literal token over all of them. */
  lemma FractionAtEnd(src: string, s: Scan, dot: nat)
    requires Within(src, s) && s.start < s.current && Run(src, s.current, dot, IsDigit)
    requires dot + 1 < |src| && src[dot] == '.' && Run(src, dot + 1, |src|, IsDigit)
    ensures ScanNumeric(src, s) == Ok(WithNumber(src, s, |src|))
  {
    SkipRun(src, s, IsDigit, dot);
    var s1 := s.(current := dot, column := s.column + (dot - s.current));
    var s2 := s1.(current := dot + 1, column := s1.column + 1);
    assert Advanced(src, s1) == s2;
    FractionRun(src, s2, |src|, false);
    var e := s2.(current := |src|, column := s2.column + (|src| - s2.current));
    assert e == s.(current := |src|, column := s.column + (|src| - s.current));
  }

  /** Digits, a dot and digits followed by any other character (`1.5)`,
      `2.0 `, `3.25,`) are rejected: the loop clears the flag when it meets
      the character that ends the fraction. */
  lemma FractionFollowedRejected(src: string, s: Scan, dot: nat, to: nat)
    requires Within(src, s) && s.start < s.current && Run(src, s.current, dot, IsDigit)
    requires dot < to < |src| && src[dot] == '.' && Run(src, dot + 1, to, IsDigit)
    ensures ScanNumeric(src, s) == Err(InvalidFloat)
  {
    SkipRun(src, s, IsDigit, dot);
    var s1 := s.(current := dot, column := s.column + (dot - s.current));
    var s2 := s1.(current := dot + 1, column := s1.column + 1);
    assert Advanced(src, s1) == s2;
    FractionRun(src, s2, to, false);
  }

  /** A dot with no digit after it is rejected. */
  lemma DotWithoutDigitsRejected(src: string, s: Scan, dot: nat)
    requires Within(src, s) && s.start < s.current && Run(src, s.current, dot, IsDigit)
    requires dot < |src| && src[dot] == '.' && (dot + 1 == |src| || !IsDigit(src[dot + 1]))
    ensures ScanNumeric(src, s) == Err(InvalidFloat)
  {
    SkipRun(src, s, IsDigit, dot);
    var s1 := s.(current := dot, column := s.column + (dot - s.current));
    var s2 := s1.(current := dot + 1, column := s1.column + 1);
    assert Advanced(src, s1) == s2;
    FractionRun(src, s2, dot + 1, false);
  }

  /** The digit loop after the dot with the flag kept when a non-digit ends
      it: the flag says whether at least one digit was read. */
  function FractionDigitsIntended(src: string, s: Scan, hasDigits: bool): (r: (Scan, bool))
    requires Within(src, s)
    ensures Within(src, r.0) && r.0.current >= s.current
    ensures r.0.start == s.start && r.0.tokens == s.tokens
    ensures r.1 <==> hasDigits || r.0.current > s.current
    ensures r.0.current == |src| || !IsDigit(src[r.0.current])
    ensures forall i :: s.current <= i < r.0.current ==> IsDigit(src[i])
    decreases |src| - s.current
  {
    if s.current >= |src| then (s, hasDigits)
    else if IsDigit(src[s.current]) then FractionDigitsIntended(src, Advanced(src, s), true)
    else (s, hasDigits)
  }

  /** `handle_numeric` with the corrected fraction loop. */
  function ScanNumericIntended(src: string, s: Scan): (r: Result<Scan, ScanError>)
    requires Within(src, s)
    ensures r.Ok? ==> Within(src, r.value) && r.value.current >= s.current
    ensures r.Ok? ==> r.value.tokens == s.tokens + [NumberToken(src, r.value)]
  {
    var s1 := SkipWhile(src, s, IsDigit);
    if PeekChar(src, s1) == Some('.') then
      var (s2, hasDigits) := FractionDigitsIntended(src, Advanced(src, s1), false);
      if !hasDigits then Err(InvalidFloat)
      else Ok(s2.(tokens := s2.tokens + [NumberToken(src, s2)]))
    else Ok(s1.(tokens := s1.tokens + [NumberToken(src, s1)]))
  }

  lemma {:induction false} FractionRunIntended(src: string, s: Scan, to: nat, hasDigits: bool)
    requires Within(src, s) && Run(src, s.current, to, IsDigit)
    ensures FractionDigitsIntended(src, s, hasDigits)
         == (s.(current := to, column := s.column + (to - s.current)), hasDigits || s.current < to)
    decreases |src| - s.current
  {
    if s.current < to {
      FractionRunIntended(src, Advanced(src, s), to, true);
    }
  }

  /** With the corrected loop, digits, a dot and at least one digit are one
      Literal token over all of them, whatever follows. */
  lemma FractionFollowedAcceptedIntended(src: string, s: Scan, dot: nat, to: nat)
    requires Within(src, s) && s.start < s.current && Run(src, s.current, dot, IsDigit)
    requires Run(src, dot + 1, to, IsDigit) && dot + 1 < to && src[dot] == '.'
    ensures ScanNumericIntended(src, s) == Ok(WithNumber(src, s, to))
  {
    SkipRun(src, s, IsDigit, dot);
    var s1 := s.(current := dot, column := s.column + (dot - s.current));
    var s2 := s1.(current := dot + 1, column := s1.column + 1);
    assert Advanced(src, s1) == s2;
    FractionRunIntended(src, s2, to, false);
    var e := s2.(current := to, column := s2.column + (to - s2.current));
    assert e == s.(current := to, column := s.column + (to - s.current));
  }

  /** The corrected scanner rejects a number exactly when its integer digits
      are followed by a dot and no digit; otherwise the number's text ends at
      a character that cannot continue it. */
  lemma NumericIntendedAccepts(src: string, s: Scan)
    requires Within(src, s)
    ensures var s1 := SkipWhile(src, s, IsDigit);
            ScanNumericIntended(src, s).Err?
            <==> s1.current < |src| && src[s1.current] == '.'
                 && (s1.current + 1 == |src| || !IsDigit(src[s1.current + 1]))
    ensures ScanNumericIntended(src, s).Ok? ==>
              var e := ScanNumericIntended(src, s).value;
              (e.current == |src| || !IsDigit(src[e.current]))
              && forall i :: s.current <= i < e.current ==> IsDigit(src[i]) || src[i] == '.'
  {
    var s1 := SkipWhile(src, s, IsDigit);
    if PeekChar(src, s1) == Some('.') {
      var s2 := Advanced(src, s1);
      assert s2.current == s1.current + 1;
      var f := FractionDigitsIntended(src, s2, false);
      assert f.1 <==> f.0.current > s2.current;
      if f.0.current > s2.current {
        assert IsDigit(src[s2.current]);
      }
    }
  }

  /** Where the scanner as written accepts a number, the corrected one
      accepts it too and reads the same text. */
  lemma IntendedExtendsAsWritten(src: string, s: Scan)
    requires Within(src, s)
    requires ScanNumeric(src, s).Ok?
    ensures ScanNumericIntended(src, s) == ScanNumeric(src, s)
  {
    var s1 := SkipWhile(src, s, IsDigit);
    if PeekChar(src, s1) == Some('.') {
      FractionsAgreeAtEnd(src, Advanced(src, s1), false);
    }
  }

  /** When the digits after the dot run to the end of the source, both loops
      stop in the same place with the same flag. */
  lemma {:induction false} FractionsAgreeAtEnd(src: string, s: Scan, hasDigits: bool)
    requires Within(src, s) && FractionDigits(src, s, hasDigits).1
    ensures FractionDigitsIntended(src, s, hasDigits) == FractionDigits(src, s, hasDigits)
    decreases |src| - s.current
  {
    if s.current < |src| && IsDigit(src[s.current]) {
      FractionsAgreeAtEnd(src, Advanced(src, s), true);
    }
  }
}
