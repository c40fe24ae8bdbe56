/** Words and multi-word keywords of the newer scanner
    (`handle_alpha_numeric` in src/parser_v2/scanner.rs). */
module SqlLexWords {
  import opened Wrappers
  import opened SqlTokens
  import opened Ascii
  import opened SqlLex
  import opened SqlLexFacts

  /** The first words that skip whitespace before a second word and consume
      it, with that second word and the keyword they make as written:
      `RIGHT JOIN` is scanned as a left join. */
  predicate SpacedPair(w: FirstWord, part: string, t: TokenType) {
    || (w == Primary && part == "KEY" && t == PrimaryKey)
    || (w == Left && part == "JOIN" && t == LeftJoin)
    || (w == Right && part == "JOIN" && t == LeftJoin)
    || (w == Order && part == "BY" && t == OrderBy)
  }

  /** `src[at..]` starts with `part`, letters compared upper-cased. */
  predicate PartAt(src: string, at: nat, part: string) {
    at + |part| <= |src| && ToUpper(src[at..at + |part|]) == part
  }

  /** Whitespace without newlines from `from` to `gap`, then `part`. */
  predicate Spaced(src: string, from: nat, gap: nat, part: string) {
    Run(src, from, gap, IsWhitespace) && PartAt(src, gap, part)
  }

  /** One part of a multi-word keyword after whitespace up to `gap`, with
      `part` found at `gap` and consumed. */
  lemma SpacedPart(src: string, s: Scan, part: string, t: TokenType, gap: nat)
    requires Within(src, s) && Spaced(src, s.current, gap, part)
    ensures SecondPart(src, s, true, part, true, t)
         == Ok((t, s.(current := gap + |part|, column := s.column + (gap - s.current))))
  {
    SkipRun(src, s, IsWhitespace, gap);
  }

  /** After whitespace up to `gap` and `part` from `gap`, the second word is
      read: the cursor ends after `part`, the column counts only the
      whitespace. */
  lemma SpacedSecondWord(src: string, s: Scan, w: FirstWord, part: string, t: TokenType, gap: nat)
    requires Within(src, s) && SpacedPair(w, part, t)
    requires Spaced(src, s.current, gap, part)
    ensures SecondWord(src, s, w) == Ok((t, s.(current := gap + |part|, column := s.column + (gap - s.current))))
  {
    SpacedPart(src, s, part, t, gap);
  }

  /** Whitespace up to `gap` followed by fewer characters than the second
      word needs: the slice runs past the end. */
  lemma SecondWordPastEnd(src: string, s: Scan, w: FirstWord, part: string, t: TokenType, gap: nat)
    requires Within(src, s) && SpacedPair(w, part, t)
    requires Run(src, s.current, gap, IsWhitespace) && gap + |part| > |src|
    ensures SecondWord(src, s, w) == Err(SliceOutOfRange)
  {
    SkipRun(src, s, IsWhitespace, gap);
  }

  /** Whitespace up to `gap` followed by something other than the second
      word: the error names the word that was expected. */
  lemma SecondWordMismatch(src: string, s: Scan, w: FirstWord, part: string, t: TokenType, gap: nat)
    requires Within(src, s) && SpacedPair(w, part, t)
    requires Run(src, s.current, gap, IsWhitespace) && gap + |part| <= |src| && !PartAt(src, gap, part)
    ensures SecondWord(src, s, w) == Err(ExpectedWord(part))
  {
    SkipRun(src, s, IsWhitespace, gap);
  }

  /** `BEGIN` checks for `TRANSACTION` but leaves the cursor in front of it,
      after the whitespace. */
  lemma BeginKeepsTransaction(src: string, s: Scan, gap: nat)
    requires Within(src, s) && Spaced(src, s.current, gap, "TRANSACTION")
    ensures SecondWord(src, s, Begin) == Ok((BeginTransaction, s.(current := gap, column := s.column + (gap - s.current))))
  {
    SkipRun(src, s, IsWhitespace, gap);
  }

  /** `FULL`, whitespace, `OUTER`: what follows is read as the last part. */
  lemma FullThenOuter(src: string, s: Scan, gap1: nat)
    requires Within(src, s) && Spaced(src, s.current, gap1, "OUTER")
    ensures SecondWord(src, s, Full)
         == SecondPart(src, s.(current := gap1 + 5, column := s.column + (gap1 - s.current)), true, "JOIN", true, FullOuterJoin)
  {
    SpacedPart(src, s, "OUTER", FullOuterJoin, gap1);
  }

  /** `handle_alpha_numeric` over a word that starts a multi-word keyword:
      the word is read, then the second word, and the token carries only the
      first word as its lexeme. */
  lemma TwoWords(src: string, s: Scan, to: nat)
    requires Within(src, s) && s.start < s.current && Run(src, s.current, to, IsWordChar)
    requires FirstWordOf(ToUpper(src[s.start..to])).Some?
    ensures var e := s.(current := to, column := s.column + (to - s.current));
            var text := ToUpper(src[s.start..to]);
            ScanWord(src, s) == match SecondWord(src, e, FirstWordOf(text).value)
                                case Ok(w) => Ok(AddToken(w.1, w.0, text, None))
                                case Err(x) => Err(x)
  {
    SkipRun(src, s, IsWordChar, to);
  }

  /** A two-word keyword such as `PRIMARY KEY`, `LEFT JOIN` or `ORDER BY`
      is one token whose lexeme is the first word upper-cased; the scan
      resumes after the second word. */
  lemma SpacedKeyword(src: string, s: Scan, to: nat, w: FirstWord, part: string, t: TokenType, gap: nat)
    requires Within(src, s) && s.current < |src| && IsAlpha(src[s.current])
    requires Run(src, s.current, to, IsWordChar)
    requires FirstWordOf(ToUpper(src[s.current..to])) == Some(w) && SpacedPair(w, part, t)
    requires Spaced(src, to, gap, part)
    ensures var text := ToUpper(src[s.current..to]);
            ScanToken(src, s) == Ok(AddToken(Scan(s.current, gap + |part|, s.line, s.column + (gap - s.current), s.tokens),
                                             t, text, None))
  {
    var text := ToUpper(src[s.current..to]);
    var s1 := Scan(s.current, s.current + 1, s.line, s.column + 1, s.tokens);
    var e := Scan(s.current, to, s.line, s.column + (to - s.current), s.tokens);
    var f := Scan(s.current, gap + |part|, s.line, s.column + (gap - s.current), s.tokens);
    TwoWords(src, s1, to);
    assert ToUpper(src[s1.start..to]) == text;
    assert s1.(current := to, column := s1.column + (to - s1.current)) == e;
    SpacedSecondWord(src, e, w, part, t, gap);
    assert e.(current := gap + |part|, column := e.column + (gap - e.current)) == f;
    assert ScanWord(src, s1) == Ok(AddToken(f, t, text, None));
    assert Step(src, s) == s1;
    DispatchLetter(src, s);
  }

  /** `UNIQUE` and `FOREGIN` read `KEY` without skipping whitespace, so
      where a word has ended they fail: a `K` there would have continued the
      word. */
  lemma KeyAtWordEndFails(src: string, e: Scan, w: FirstWord)
    requires Within(src, e) && (w == Unique || w == Foregin)
    requires e.current == |src| || !IsWordChar(src[e.current])
    ensures SecondWord(src, e, w).Err?
  {
    assert !PartAt(src, e.current, "KEY") by {
      if e.current + 3 <= |src| {
        assert ToUpper(src[e.current..e.current + 3])[0] == Upper(src[e.current]);
      }
    }
  }

  /** A word that spells `UNIQUE` or `FOREGIN` never makes a token. */
  lemma KeyRightAfterWordFails(src: string, s: Scan, to: nat, w: FirstWord)
    requires Within(src, s) && s.current < |src| && IsAlpha(src[s.current])
    requires Run(src, s.current, to, IsWordChar)
    requires FirstWordOf(ToUpper(src[s.current..to])) == Some(w) && (w == Unique || w == Foregin)
    ensures ScanToken(src, s).Err?
  {
    var text := ToUpper(src[s.current..to]);
    var s1 := Scan(s.current, s.current + 1, s.line, s.column + 1, s.tokens);
    var e := Scan(s.current, to, s.line, s.column + (to - s.current), s.tokens);
    TwoWords(src, s1, to);
    assert ToUpper(src[s1.start..to]) == text;
    assert s1.(current := to, column := s1.column + (to - s1.current)) == e;
    KeyAtWordEndFails(src, e, w);
    assert ScanWord(src, s1).Err?;
    assert Step(src, s) == s1;
    DispatchLetter(src, s);
  }

  /** As written, `RIGHT` is read exactly as `LEFT` is. */
  lemma RightScansAsLeft(src: string, s: Scan)
    requires Within(src, s)
    ensures SecondWord(src, s, Right) == SecondWord(src, s, Left)
    ensures SecondWord(src, s, Left).Ok? ==> SecondWord(src, s, Left).value.0 == LeftJoin
  {
  }

  /** The second words with the types they evidently mean: `UNIQUE KEY`
      and `FOREGIN KEY` skip whitespace like `PRIMARY KEY`, `UNIQUE KEY` is
      a unique key and `RIGHT JOIN` a right join. */
  function SecondWordIntended(src: string, s: Scan, w: FirstWord): (r: Result<(TokenType, Scan), ScanError>)
    requires Within(src, s)
    ensures r.Ok? ==> Within(src, r.value.1) && r.value.1.current >= s.current
    ensures r.Ok? ==> r.value.1.start == s.start && r.value.1.tokens == s.tokens
  {
    match w
    case Primary => SecondPart(src, s, true, "KEY", true, PrimaryKey)
    case Unique => SecondPart(src, s, true, "KEY", true, UniqueKey)
    case Foregin => SecondPart(src, s, true, "KEY", true, ForeginKey)
    case Left => SecondPart(src, s, true, "JOIN", true, LeftJoin)
    case Right => SecondPart(src, s, true, "JOIN", true, RightJoin)
    case Begin => SecondPart(src, s, true, "TRANSACTION", false, BeginTransaction)
    case Full =>
      var (_, s1) :- SecondPart(src, s, true, "OUTER", true, FullOuterJoin);
      SecondPart(src, s1, true, "JOIN", true, FullOuterJoin)
    case Order => SecondPart(src, s, true, "BY", true, OrderBy)
  }

  /** With the corrected table, different first words never make the same
      keyword, wherever they are read. */
  lemma IntendedKeywordsDistinct(src1: string, s1: Scan, a: FirstWord, src2: string, s2: Scan, b: FirstWord)
    requires Within(src1, s1) && Within(src2, s2)
    requires SecondWordIntended(src1, s1, a).Ok? && SecondWordIntended(src2, s2, b).Ok?
    requires SecondWordIntended(src1, s1, a).value.0 == SecondWordIntended(src2, s2, b).value.0
    ensures a == b
  {
  }

  /** With the corrected table, `UNIQUE`, whitespace and `KEY` are a unique
      key. */
  lemma UniqueKeyIntended(src: string, s: Scan, gap: nat)
    requires Within(src, s) && Spaced(src, s.current, gap, "KEY")
    ensures SecondWordIntended(src, s, Unique) == Ok((UniqueKey, s.(current := gap + 3, column := s.column + (gap - s.current))))
  {
    SpacedPart(src, s, "KEY", UniqueKey, gap);
  }
}
