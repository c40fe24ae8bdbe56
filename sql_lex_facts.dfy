/** Properties of the newer scanner (src/parser_v2/scanner.rs), proved about
    the functions of `SqlLex` that the `Scanner` class is proved to follow. */
module SqlLexFacts {
  import opened Wrappers
  import opened SqlTokens
  import opened Ascii
  import opened SqlLex

  /** A scanner state that starts a new token at `current`. */
  function Begin(s: Scan): Scan {
    s.(start := s.current)
  }

  /** `src[from..to]` is a run of characters with property `p`, none of them a
      newline, that ends at the end of the source or before a character
      without `p`. */
  predicate Run(src: string, from: nat, to: nat, p: char -> bool) {
    from <= to <= |src|
    && (forall i :: from <= i < to ==> p(src[i]) && src[i] != '\n')
    && (to == |src| || !p(src[to]))
  }

  /** Skipping over a run moves the cursor to its end and the column by its
      length. */
  lemma {:induction false} SkipRun(src: string, s: Scan, p: char -> bool, to: nat)
    requires Within(src, s) && Run(src, s.current, to, p)
    ensures SkipWhile(src, s, p) == s.(current := to, column := s.column + (to - s.current))
    decreases |src| - s.current
  {
    if s.current < to {
      SkipRun(src, Advanced(src, s), p, to);
    }
  }

  /** The state after `scan_token` has read the first character. */
  function Step(src: string, s: Scan): Scan
    requires Within(src, s)
  {
    Advanced(src, Begin(s))
  }

  /** `scan_token` on `>` continues with `handle_greater_relational_operator`. */
  lemma DispatchGreater(src: string, s: Scan)
    requires Within(src, s) && s.current < |src| && src[s.current] == '>'
    ensures ScanToken(src, s) == Ok(GreaterRelationalOperator(src, Step(src, s)))
  {
    assert Classify(src[s.current]) == Greater;
  }

  /** `scan_token` on `<` continues with `handle_lesser_relational_operator`. */
  lemma DispatchLesser(src: string, s: Scan)
    requires Within(src, s) && s.current < |src| && src[s.current] == '<'
    ensures ScanToken(src, s) == Ok(LesserRelationalOperator(src, Step(src, s)))
  {
    assert Classify(src[s.current]) == Lesser;
  }

  /** `scan_token` on a quote continues with `handle_string`. */
  lemma DispatchQuote(src: string, s: Scan)
    requires Within(src, s) && s.current < |src| && src[s.current] == '\''
    ensures ScanToken(src, s) == ScanString(src, Step(src, s))
  {
    assert Classify(src[s.current]) == Quote;
  }

  /** `scan_token` on a digit continues with `handle_numeric`. */
  lemma DispatchDigit(src: string, s: Scan)
    requires Within(src, s) && s.current < |src| && IsDigit(src[s.current])
    ensures ScanToken(src, s) == ScanNumeric(src, Step(src, s))
  {
    assert Classify(src[s.current]) == Digit;
  }

  /** `scan_token` on a letter continues with `handle_alpha_numeric`. */
  lemma DispatchLetter(src: string, s: Scan)
    requires Within(src, s) && s.current < |src| && IsAlpha(src[s.current])
    ensures ScanToken(src, s) == ScanWord(src, Step(src, s))
  {
    assert Classify(src[s.current]) == Letter;
  }

  /** Each of `( ) * , ; = + - / %` is one token of its own type whose lexeme
      is that character. */
  lemma PunctuationToken(src: string, s: Scan)
    requires Within(src, s) && s.current < |src| && Punctuation(src[s.current]).Some?
    ensures var c := src[s.current];
            ScanToken(src, s) == Ok(AddToken(Scan(s.current, s.current + 1, s.line, s.column + 1, s.tokens),
                                             Punctuation(c).value, [c], None))
  {
    var s1 := Scan(s.current, s.current + 1, s.line, s.column + 1, s.tokens);
    assert Classify(src[s.current]) == Punct;
    assert Step(src, s) == s1;
  }

  /** `>=` is one GreaterThanOrEqualTo token over both characters. */
  lemma GreaterOrEqualToken(src: string, s: Scan)
    requires Within(src, s) && s.current + 1 < |src| && src[s.current] == '>' && src[s.current + 1] == '='
    ensures ScanToken(src, s) == Ok(AddToken(Scan(s.current, s.current + 2, s.line, s.column + 2, s.tokens),
                                             GreaterThanOrEqualTo, ">=", None))
  {
    var s1 := Scan(s.current, s.current + 1, s.line, s.column + 1, s.tokens);
    assert Step(src, s) == s1;
    assert Advanced(src, s1) == Scan(s.current, s.current + 2, s.line, s.column + 2, s.tokens);
    assert PeekChar(src, s1) == Some(src[s.current + 1]);
    assert GreaterRelationalOperator(src, s1)
        == AddToken(Scan(s.current, s.current + 2, s.line, s.column + 2, s.tokens), GreaterThanOrEqualTo, ">=", None);
    DispatchGreater(src, s);
  }

  /** A `>` not followed by `=` is a GreaterThan token over one character. */
  lemma GreaterToken(src: string, s: Scan)
    requires Within(src, s) && s.current < |src| && src[s.current] == '>'
    requires s.current + 1 == |src| || src[s.current + 1] != '='
    ensures ScanToken(src, s) == Ok(AddToken(Scan(s.current, s.current + 1, s.line, s.column + 1, s.tokens),
                                             GreaterThan, ">", None))
  {
    var s1 := Scan(s.current, s.current + 1, s.line, s.column + 1, s.tokens);
    assert Step(src, s) == s1;
    assert GreaterRelationalOperator(src, s1) == AddToken(s1, GreaterThan, ">", None);
    DispatchGreater(src, s);
  }

  /** `<=` is one LessThanOrEqualTo token over both characters. */
  lemma LessOrEqualToken(src: string, s: Scan)
    requires Within(src, s) && s.current + 1 < |src| && src[s.current] == '<' && src[s.current + 1] == '='
    ensures ScanToken(src, s) == Ok(AddToken(Scan(s.current, s.current + 2, s.line, s.column + 2, s.tokens),
                                             LessThanOrEqualTo, "<=", None))
  {
    var s1 := Scan(s.current, s.current + 1, s.line, s.column + 1, s.tokens);
    assert Step(src, s) == s1;
    assert Advanced(src, s1) == Scan(s.current, s.current + 2, s.line, s.column + 2, s.tokens);
    assert PeekChar(src, s1) == Some(src[s.current + 1]);
    assert LesserRelationalOperator(src, s1)
        == AddToken(Scan(s.current, s.current + 2, s.line, s.column + 2, s.tokens), LessThanOrEqualTo, "<=", None);
    DispatchLesser(src, s);
  }

  /** `<>` is one NotEqualTo token over both characters. */
  lemma NotEqualToken(src: string, s: Scan)
    requires Within(src, s) && s.current + 1 < |src| && src[s.current] == '<' && src[s.current + 1] == '>'
    ensures ScanToken(src, s) == Ok(AddToken(Scan(s.current, s.current + 2, s.line, s.column + 2, s.tokens),
                                             NotEqualTo, "<>", None))
  {
    var s1 := Scan(s.current, s.current + 1, s.line, s.column + 1, s.tokens);
    assert Step(src, s) == s1;
    assert Advanced(src, s1) == Scan(s.current, s.current + 2, s.line, s.column + 2, s.tokens);
    assert PeekChar(src, s1) == Some(src[s.current + 1]);
    assert LesserRelationalOperator(src, s1)
        == AddToken(Scan(s.current, s.current + 2, s.line, s.column + 2, s.tokens), NotEqualTo, "<>", None);
    DispatchLesser(src, s);
  }

  /** A `<` followed by neither `=` nor `>` is a LessThan token over one
      character. */
  lemma LessToken(src: string, s: Scan)
    requires Within(src, s) && s.current < |src| && src[s.current] == '<'
    requires s.current + 1 == |src| || (src[s.current + 1] != '=' && src[s.current + 1] != '>')
    ensures ScanToken(src, s) == Ok(AddToken(Scan(s.current, s.current + 1, s.line, s.column + 1, s.tokens),
                                             LessThan, "<", None))
  {
    var s1 := Scan(s.current, s.current + 1, s.line, s.column + 1, s.tokens);
    assert Step(src, s) == s1;
    assert LesserRelationalOperator(src, s1) == AddToken(s1, LessThan, "<", None);
    DispatchLesser(src, s);
  }

  /** A word is the longest run of letters, digits and `_` that starts with a
      letter; its lexeme is the word upper-cased and its type the keyword it
      spells, or Identifier. */
  lemma PlainWord(src: string, s: Scan, to: nat)
    requires Within(src, s) && s.current < |src| && IsAlpha(src[s.current])
    requires Run(src, s.current, to, IsWordChar)
    requires FirstWordOf(ToUpper(src[s.current..to])).None?
    ensures var text := ToUpper(src[s.current..to]);
            ScanToken(src, s) == Ok(AddToken(Scan(s.current, to, s.line, s.column + (to - s.current), s.tokens),
                                             WordKind(text), text, None))
  {
    var s1 := Scan(s.current, s.current + 1, s.line, s.column + 1, s.tokens);
    OneWord(src, s1, to);
    var text := ToUpper(src[s.current..to]);
    assert ToUpper(src[s1.start..to]) == text;
    assert s1.(current := to, column := s1.column + (to - s1.current))
        == Scan(s.current, to, s.line, s.column + (to - s.current), s.tokens);
    assert ScanWord(src, s1)
        == Ok(AddToken(Scan(s.current, to, s.line, s.column + (to - s.current), s.tokens), WordKind(text), text, None));
    assert Step(src, s) == s1;
    DispatchLetter(src, s);
  }

  /** `handle_alpha_numeric` over a word that is not the first of a
      two-word keyword. */
  lemma OneWord(src: string, s: Scan, to: nat)
    requires Within(src, s) && s.start < s.current && Run(src, s.current, to, IsWordChar)
    requires FirstWordOf(ToUpper(src[s.start..to])).None?
    ensures var text := ToUpper(src[s.start..to]);
            ScanWord(src, s) == Ok(AddToken(s.(current := to, column := s.column + (to - s.current)), WordKind(text), text, None))
  {
    SkipRun(src, s, IsWordChar, to);
    var text := ToUpper(src[s.start..to]);
    assert WordType(src, SkipWhile(src, s, IsWordChar), text) == Ok((WordKind(text), SkipWhile(src, s, IsWordChar)));
  }

  /** A quoted string without escapes is one Literal token whose text runs
      from the opening quote up to, not including, the closing quote. */
  lemma PlainString(src: string, s: Scan, close: nat)
    requires Within(src, s) && s.current < close < |src|
    requires src[s.current] == '\'' && src[close] == '\''
    requires forall i :: s.current < i < close ==> src[i] != '\'' && src[i] != '\\'
    ensures ScanToken(src, s).Ok?
    ensures var r := ScanToken(src, s).value;
            var text := src[s.current..close];
            r.current == close + 1 && r.start == s.current
            && r.tokens == s.tokens + [Token(Literal, text, Some(ParsedLiteral.Text(text)), r.line, r.column)]
  {
    DispatchQuote(src, s);
    StringRunsToQuote(src, Step(src, s), close);
  }

  lemma {:induction false} StringRunsToQuote(src: string, s: Scan, close: nat)
    requires Within(src, s) && s.start < s.current <= close < |src| && src[close] == '\''
    requires forall i :: s.current <= i < close ==> src[i] != '\'' && src[i] != '\\'
    ensures ScanString(src, s).Ok? && ScanString(src, s).value.current == close + 1
    decreases |src| - s.current
  {
    if s.current < close {
      StringRunsToQuote(src, Advanced(src, s), close);
    }
  }

  /** A string whose rest of the source holds no quote is an error: the end
      of input comes before the closing quote. */
  lemma {:induction false} UnclosedStringFails(src: string, s: Scan)
    requires Within(src, s) && s.start < s.current
    requires forall i :: s.current <= i < |src| ==> src[i] != '\''
    ensures ScanString(src, s).Err?
    decreases |src| - s.current
  {
    if s.current < |src| {
      var s1 := Advanced(src, s);
      if src[s.current] == '\\' && s1.current < |src| && IsEscape(src[s1.current]) {
        UnclosedStringFails(src, Advanced(src, s1));
      } else if src[s.current] != '\\' {
        UnclosedStringFails(src, s1);
      } else if s1.current >= |src| {
        UnclosedStringFails(src, s1);
      }
    }
  }

  /** Only the escapes `\' \\ \n \t` are accepted: any other character
      after a backslash in a string is an error. */
  lemma BadEscapeFails(src: string, s: Scan, backslash: nat)
    requires Within(src, s) && s.current < backslash && backslash + 1 < |src|
    requires src[s.current] == '\'' && src[backslash] == '\\' && !IsEscape(src[backslash + 1])
    requires forall i :: s.current < i < backslash ==> src[i] != '\'' && src[i] != '\\'
    ensures ScanToken(src, s) == Err(InvalidEscape(src[backslash + 1]))
  {
    DispatchQuote(src, s);
    StringRunsToBadEscape(src, Step(src, s), backslash);
  }

  lemma {:induction false} StringRunsToBadEscape(src: string, s: Scan, backslash: nat)
    requires Within(src, s) && s.start < s.current <= backslash && backslash + 1 < |src|
    requires src[backslash] == '\\' && !IsEscape(src[backslash + 1])
    requires forall i :: s.current <= i < backslash ==> src[i] != '\'' && src[i] != '\\'
    ensures ScanString(src, s) == Err(InvalidEscape(src[backslash + 1]))
    decreases |src| - s.current
  {
    if s.current < backslash {
      StringRunsToBadEscape(src, Advanced(src, s), backslash);
    }
  }

  /** The `\n` arm counts the line a second time after `advance` has
      already counted it, and starts column 0; no token is added. */
  lemma NewlineCountedTwice(src: string, s: Scan)
    requires Within(src, s) && s.current < |src| && src[s.current] == '\n'
    ensures ScanToken(src, s) == Ok(Scan(s.current, s.current + 1, s.line + 2, 0, s.tokens))
  {
    assert Classify(src[s.current]) == Newline;
    assert Step(src, s) == Scan(s.current, s.current + 1, s.line + 1, 0, s.tokens);
  }

  /** Whitespace other than a newline is stepped over with no token. */
  lemma WhitespaceSkipped(src: string, s: Scan)
    requires Within(src, s) && s.current < |src| && IsWhitespace(src[s.current]) && src[s.current] != '\n'
    ensures ScanToken(src, s) == Ok(Scan(s.current, s.current + 1, s.line, s.column + 1, s.tokens))
  {
    assert Classify(src[s.current]) == Space;
    assert Step(src, s) == Scan(s.current, s.current + 1, s.line, s.column + 1, s.tokens);
  }

  /** A character that is none of the punctuation, operators, quote,
      whitespace, digits or letters is an error naming it. */
  lemma UnexpectedCharacterRejected(src: string, s: Scan)
    requires Within(src, s) && s.current < |src|
    requires var c := src[s.current];
             Punctuation(c).None? && c !in "<>'" && !IsWhitespace(c) && !IsAlphaNumeric(c)
    ensures ScanToken(src, s) == Err(UnexpectedCharacter(src[s.current]))
  {
    assert Classify(src[s.current]) == Other;
  }

  /** At the end of the source `scan_token` adds nothing. */
  lemma AtEndNoToken(src: string, s: Scan)
    requires Within(src, s) && s.current == |src|
    ensures ScanToken(src, s) == Ok(s.(start := s.current))
  {
  }

  predicate NoEof(tokens: seq<Token>) {
    forall i :: 0 <= i < |tokens| ==> tokens[i].tokenType != Eof
  }

  /** Tokenizing never produces an end-of-input token. */
  lemma {:induction false} TokenizeFromNoEof(src: string, s: Scan)
    requires Within(src, s) && NoEof(s.tokens)
    ensures TokenizeFrom(src, s).Ok? ==> NoEof(TokenizeFrom(src, s).value)
    decreases |src| - s.current
  {
    if s.current < |src| {
      var r := ScanToken(src, s);
      if r.Ok? {
        assert AppendsAtMostOne(s.tokens, r.value.tokens);
        assert NoEof(r.value.tokens) by {
          if r.value.tokens != s.tokens {
            forall i | 0 <= i < |r.value.tokens|
              ensures r.value.tokens[i].tokenType != Eof
            {
              if i < |s.tokens| {
                assert r.value.tokens[i] == r.value.tokens[..|s.tokens|][i];
              }
            }
          }
        }
        TokenizeFromNoEof(src, r.value);
      }
    }
  }

  lemma TokenizeNoEof(src: string)
    ensures Tokenize(src).Ok? ==> NoEof(Tokenize(src).value)
  {
    TokenizeFromNoEof(src, Initial());
  }

  /** `tokenize` stops at the first error: an error from the token at the
      cursor is the result. */
  lemma TokenizeStopsAtError(src: string, s: Scan, e: ScanError)
    requires Within(src, s) && s.current < |src| && ScanToken(src, s) == Err(e)
    ensures TokenizeFrom(src, s) == Err(e)
  {
  }
}
