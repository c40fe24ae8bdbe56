/** The newer scanner as the source writes it (src/parser_v2/scanner.rs): a
    cursor over the source text whose fields `start`, `current`, `line` and
    `column` advance in loops and whose token list grows by `add_token`. Every
    method is proved to leave the fields as the matching function of `SqlLex`
    says. */
module SqlScanner {
  import opened Wrappers
  import opened SqlTokens
  import opened Ascii
  import Lex = SqlLex

  class Scanner {
    const source: string
    var start: nat
    var current: nat
    var line: nat
    var column: nat
    var tokens: seq<Token>

    function State(): Lex.Scan
      reads this
    {
      Lex.Scan(start, current, line, column, tokens)
    }

    ghost predicate Valid()
      reads this
    {
      Lex.Within(source, State())
    }

    /** `Scanner::new`. */
    constructor(source: string)
      ensures this.source == source && State() == Lex.Initial() && Valid()
    {
      this.source := source;
      start := 0;
      current := 0;
      line := 1;
      column := 0;
      tokens := [];
    }

    /** `peek`. */
    function Peek(): (r: Option<char>)
      reads this
      ensures r == Lex.PeekChar(source, State())
    {
      if current < |source| then Some(source[current]) else None
    }

    /** `is_at_end`. */
    function IsAtEnd(): (r: bool)
      reads this
      ensures r <==> Lex.PeekChar(source, State()).None?
    {
      current >= |source|
    }

    /** `advance`. */
    method Advance() returns (c: Option<char>)
      requires Valid()
      modifies this
      ensures Valid()
      ensures c == Lex.PeekChar(source, old(State()))
      ensures State() == Lex.Advanced(source, old(State()))
    {
      c := Peek();
      if c.Some? {
        current := current + 1;
        if c.value == '\n' {
          line := line + 1;
          column := 0;
        } else {
          column := column + 1;
        }
      }
    }

    /** `add_token`. */
    method AddToken(t: TokenType, lexeme: string, literal: Option<ParsedLiteral>)
      modifies this
      ensures State() == Lex.AddToken(old(State()), t, lexeme, literal)
    {
      tokens := tokens + [Token(t, lexeme, literal, line, column)];
    }

    /** The `while let Some(c) = self.peek()` loops that advance over a run
        of characters with property `p`. */
    method AdvanceWhile(p: char -> bool)
      requires Valid()
      modifies this
      ensures Valid()
      ensures State() == Lex.SkipWhile(source, old(State()), p)
    {
      ghost var s0 := State();
      while current < |source| && p(source[current])
        invariant Valid()
        invariant Lex.SkipWhile(source, State(), p) == Lex.SkipWhile(source, s0, p)
        decreases |source| - current
      {
        var _ := Advance();
      }
    }

    /** `scan_token`. */
    method ScanToken() returns (r: Result<(), Lex.ScanError>)
      requires Valid()
      modifies this
      ensures Valid()
      ensures Lex.Settles(r, State(), Lex.ScanToken(source, old(State())))
    {
      start := current;
      var c := Advance();
      r := Ok(());
      if c.Some? {
        var ch := c.value;
        match Lex.Classify(ch)
        case Punct => AddToken(Lex.Punctuation(ch).value, [ch], None);
        case Greater => HandleGreaterRelationalOperator();
        case Lesser => HandleLesserRelationalOperator();
        case Quote => r := HandleString();
        case Newline =>
          line := line + 1;
          column := 0;
        case Space =>
        case Digit => r := HandleNumeric();
        case Letter => r := HandleAlphaNumeric();
        case Other => r := Err(Lex.UnexpectedCharacter(ch));
      }
    }

    /** `handle_string`. */
    method HandleString() returns (r: Result<(), Lex.ScanError>)
      requires Valid() && start < current
      modifies this
      ensures Valid()
      ensures Lex.Settles(r, State(), Lex.ScanString(source, old(State())))
    {
      ghost var s0 := State();
      while Peek().Some?
        invariant Valid() && start < current
        invariant Lex.ScanString(source, State()) == Lex.ScanString(source, s0)
        decreases |source| - current
      {
        var c := Peek().value;
        if c == '\'' {
          var _ := Advance();
          var value := source[start..current - 1];
          AddToken(Literal, value, Some(ParsedLiteral.Text(value)));
          return Ok(());
        } else if c == '\\' {
          var _ := Advance();
          var escaped := Peek();
          if escaped.Some? {
            if Lex.IsEscape(escaped.value) {
              var _ := Advance();
            } else {
              return Err(Lex.InvalidEscape(escaped.value));
            }
          }
        } else {
          var _ := Advance();
        }
      }
      return Err(Lex.UnterminatedString);
    }

    /** `handle_numeric`. */
    method HandleNumeric() returns (r: Result<(), Lex.ScanError>)
      requires Valid()
      modifies this
      ensures Valid()
      ensures Lex.Settles(r, State(), Lex.ScanNumeric(source, old(State())))
    {
      AdvanceWhile(IsDigit);
      if Peek() == Some('.') {
        var _ := Advance();
        var hasDigitsAfterDot := false;
        ghost var s1 := State();
        while Peek().Some?
          invariant Valid()
          invariant Lex.FractionDigits(source, State(), hasDigitsAfterDot) == Lex.FractionDigits(source, s1, false)
          decreases |source| - current
        {
          if IsDigit(Peek().value) {
            hasDigitsAfterDot := true;
            var _ := Advance();
          } else {
            hasDigitsAfterDot := false;
            break;
          }
        }
        if !hasDigitsAfterDot {
          return Err(Lex.InvalidFloat);
        }
      }
      var text := source[start..current];
      AddToken(Literal, text, Some(ParsedLiteral.Decimal(text)));
      r := Ok(());
    }

    /** The test `source[current..current + |part|].to_uppercase() == part`
        that follows a first word, moving over the part when `skip` is set. */
    method ExpectPart(part: string, skip: bool) returns (r: Result<(), Lex.ScanError>)
      requires Valid()
      modifies this
      ensures Valid()
      ensures Lex.Settles(r, State(), Lex.ExpectPart(source, old(State()), part, skip))
    {
      if current + |part| > |source| {
        return Err(Lex.SliceOutOfRange);
      }
      if ToUpper(source[current..current + |part|]) == part {
        if skip {
          current := current + |part|;
        }
        r := Ok(());
      } else {
        r := Err(Lex.ExpectedWord(part));
      }
    }

    /** The arms of `handle_alpha_numeric` for words that need a second word. */
    method SecondWord(w: Lex.FirstWord) returns (r: Result<TokenType, Lex.ScanError>)
      requires Valid()
      modifies this
      ensures Valid()
      ensures match Lex.SecondWord(source, old(State()), w)
              case Ok(v) => r == Ok(v.0) && State() == v.1
              case Err(e) => r == Err(e)
    {
      match w {
        case Primary => r := SecondPart(true, "KEY", true, PrimaryKey);
        case Unique => r := SecondPart(false, "KEY", true, PrimaryKey);
        case Foregin => r := SecondPart(false, "KEY", true, ForeginKey);
        case Left => r := SecondPart(true, "JOIN", true, LeftJoin);
        case Right => r := SecondPart(true, "JOIN", true, LeftJoin);
        case Begin => r := SecondPart(true, "TRANSACTION", false, BeginTransaction);
        case Full =>
          r := SecondPart(true, "OUTER", true, FullOuterJoin);
          if r.Ok? {
            r := SecondPart(true, "JOIN", true, FullOuterJoin);
          }
        case Order => r := SecondPart(true, "BY", true, OrderBy);
      }
    }

    /** One expected part of a multi-word keyword. */
    method SecondPart(spaces: bool, part: string, skip: bool, t: TokenType) returns (r: Result<TokenType, Lex.ScanError>)
      requires Valid()
      modifies this
      ensures Valid()
      ensures match Lex.SecondPart(source, old(State()), spaces, part, skip, t)
              case Ok(w) => r == Ok(w.0) && State() == w.1
              case Err(e) => r == Err(e)
    {
      if spaces {
        AdvanceWhile(IsWhitespace);
      }
      var ok := ExpectPart(part, skip);
      r := if ok.Ok? then Ok(t) else Err(ok.error);
    }

    /** `handle_alpha_numeric`. */
    method HandleAlphaNumeric() returns (r: Result<(), Lex.ScanError>)
      requires Valid()
      modifies this
      ensures Valid()
      ensures Lex.Settles(r, State(), Lex.ScanWord(source, old(State())))
    {
      AdvanceWhile(IsWordChar);
      var text := ToUpper(source[start..current]);
      var tokenType: TokenType;
      var first := Lex.FirstWordOf(text);
      if first.Some? {
        var second := SecondWord(first.value);
        if second.Err? {
          return Err(second.error);
        }
        tokenType := second.value;
      } else if Lex.Keyword(text).Some? {
        tokenType := Lex.Keyword(text).value;
      } else {
        tokenType := Identifier;
      }
      AddToken(tokenType, text, None);
      r := Ok(());
    }

    /** `handle_greater_relational_operator`. */
    method HandleGreaterRelationalOperator()
      requires Valid()
      modifies this
      ensures Valid()
      ensures State() == Lex.GreaterRelationalOperator(source, old(State()))
    {
      if Peek() == Some('=') {
        var _ := Advance();
        AddToken(GreaterThanOrEqualTo, ">=", None);
      } else {
        AddToken(GreaterThan, ">", None);
      }
    }

    /** `handle_lesser_relational_operator`. */
    method HandleLesserRelationalOperator()
      requires Valid()
      modifies this
      ensures Valid()
      ensures State() == Lex.LesserRelationalOperator(source, old(State()))
    {
      if Peek() == Some('=') {
        var _ := Advance();
        AddToken(LessThanOrEqualTo, "<=", None);
      } else if Peek() == Some('>') {
        var _ := Advance();
        AddToken(NotEqualTo, "<>", None);
      } else {
        AddToken(LessThan, "<", None);
      }
    }

    /** `tokenize`: scans token after token until the end of the source,
        stopping at the first error. */
    method Tokenize() returns (r: Result<seq<Token>, Lex.ScanError>)
      requires Valid()
      modifies this
      ensures r == Lex.TokenizeFrom(source, old(State()))
    {
      ghost var s0 := State();
      while !IsAtEnd()
        invariant Valid()
        invariant Lex.TokenizeFrom(source, State()) == Lex.TokenizeFrom(source, s0)
        decreases |source| - current
      {
        var step := ScanToken();
        if step.Err? {
          return Err(step.error);
        }
      }
      return Ok(tokens);
    }
  }
}
