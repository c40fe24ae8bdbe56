/** The older scanner as the source writes it (src/parser/scanner.rs): a
    cursor over the source text whose fields `start`, `current` and `line`
    advance in loops and whose token list grows by `add_token`. Every method
    is proved to leave the fields as the matching function of `LegacyLex`
    says; a panic of the source is the error `AdvancePastEnd`. */
module LegacyScanner {
  import opened Wrappers
  import opened Ascii
  import opened LegacyTokens
  import Lex = LegacyLex

  class Scanner {
    const source: string
    var start: nat
    var current: nat
    var line: int
    var tokens: seq<Token>

    function State(): Lex.Scan
      reads this
    {
      Lex.Scan(start, current, line, tokens)
    }

    ghost predicate Valid()
      reads this
    {
      Lex.Within(source, State())
    }

    /** `Scanner::new`. */
    constructor(source: string)
      ensures this.source == source && State() == Lex.Initial() && Valid()
    {
      this.source := source;
      current := 0;
      start := 0;
      line := 1;
      tokens := [];
    }

    /** `is_at_end`. */
    function IsAtEnd(): (r: bool)
      reads this
      ensures r <==> current >= |source|
    {
      current >= |source|
    }

    /** `peek`. */
    function Peek(): (r: char)
      reads this
      ensures r == Lex.Peek(source, State())
    {
      if IsAtEnd() then '\0' else source[current]
    }

    /** `peek_next`. */
    function PeekNext(): (r: char)
      reads this
      ensures r == Lex.PeekNext(source, State())
    {
      if current + 1 >= |source| then '\0' else source[current + 1]
    }

    /** `advance`: the character at `current`, moving past it; the source
        unwraps the character, so at the end this is the panic. */
    method Advance() returns (r: Result<char, Lex.ScanError>)
      requires Valid()
      modifies this
      ensures Valid()
      ensures r.Ok? <==> old(current) < |source|
      ensures r.Ok? ==> r.value == source[old(current)] && State() == old(State()).(current := old(current) + 1)
      ensures r.Err? ==> r.error == Lex.AdvancePastEnd
    {
      if current >= |source| {
        return Err(Lex.AdvancePastEnd);
      }
      r := Ok(source[current]);
      current := current + 1;
    }

    /** `add_token`. */
    method AddToken(t: TokenType, literal: Option<ScannedValue>)
      requires Valid()
      modifies this
      ensures Valid()
      ensures State() == Lex.AddToken(source, old(State()), t, literal)
    {
      tokens := tokens + [Token(t, source[start..current], literal)];
    }

    /** The `while p(self.peek()) { self.advance(); }` loops. */
    method AdvanceWhile(p: char -> bool)
      requires Valid() && !p('\0')
      modifies this
      ensures Valid()
      ensures State() == Lex.SkipWhile(source, old(State()), p)
    {
      ghost var s0 := State();
      while p(Peek())
        invariant Valid()
        invariant Lex.SkipWhile(source, State(), p) == Lex.SkipWhile(source, s0, p)
        decreases |source| - current
      {
        var _ := Advance();
      }
    }

    /** `scan_token`, with `start` already set to `current` by the caller. */
    method ScanToken() returns (r: Result<(), Lex.ScanError>)
      requires Valid() && start == current < |source|
      modifies this
      ensures Valid()
      ensures Lex.Settles(r, State(), Lex.ScanToken(source, old(State())))
    {
      var a := Advance();
      var c := a.value;
      r := Ok(());
      match c
      case '(' => AddToken(LeftParen, None);
      case ')' => AddToken(RightParen, None);
      case '*' => AddToken(Star, None);
      case ',' => AddToken(Comma, None);
      case ';' => AddToken(Semicolon, None);
      case '>' => AddToken(Greater, None);
      case '<' => AddToken(Lesser, None);
      case '=' => AddToken(Equal, None);
      case '\'' => r := ScanQuoted();
      case '\n' => line := line + 1;
      case _ =>
        if IsDigit(c) {
          ScanNumber();
        } else if IsAlpha(c) {
          ScanWord();
        }
    }

    /** The quoted-string arm of `scan_token`. */
    method ScanQuoted() returns (r: Result<(), Lex.ScanError>)
      requires Valid()
      modifies this
      ensures Valid()
      ensures Lex.Settles(r, State(), Lex.ScanQuoted(source, old(State())))
    {
      ghost var s0 := State();
      while Peek() != '\''
        invariant Valid()
        invariant Lex.ScanQuoted(source, State()) == Lex.ScanQuoted(source, s0)
        decreases |source| - current
      {
        var a := Advance();
        if a.Err? {
          return Err(a.error);
        }
      }
      var _ := Advance();
      var value := source[start..current];
      AddToken(Identifier, Some(StringValue(value)));
      r := Ok(());
    }

    /** The numeric arm of `scan_token`. */
    method ScanNumber()
      requires Valid()
      modifies this
      ensures Valid()
      ensures State() == Lex.ScanNumber(source, old(State()))
    {
      AdvanceWhile(IsDigit);
      if Peek() == '.' && IsDigit(PeekNext()) {
        var _ := Advance();
        AdvanceWhile(IsDigit);
      }
      var value := source[start..current];
      AddToken(Number, Some(NumberValue(value)));
    }

    /** The word arm of `scan_token`. */
    method ScanWord()
      requires Valid()
      modifies this
      ensures Valid()
      ensures State() == Lex.ScanWord(source, old(State()))
    {
      AdvanceWhile(IsWordChar);
      var text := ToUpper(source[start..current]);
      AddToken(Lex.KeywordType(text), None);
    }

    /** `scan_tokens`: scans token after token until the end of the source,
        appends EOF and hands the list over, leaving the field empty. */
    method ScanTokens() returns (r: Result<seq<Token>, Lex.ScanError>)
      requires Valid()
      modifies this
      ensures r == Lex.ScanTokensFrom(source, old(State()))
      ensures r.Ok? ==> tokens == []
    {
      ghost var s0 := State();
      while !IsAtEnd()
        invariant Valid()
        invariant Lex.ScanLoop(source, State()) == Lex.ScanLoop(source, s0)
        decreases |source| - current
      {
        start := current;
        var step := ScanToken();
        if step.Err? {
          return Err(step.error);
        }
      }
      tokens := tokens + [Token(Eof, "", None)];
      r := Ok(tokens);
      tokens := [];
    }
  }
}
