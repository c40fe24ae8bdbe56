/** What the older scanner (src/parser/scanner.rs) computes, as functions over
    the scanner's state. `LegacyScanner.Scanner` performs the same steps in
    place and is proved to agree with these functions.

    The source reads characters with `chars().nth(i)` but slices and measures
    by byte; on ASCII text the two agree, and the text is taken to be ASCII. */
module LegacyLex {
  import opened Wrappers
  import opened Ascii
  import opened LegacyTokens

  /** `advance` unwraps `chars().nth(current)`, which panics past the end. */
  datatype ScanError = AdvancePastEnd

  /** The scanner's fields other than the source text. */
  datatype Scan = Scan(start: nat, current: nat, line: int, tokens: seq<Token>)

  /** `Scanner::new`. */
  function Initial(): (r: Scan)
    ensures r.start == 0 && r.current == 0 && r.line == 1 && r.tokens == []
  {
    Scan(0, 0, 1, [])
  }

  predicate Within(src: string, s: Scan) {
    s.start <= s.current <= |src|
  }

  /** `peek`: the character at `current`, NUL at the end. */
  function Peek(src: string, s: Scan): (r: char)
    ensures s.current < |src| ==> r == src[s.current]
    ensures s.current >= |src| ==> r == '\0'
  {
    if s.current < |src| then src[s.current] else '\0'
  }

  /** `peek_next`: the character after `current`, NUL past the end. */
  function PeekNext(src: string, s: Scan): (r: char)
    ensures s.current + 1 < |src| ==> r == src[s.current + 1]
    ensures s.current + 1 >= |src| ==> r == '\0'
  {
    if s.current + 1 >= |src| then '\0' else src[s.current + 1]
  }

  /** `add_token`: the lexeme is the text from `start` to `current`. */
  function AddToken(src: string, s: Scan, t: TokenType, literal: Option<ScannedValue>): (r: Scan)
    requires Within(src, s)
    ensures r.tokens == s.tokens + [Token(t, src[s.start..s.current], literal)]
    ensures r.(tokens := s.tokens) == s
  {
    s.(tokens := s.tokens + [Token(t, src[s.start..s.current], literal)])
  }

  /** `while p(self.peek()) { self.advance(); }` for a property NUL does
      not have, so the loop stops at the end of the source. */
  function SkipWhile(src: string, s: Scan, p: char -> bool): (r: Scan)
    requires Within(src, s) && !p('\0')
    ensures Within(src, r) && r == s.(current := r.current)
    ensures s.current <= r.current
    ensures forall i :: s.current <= i < r.current ==> p(src[i])
    ensures !p(Peek(src, r))
    decreases |src| - s.current
  {
    if p(Peek(src, s)) then SkipWhile(src, s.(current := s.current + 1), p) else s
  }

  /** `while self.peek() != '\'' { self.advance(); }`: at the end `peek`
      gives NUL, so `advance` is called past the end and panics. */
  function SkipToQuote(src: string, s: Scan): (r: Result<Scan, ScanError>)
    requires Within(src, s)
    ensures r.Ok? ==> Within(src, r.value) && r.value == s.(current := r.value.current)
    ensures r.Ok? ==> s.current <= r.value.current < |src| && src[r.value.current] == '\''
    ensures r.Ok? ==> forall i :: s.current <= i < r.value.current ==> src[i] != '\''
    ensures r.Err? ==> r.error == AdvancePastEnd && forall i :: s.current <= i < |src| ==> src[i] != '\''
    decreases |src| - s.current
  {
    if Peek(src, s) == '\'' then Ok(s)
    else if s.current >= |src| then Err(AdvancePastEnd)
    else SkipToQuote(src, s.(current := s.current + 1))
  }

  /** The token types the scanner has no rule for: the enum declares them,
      but no text scans to them. */
  predicate NeverScanned(t: TokenType) {
    t == TableIdentifier || t == Newline || t == GreaterEqual || t == LesserEqual ||
    t == NotEqual || t == String || t == GreaterOrEqual || t == LesserOrEqual
  }

  /** The one-character tokens of `scan_token`. */
  function Punctuation(c: char): (r: Option<TokenType>)
    ensures r.Some? <==> c in "()*,;><="
    ensures r.Some? ==> r.value != Eof && !NeverScanned(r.value)
  {
    match c
    case '(' => Some(LeftParen)
    case ')' => Some(RightParen)
    case '*' => Some(Star)
    case ',' => Some(Comma)
    case ';' => Some(Semicolon)
    case '>' => Some(Greater)
    case '<' => Some(Lesser)
    case '=' => Some(Equal)
    case _ => None
  }

  /** The keyword table of the word arm, on upper-cased text. */
  function KeywordType(text: string): (r: TokenType)
    ensures r != Eof && !NeverScanned(r)
  {
    if text == "SELECT" then Select
    else if text == "INSERT" then Insert
    else if text == "DELETE" then Delete
    else if text == "UPDATE" then Update
    else if text == "CREATE" then Create
    else if text == "DROP" then Drop
    else if text == "FROM" then From
    else if text == "WHERE" then Where
    else if text == "INTO" then Into
    else if text == "VALUES" then Values
    else if text == "TRUNCATE" then Truncate
    else if text == "RENAME" then Rename
    else if text == "ALTER" then Alter
    else if text == "SET" then Set
    else if text == "COMMIT" then Commit
    else if text == "ROLLBACK" then Rollback
    else if text == "SAVEPOINT" then Savepoint
    else if text == "TABLE" then Table
    else if text == "PRIMARY" then Primary
    else if text == "KEY" then Key
    else if text == "UNIQUE" then Unique
    else if text == "AND" then And
    else if text == "NOT" then Not
    else if text == "NULL" then Null
    else if text == "IS" then Is
    else if text == "OR" then Or
    else Identifier
  }

  /** The quoted-string arm, after the opening quote: up to and over the
      next quote. The token is an IDENTIFIER whose lexeme and boxed value
      both keep the quotes. */
  function ScanQuoted(src: string, s: Scan): (r: Result<Scan, ScanError>)
    requires Within(src, s)
    ensures r.Err? <==> forall i :: s.current <= i < |src| ==> src[i] != '\''
    ensures r.Ok? ==> s.current < r.value.current <= |src| && src[r.value.current - 1] == '\'' &&
                      (forall i :: s.current <= i < r.value.current - 1 ==> src[i] != '\'') &&
                      r.value == s.(current := r.value.current, tokens := r.value.tokens) &&
                      r.value.tokens == s.tokens + [Token(Identifier, src[s.start..r.value.current],
                                                          Some(StringValue(src[s.start..r.value.current])))]
  {
    var q :- SkipToQuote(src, s);
    var closed := q.(current := q.current + 1);
    Ok(AddToken(src, closed, Identifier, Some(StringValue(src[closed.start..closed.current]))))
  }

  /** The numeric arm, after the first digit: more digits, then a `.` and
      digits only when a digit follows the `.`. The `f64` parse of such text
      always succeeds; the value is kept as its text. */
  function ScanNumber(src: string, s: Scan): (r: Scan)
    requires Within(src, s)
    ensures s.current <= r.current <= |src| && r == s.(current := r.current, tokens := r.tokens)
    ensures forall i :: s.current <= i < r.current ==> IsDigit(src[i]) || src[i] == '.'
    ensures !IsDigit(Peek(src, r))
    ensures r.tokens == s.tokens + [Token(Number, src[s.start..r.current], Some(NumberValue(src[s.start..r.current])))]
  {
    var whole := SkipWhile(src, s, IsDigit);
    var end := if Peek(src, whole) == '.' && IsDigit(PeekNext(src, whole))
               then SkipWhile(src, whole.(current := whole.current + 1), IsDigit)
               else whole;
    AddToken(src, end, Number, Some(NumberValue(src[end.start..end.current])))
  }

  /** The word arm, after the first letter: letters, digits and `_`; the
      upper-cased text picks the keyword, the lexeme keeps the source's
      case. */
  function ScanWord(src: string, s: Scan): (r: Scan)
    requires Within(src, s)
    ensures s.current <= r.current <= |src| && r == s.(current := r.current, tokens := r.tokens)
    ensures forall i :: s.current <= i < r.current ==> IsWordChar(src[i])
    ensures !IsWordChar(Peek(src, r))
    ensures r.tokens == s.tokens + [Token(KeywordType(ToUpper(src[s.start..r.current])), src[s.start..r.current], None)]
  {
    var end := SkipWhile(src, s, IsWordChar);
    AddToken(src, end, KeywordType(ToUpper(src[end.start..end.current])), None)
  }

  /** One call of `scan_token` adds at most one token, never EOF nor a type
      the scanner has no rule for, and its lexeme is the text the call
      consumed. */
  predicate Emits(src: string, s: Scan, r: Scan)
    requires s.start <= r.current <= |src|
  {
    |s.tokens| <= |r.tokens| <= |s.tokens| + 1 && r.tokens[..|s.tokens|] == s.tokens &&
    (|r.tokens| > |s.tokens| ==>
       r.tokens[|s.tokens|].lexeme == src[s.start..r.current] && r.tokens[|s.tokens|].tokenType != Eof &&
       !NeverScanned(r.tokens[|s.tokens|].tokenType))
  }

  /** `scan_token`, with `start` already set to `current`. */
  function ScanToken(src: string, s: Scan): (r: Result<Scan, ScanError>)
    requires Within(src, s) && s.start == s.current < |src|
    ensures r.Ok? ==> Within(src, r.value) && r.value.start == s.start && s.current < r.value.current
    ensures r.Ok? ==> Emits(src, s, r.value)
  {
    var c := src[s.current];
    var next := s.(current := s.current + 1);
    if Punctuation(c).Some? then Ok(AddToken(src, next, Punctuation(c).value, None))
    else if c == '\'' then ScanQuoted(src, next)
    else if c == '\n' then Ok(next.(line := next.line + 1))
    else if IsDigit(c) then Ok(ScanNumber(src, next))
    else if IsAlpha(c) then Ok(ScanWord(src, next))
    else Ok(next)
  }

  /** The loop of `scan_tokens`: `start = current; scan_token()` until the
      end of the source. */
  function ScanLoop(src: string, s: Scan): (r: Result<Scan, ScanError>)
    requires Within(src, s)
    ensures r.Ok? ==> Within(src, r.value) && r.value.current == |src|
    ensures r.Ok? ==> |s.tokens| <= |r.value.tokens| && r.value.tokens[..|s.tokens|] == s.tokens
    decreases |src| - s.current
  {
    if s.current >= |src| then Ok(s)
    else
      var next :- ScanToken(src, s.(start := s.current));
      ScanLoop(src, next)
  }

  /** `scan_tokens`: the scanned tokens, then EOF with an empty lexeme. */
  function ScanTokensFrom(src: string, s: Scan): (r: Result<seq<Token>, ScanError>)
    requires Within(src, s)
    ensures r.Ok? ==> |r.value| > |s.tokens| && r.value[..|s.tokens|] == s.tokens
    ensures r.Ok? ==> r.value[|r.value| - 1] == Token(Eof, "", None)
  {
    var end :- ScanLoop(src, s);
    Ok(end.tokens + [Token(Eof, "", None)])
  }

  /** `scan_tokens` on a new scanner. */
  function ScanTokens(src: string): (r: Result<seq<Token>, ScanError>)
    ensures r.Ok? ==> |r.value| > 0 && r.value[|r.value| - 1] == Token(Eof, "", None)
  {
    ScanTokensFrom(src, Initial())
  }

  /** A step of the scanner class ends as its function says: in the same
      state when that is `Ok`, with the same error otherwise. */
  predicate Settles(r: Result<(), ScanError>, after: Scan, spec: Result<Scan, ScanError>) {
    match spec
    case Ok(s) => r == Ok(()) && after == s
    case Err(e) => r == Err(e)
  }
}
