/** What the newer scanner (src/parser_v2/scanner.rs) computes, as functions
    over the scanner's state. `SqlScanner.Scanner` performs the same steps in
    place and is proved to agree with these functions.

    Characters are classified as ASCII: `is_whitespace`, `is_numeric` and
    `is_alphanumeric` are taken on their ASCII range only. */
module SqlLex {
  import opened Wrappers
  import opened SqlTokens
  import opened Ascii

  /** Why scanning stopped. Message texts and the line/column in them are
      not modelled. */
  datatype ScanError =
    | UnexpectedCharacter(c: char)
    | InvalidEscape(escaped: char)
    | UnterminatedString
    | InvalidFloat
    /** The word after PRIMARY, UNIQUE, FOREGIN, LEFT, RIGHT, BEGIN, FULL or
        ORDER (or after FULL OUTER) is not the one that must follow. */
    | ExpectedWord(word: string)
    /** Panic: a slice `source[current..current + n]` past the end. */
    | SliceOutOfRange

  /** The scanner's fields other than the source text. */
  datatype Scan = Scan(start: nat, current: nat, line: nat, column: nat, tokens: seq<Token>)

  /** The state every scanner method works in. */
  predicate Within(src: string, s: Scan) {
    s.start <= s.current <= |src|
  }

  /** `peek`: the character at `current`, if any. */
  function PeekChar(src: string, s: Scan): (r: Option<char>)
    ensures r.Some? <==> s.current < |src|
    ensures r.Some? ==> r.value == src[s.current]
  {
    if s.current < |src| then Some(src[s.current]) else None
  }

  /** `advance`: steps over one character; a newline starts a new line at
      column 0, any other character moves one column right. */
  function Advanced(src: string, s: Scan): (r: Scan)
    ensures r.start == s.start && r.tokens == s.tokens
    ensures s.current < |src| ==> r.current == s.current + 1
    ensures s.current < |src| && src[s.current] == '\n' ==> r.line == s.line + 1 && r.column == 0
    ensures s.current < |src| && src[s.current] != '\n' ==> r.line == s.line && r.column == s.column + 1
    ensures s.current >= |src| ==> r == s
  {
    if s.current < |src| then
      if src[s.current] == '\n' then s.(current := s.current + 1, line := s.line + 1, column := 0)
      else s.(current := s.current + 1, column := s.column + 1)
    else s
  }

  /** `add_token`: appends a token stamped with the current line and column. */
  function AddToken(s: Scan, t: TokenType, lexeme: string, literal: Option<ParsedLiteral>): (r: Scan)
    ensures r.tokens == s.tokens + [Token(t, lexeme, literal, s.line, s.column)]
    ensures r.(tokens := s.tokens) == s
  {
    s.(tokens := s.tokens + [Token(t, lexeme, literal, s.line, s.column)])
  }

  /** `while let Some(c) = self.peek() { if p(c) { self.advance(); } else { break; } }` */
  function SkipWhile(src: string, s: Scan, p: char -> bool): (r: Scan)
    requires Within(src, s)
    ensures Within(src, r) && r.start == s.start && r.tokens == s.tokens
    ensures s.current <= r.current
    ensures forall i :: s.current <= i < r.current ==> p(src[i])
    ensures r.current < |src| ==> !p(src[r.current])
    decreases |src| - s.current
  {
    if s.current < |src| && p(src[s.current]) then SkipWhile(src, Advanced(src, s), p) else s
  }

  /** The one-character tokens of `scan_token` and their types. */
  function Punctuation(c: char): (r: Option<TokenType>)
    ensures r.Some? <==> c in "()*,;=+-/%"
  {
    match c
    case '(' => Some(OpenParen)
    case ')' => Some(CloseParen)
    case '*' => Some(AllColumnsOrMultiplication)
    case ',' => Some(Comma)
    case ';' => Some(Semicolon)
    case '=' => Some(EqualTo)
    case '+' => Some(Addition)
    case '-' => Some(Subtraction)
    case '/' => Some(Division)
    case '%' => Some(Modulus)
    case _ => None
  }

  /** The arms of `scan_token`'s match, tried in the source's order. */
  datatype CharClass = Punct | Greater | Lesser | Quote | Newline | Space | Digit | Letter | Other

  function Classify(c: char): (r: CharClass)
    ensures r == Punct <==> Punctuation(c).Some?
    ensures r == Letter ==> IsAlpha(c)
    ensures IsAlpha(c) ==> r == Letter
    ensures IsDigit(c) ==> r == Digit
    ensures r == Digit ==> IsDigit(c)
    ensures c == '>' ==> r == Greater
    ensures c == '<' ==> r == Lesser
    ensures c == '\'' ==> r == Quote
    ensures c == '\n' ==> r == Newline
  {
    if Punctuation(c).Some? then Punct
    else if c == '>' then Greater
    else if c == '<' then Lesser
    else if c == '\'' then Quote
    else if c == '\n' then Newline
    else if IsWhitespace(c) then Space
    else if IsDigit(c) then Digit
    else if IsAlphaNumeric(c) then Letter
    else Other
  }

  /** `scan_token`: starts a token at `current` and scans one lexical item. */
  function ScanToken(src: string, s: Scan): (r: Result<Scan, ScanError>)
    requires Within(src, s)
    ensures r.Ok? ==> Within(src, r.value)
    ensures r.Ok? && s.current < |src| ==> r.value.current > s.current
    ensures r.Ok? ==> AppendsAtMostOne(s.tokens, r.value.tokens)
  {
    var s0 := s.(start := s.current);
    if s0.current >= |src| then Ok(s0)
    else
      var c := src[s0.current];
      var s1 := Advanced(src, s0);
      match Classify(c)
      case Punct => Ok(AddToken(s1, Punctuation(c).value, [c], None))
      case Greater => Ok(GreaterRelationalOperator(src, s1))
      case Lesser => Ok(LesserRelationalOperator(src, s1))
      case Quote => ScanString(src, s1)
      case Newline => Ok(s1.(line := s1.line + 1, column := 0))
      case Space => Ok(s1)
      case Digit => ScanNumeric(src, s1)
      case Letter => ScanWord(src, s1)
      case Other => Err(UnexpectedCharacter(c))
  }

  /** `after` is `before` with at most one token appended, and that token is
      not an end-of-input token. */
  predicate AppendsAtMostOne(before: seq<Token>, after: seq<Token>) {
    after == before || (|after| == |before| + 1 && after[..|before|] == before && after[|before|].tokenType != Eof)
  }

  /** `handle_greater_relational_operator`, after the `>` has been read. */
  function GreaterRelationalOperator(src: string, s: Scan): (r: Scan)
    requires Within(src, s)
    ensures Within(src, r) && r.current >= s.current && AppendsAtMostOne(s.tokens, r.tokens)
  {
    if PeekChar(src, s) == Some('=') then AddToken(Advanced(src, s), GreaterThanOrEqualTo, ">=", None)
    else AddToken(s, GreaterThan, ">", None)
  }

  /** `handle_lesser_relational_operator`, after the `<` has been read. */
  function LesserRelationalOperator(src: string, s: Scan): (r: Scan)
    requires Within(src, s)
    ensures Within(src, r) && r.current >= s.current && AppendsAtMostOne(s.tokens, r.tokens)
  {
    if PeekChar(src, s) == Some('=') then AddToken(Advanced(src, s), LessThanOrEqualTo, "<=", None)
    else if PeekChar(src, s) == Some('>') then AddToken(Advanced(src, s), NotEqualTo, "<>", None)
    else AddToken(s, LessThan, "<", None)
  }

  /** The token `handle_string` adds once the closing quote has been read: a
      Literal whose lexeme and value run from the opening quote up to, not
      including, the closing one. */
  function StringToken(src: string, s: Scan): Token
    requires s.start < s.current <= |src|
  {
    var text := src[s.start..s.current - 1];
    Token(Literal, text, Some(ParsedLiteral.Text(text)), s.line, s.column)
  }

  /** The escapes `handle_string` accepts after a backslash. */
  predicate IsEscape(c: char) { c == '\'' || c == '\\' || c == 'n' || c == 't' }

  /** `handle_string`, after the opening quote has been read: the loop that
      looks for the closing quote. The token's text runs from the opening
      quote up to, not including, the closing quote. */
  function ScanString(src: string, s: Scan): (r: Result<Scan, ScanError>)
    requires Within(src, s) && s.start < s.current
    ensures r.Ok? ==> Within(src, r.value) && r.value.current > s.current
    ensures r.Ok? ==> r.value.start == s.start
    ensures r.Ok? ==> r.value.tokens == s.tokens + [StringToken(src, r.value)]
    decreases |src| - s.current
  {
    if s.current >= |src| then Err(UnterminatedString)
    else
      var c := src[s.current];
      if c == '\'' then
        var s1 := Advanced(src, s);
        Ok(s1.(tokens := s1.tokens + [StringToken(src, s1)]))
      else if c == '\\' then
        var s1 := Advanced(src, s);
        if s1.current >= |src| then ScanString(src, s1)
        else if IsEscape(src[s1.current]) then ScanString(src, Advanced(src, s1))
        else Err(InvalidEscape(src[s1.current]))
      else ScanString(src, Advanced(src, s))
  }

  /** The digits after the dot in `handle_numeric`, with the flag
      `has_digits_after_dot` as it stands when the loop ends. A character
      other than a digit clears the flag. */
  function FractionDigits(src: string, s: Scan, hasDigits: bool): (r: (Scan, bool))
    requires Within(src, s)
    ensures Within(src, r.0) && r.0.current >= s.current
    ensures r.0.start == s.start && r.0.tokens == s.tokens
    decreases |src| - s.current
  {
    if s.current >= |src| then (s, hasDigits)
    else if IsDigit(src[s.current]) then FractionDigits(src, Advanced(src, s), true)
    else (s, false)
  }

  /** `handle_numeric`, after the first digit has been read. The lexeme and
      the literal keep the text of the number. */
  function ScanNumeric(src: string, s: Scan): (r: Result<Scan, ScanError>)
    requires Within(src, s)
    ensures r.Ok? ==> Within(src, r.value) && r.value.current >= s.current
    ensures r.Ok? ==> r.value.tokens == s.tokens + [NumberToken(src, r.value)]
  {
    var s1 := SkipWhile(src, s, IsDigit);
    if PeekChar(src, s1) == Some('.') then
      var (s2, hasDigits) := FractionDigits(src, Advanced(src, s1), false);
      if !hasDigits then Err(InvalidFloat)
      else Ok(s2.(tokens := s2.tokens + [NumberToken(src, s2)]))
    else Ok(s1.(tokens := s1.tokens + [NumberToken(src, s1)]))
  }

  /** The token `handle_numeric` adds: a Literal whose lexeme and value are
      the text from `start` to `current`. */
  function NumberToken(src: string, s: Scan): Token
    requires Within(src, s)
  {
    var text := src[s.start..s.current];
    Token(Literal, text, Some(ParsedLiteral.Decimal(text)), s.line, s.column)
  }

  /** The one-word keywords of `handle_alpha_numeric`. `INTEGER` is mapped
      to `Insert` and the `Decimal` arm is written in mixed case, as in the
      source. */
  function Keyword(text: string): (r: Option<TokenType>)
    ensures r != Some(Eof)
  {
    if text == "SELECT" then Some(Select)
    else if text == "INSERT" then Some(Insert)
    else if text == "DELETE" then Some(Delete)
    else if text == "UPDATE" then Some(Update)
    else if text == "CREATE" then Some(Create)
    else if text == "DROP" then Some(Drop)
    else if text == "FROM" then Some(From)
    else if text == "WHERE" then Some(Where)
    else if text == "INTO" then Some(Into)
    else if text == "VALUES" then Some(Values)
    else if text == "TRUNCATE" then Some(Truncate)
    else if text == "RENAME" then Some(Rename)
    else if text == "ALTER" then Some(Alter)
    else if text == "ON" then Some(On)
    else if text == "ASC" then Some(AscendingOrder)
    else if text == "DESC" then Some(DecendingOrder)
    else if text == "SET" then Some(Set)
    else if text == "COMMIT" then Some(Commit)
    else if text == "ROLLBACK" then Some(RollBack)
    else if text == "TABLE" then Some(Table)
    else if text == "AND" then Some(And)
    else if text == "NOT" then Some(Not)
    else if text == "NULL" then Some(Null)
    else if text == "IS" then Some(Is)
    else if text == "ADD" then Some(Add)
    else if text == "CONSTRAINT" then Some(Constraint)
    else if text == "OR" then Some(Or)
    else if text == "SCHEMA" then Some(Schema)
    else if text == "DISTINCT" then Some(Distinct)
    else if text == "IN" then Some(In)
    else if text == "INTEGER" then Some(Insert)
    else if text == "TEXT" then Some(TextType)
    else if text == "Decimal" then Some(DecimalType)
    else if text == "BOOLEAN" then Some(Boolean)
    else None
  }

  /** The token type of a one-word item: its keyword, or `Identifier`. */
  function WordKind(text: string): (r: TokenType)
    ensures Keyword(text).Some? ==> r == Keyword(text).value
    ensures Keyword(text).None? ==> r == Identifier
  {
    if Keyword(text).Some? then Keyword(text).value else Identifier
  }

  /** The arms of `handle_alpha_numeric` that go on to read a second word. */
  datatype FirstWord = Primary | Unique | Foregin | Left | Right | Begin | Full | Order

  /** Which of those arms an upper-cased word selects, if any. */
  function FirstWordOf(text: string): (r: Option<FirstWord>)
  {
    if text == "PRIMARY" then Some(Primary)
    else if text == "UNIQUE" then Some(Unique)
    else if text == "FOREGIN" then Some(Foregin)
    else if text == "LEFT" then Some(Left)
    else if text == "RIGHT" then Some(Right)
    else if text == "BEGIN" then Some(Begin)
    else if text == "FULL" then Some(Full)
    else if text == "ORDER" then Some(Order)
    else None
  }

  /** The comparison `source[current..current + |part|].to_uppercase() == part`,
      which panics when the slice runs past the end. On a match the cursor
      moves over the part when `skip` is set; the column is not updated. */
  function ExpectPart(src: string, s: Scan, part: string, skip: bool): (r: Result<Scan, ScanError>)
    requires Within(src, s)
    ensures r.Ok? <==> s.current + |part| <= |src| && ToUpper(src[s.current..s.current + |part|]) == part
    ensures r.Ok? ==> Within(src, r.value) && r.value.current >= s.current
    ensures r.Ok? ==> r.value == (if skip then s.(current := s.current + |part|) else s)
    ensures s.current + |part| > |src| ==> r == Err(SliceOutOfRange)
  {
    if s.current + |part| > |src| then Err(SliceOutOfRange)
    else if ToUpper(src[s.current..s.current + |part|]) == part then
      Ok(if skip then s.(current := s.current + |part|) else s)
    else Err(ExpectedWord(part))
  }

  function SkipSpaces(src: string, s: Scan): (r: Scan)
    requires Within(src, s)
    ensures Within(src, r) && r.current >= s.current && r.start == s.start && r.tokens == s.tokens
  {
    SkipWhile(src, s, IsWhitespace)
  }

  /** The second word of a multi-word keyword, read after the first word
      `w`; gives the token type and the state after it. */
  function SecondWord(src: string, s: Scan, w: FirstWord): (r: Result<(TokenType, Scan), ScanError>)
    requires Within(src, s)
    ensures r.Ok? ==> Within(src, r.value.1) && r.value.1.current >= s.current
    ensures r.Ok? ==> r.value.1.start == s.start && r.value.1.tokens == s.tokens
    ensures r.Ok? ==> r.value.0 != Eof
  {
    match w
    case Primary => SecondPart(src, s, true, "KEY", true, PrimaryKey)
    case Unique => SecondPart(src, s, false, "KEY", true, PrimaryKey)
    case Foregin => SecondPart(src, s, false, "KEY", true, ForeginKey)
    case Left => SecondPart(src, s, true, "JOIN", true, LeftJoin)
    case Right => SecondPart(src, s, true, "JOIN", true, LeftJoin)
    case Begin => SecondPart(src, s, true, "TRANSACTION", false, BeginTransaction)
    case Full =>
      var (_, s1) :- SecondPart(src, s, true, "OUTER", true, FullOuterJoin);
      SecondPart(src, s1, true, "JOIN", true, FullOuterJoin)
    case Order => SecondPart(src, s, true, "BY", true, OrderBy)
  }

  /** One expected part of a multi-word keyword: optionally skip whitespace,
      then match `part`; on success the keyword is `t`. */
  function SecondPart(src: string, s: Scan, spaces: bool, part: string, skip: bool, t: TokenType)
    : (r: Result<(TokenType, Scan), ScanError>)
    requires Within(src, s)
    ensures r.Ok? ==> Within(src, r.value.1) && r.value.1.current >= s.current
    ensures r.Ok? ==> r.value.1.start == s.start && r.value.1.tokens == s.tokens && r.value.0 == t
  {
    var s1 :- ExpectPart(src, if spaces then SkipSpaces(src, s) else s, part, skip);
    Ok((t, s1))
  }

  /** `handle_alpha_numeric`, after the first character has been read. The
      lexeme is the upper-cased word; for a two-word keyword it is only the
      first word. */
  function ScanWord(src: string, s: Scan): (r: Result<Scan, ScanError>)
    requires Within(src, s)
    ensures r.Ok? ==> Within(src, r.value) && r.value.current >= s.current
    ensures r.Ok? ==> |r.value.tokens| == |s.tokens| + 1 && r.value.tokens[..|s.tokens|] == s.tokens
    ensures r.Ok? ==> var t := r.value.tokens[|s.tokens|];
                      t.tokenType != Eof && t.lexeme == WordText(src, s) && t.literal == None
  {
    var s1 := SkipWhile(src, s, IsWordChar);
    var text := ToUpper(src[s1.start..s1.current]);
    var w :- WordType(src, s1, text);
    Ok(AddToken(w.1, w.0, text, None))
  }

  /** The upper-cased word that starts at `start`. */
  function WordText(src: string, s: Scan): (r: string)
    requires Within(src, s)
  {
    var s1 := SkipWhile(src, s, IsWordChar);
    ToUpper(src[s1.start..s1.current])
  }

  /** The token type of an upper-cased word, reading a second word when the
      word starts a two-word keyword. */
  function WordType(src: string, s: Scan, text: string): (r: Result<(TokenType, Scan), ScanError>)
    requires Within(src, s)
    ensures r.Ok? ==> Within(src, r.value.1) && r.value.1.current >= s.current
    ensures r.Ok? ==> r.value.1.start == s.start && r.value.1.tokens == s.tokens
    ensures FirstWordOf(text).None? ==> r == Ok((WordKind(text), s))
    ensures r.Ok? ==> r.value.0 != Eof
  {
    match FirstWordOf(text)
    case Some(w) => SecondWord(src, s, w)
    case None => Ok((WordKind(text), s))
  }

  /** `tokenize`: scans until the end of the source or the first error. No
      end-of-input token is appended. */
  function TokenizeFrom(src: string, s: Scan): (r: Result<seq<Token>, ScanError>)
    requires Within(src, s)
    ensures r.Ok? ==> |r.value| >= |s.tokens| && r.value[..|s.tokens|] == s.tokens
    decreases |src| - s.current
  {
    if s.current >= |src| then Ok(s.tokens)
    else
      match ScanToken(src, s)
      case Err(e) => Err(e)
      case Ok(s1) => TokenizeFrom(src, s1)
  }

  /** The state of `Scanner::new`. */
  function Initial(): (s: Scan)
    ensures s.start == 0 && s.current == 0 && s.line == 1 && s.column == 0 && s.tokens == []
  {
    Scan(0, 0, 1, 0, [])
  }

  function Tokenize(src: string): (r: Result<seq<Token>, ScanError>) {
    TokenizeFrom(src, Initial())
  }

  /** How a scanner method's outcome and final state agree with the
      function that specifies it. */
  predicate Settles(r: Result<(), ScanError>, after: Scan, spec: Result<Scan, ScanError>) {
    match spec
    case Ok(s) => r == Ok(()) && after == s
    case Err(e) => r == Err(e)
  }
}
