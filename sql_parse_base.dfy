/** The token cursor of the newer parser (src/parser_v2/parser.rs): its
    errors, `peek`, `check` and `consume` over a token list and a position. */
module SqlParseBase {
  import opened Wrappers
  import opened SqlTokens

  /** The parser's failures. The source reports most of them as message
      strings; the messages are left out and each becomes a tag. Panics
      (`tokens[current]` past the end, `unwrap` of a missing literal) and the
      loops that never end are tags too. */
  datatype ParseError =
    | Expected(tokenType: TokenType)       // `consume` on the wrong token
    | IndexPastEnd                         // `tokens[current]` with nothing left: a panic
    | UnexpectedStatementType
    | ExpectedColumnOrStar
    | InvalidWhereClause                   // too few operands for AND / OR
    | EmptyWhereClause
    | UnexpectedTokenInWhere
    | NotALogicalOperator(token: TokenType)
    | UnexpectedAfterIs
    | MixedInputList                       // "input of different types found"
    | ShouldNotReachHere
    | ExpectedExpression
    | ExpectedDataType
    | TableAndSchema                       // DROP naming both TABLE and SCHEMA
    | MissingLiteral                       // `literal.unwrap()` on a literal-less token: a panic
    | NonTerminating                       // a loop that makes no progress, so never ends

  /** `check`: false at the end of the tokens. */
  predicate Check(toks: seq<Token>, pos: nat, t: TokenType) {
    pos < |toks| && toks[pos].tokenType == t
  }

  /** `peek`: indexing past the end panics. */
  function Peek(toks: seq<Token>, pos: nat): (r: Result<Token, ParseError>)
    ensures r.Ok? <==> pos < |toks|
    ensures r.Ok? ==> r.value == toks[pos]
    ensures r.Err? ==> r.error == IndexPastEnd
  {
    if pos < |toks| then Ok(toks[pos]) else Err(IndexPastEnd)
  }

  /** `consume`: a token of the asked-for type is taken and the cursor moves
      by exactly one; otherwise the cursor stays and the error path indexes
      the current token, which panics at the end. */
  function Consume(toks: seq<Token>, pos: nat, t: TokenType): (r: Result<Parsed<Token>, ParseError>)
    ensures r.Ok? <==> Check(toks, pos, t)
    ensures r.Ok? ==> r.value == Parsed(toks[pos], pos + 1) && r.value.value.tokenType == t
    ensures r.Err? && pos < |toks| ==> r.error == Expected(t)
    ensures r.Err? && pos >= |toks| ==> r.error == IndexPastEnd
  {
    if Check(toks, pos, t) then Ok(Parsed(toks[pos], pos + 1))
    else if pos < |toks| then Err(Expected(t))
    else Err(IndexPastEnd)
  }

  /** A method's result `r` with the cursor left at `pos` is what the parsing
      function `spec` says: the same value and position on success, the same
      error on failure (where the cursor is left is then not specified). */
  predicate Agrees<T(==)>(r: Result<T, ParseError>, pos: nat, spec: Result<Parsed<T>, ParseError>) {
    match spec
    case Ok(p) => r == Ok(p.value) && pos == p.pos
    case Err(e) => r == Err(e)
  }
}
