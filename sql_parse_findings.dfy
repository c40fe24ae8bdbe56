/** The newer parser's statement code as written (src/parser_v2/parser.rs),
    where it differs from the corrected functions of `SqlParse` that the rest
    of the model uses, with inputs that show each difference. A loop whose
    round leaves the cursor and every accumulator as they were repeats that
    round forever; it is reported as `NonTerminating`. */
module SqlParseFindings {
  import opened Wrappers
  import opened SqlTokens
  import A = SqlAst
  import opened SqlParseBase
  import P = SqlParse

  // ---------------------------------------------------------------------
  // SELECT: the loop after the table name

  /** The `while !self.is_at_end()` loop of `select_statement` as written:
      a round that finds neither WHERE nor ORDER BY changes nothing, so the
      loop never ends unless the tokens run out. */
  function SelectTailAsWritten(toks: seq<Token>, pos: nat, whereClause: Option<A.WhereClause>, orderBy: Option<seq<A.OrderByClause>>)
    : (r: Result<Parsed<(Option<A.WhereClause>, Option<seq<A.OrderByClause>>)>, ParseError>)
    requires pos <= |toks|
    ensures r.Ok? ==> r.value.pos == |toks|
    ensures pos < |toks| && !Check(toks, pos, Where) && !Check(toks, pos, OrderBy) ==> r == Err(NonTerminating)
    decreases |toks| - pos
  {
    if pos >= |toks| then Ok(Parsed((whereClause, orderBy), pos))
    else
      var w :- P.OptionalWhere(toks, pos, whereClause);
      var o :- P.OptionalOrderBy(toks, w.pos, orderBy);
      if o.pos == pos then Err(NonTerminating)
      else SelectTailAsWritten(toks, o.pos, w.value, o.value)
  }

  /** `select_statement` as written. */
  function SelectStatementAsWritten(toks: seq<Token>, pos: nat): (r: Result<Parsed<A.SelectStatement>, ParseError>)
    requires pos <= |toks|
    ensures r.Ok? ==> r.value.pos == |toks|
  {
    var select :- Consume(toks, pos, Select);
    var columns :- P.SelectColumns(toks, select.pos, []);
    var from :- Consume(toks, columns.pos, From);
    var table :- Consume(toks, from.pos, Identifier);
    var tail :- SelectTailAsWritten(toks, table.pos, None, None);
    Ok(Parsed(A.SelectStatement(columns.value, table.value.lexeme, tail.value.0, tail.value.1, None, None), tail.pos))
  }

  /** `SELECT * FROM t ;` */
  function SelectWithSemicolon(): seq<Token> {
    [Tok(Select, "SELECT"), Tok(AllColumnsOrMultiplication, "*"), Tok(From, "FROM"), Tok(Identifier, "t"), Tok(Semicolon, ";")]
  }

  /** As written, the semicolon the scanner produces for `;` is never
      consumed, so `SELECT * FROM t;` never finishes; corrected, the loop
      stops on it. */
  lemma SelectWithSemicolonNeverEnds()
    ensures SelectStatementAsWritten(SelectWithSemicolon(), 0) == Err(NonTerminating)
    ensures P.SelectStatement(SelectWithSemicolon(), 0)
            == Ok(Parsed(A.SelectStatement([A.All], "t", None, None, None, None), 4))
  {
    var toks := SelectWithSemicolon();
    assert [] + [A.All] == [A.All];
    assert P.SelectColumns(toks, 1, []) == Ok(Parsed([A.All], 2));
    assert P.OptionalWhere(toks, 4, None) == Ok(Parsed(None, 4));
    assert P.OptionalOrderBy(toks, 4, None) == Ok(Parsed(None, 4));
    assert SelectTailAsWritten(toks, 4, None, None) == Err(NonTerminating);
    assert P.SelectTail(toks, 4, None, None) == Ok(Parsed((None, None), 4));
  }

  // ---------------------------------------------------------------------
  // IS NULL

  /** The IS arm of `parse_primary_condition` as written, after IS: `NOT
      NULL` is consumed, but a lone `NULL` is recognised and left in place. */
  function NullCheckAfterIsAsWritten(toks: seq<Token>, lhs: Token, pos: nat): (r: Result<Parsed<A.Condition>, ParseError>)
    ensures r.Ok? && pos < |toks| && toks[pos].tokenType == Null ==> r.value == Parsed(A.NullCheck(A.IsNull(lhs.lexeme)), pos)
    ensures r.Ok? <==> pos < |toks| && ((toks[pos].tokenType == Not && Check(toks, pos + 1, Null)) || toks[pos].tokenType == Null)
  {
    if pos >= |toks| then Err(IndexPastEnd)
    else if toks[pos].tokenType == Not then
      var nul :- Consume(toks, pos + 1, Null);
      Ok(Parsed(A.NullCheck(A.IsNotNull(lhs.lexeme)), nul.pos))
    else if toks[pos].tokenType == Null then Ok(Parsed(A.NullCheck(A.IsNull(lhs.lexeme)), pos))
    else Err(UnexpectedAfterIs)
  }

  /** As written, `x IS NULL` inside a WHERE clause always fails: the WHERE
      loop resumes on the NULL token the IS arm left behind, and NULL starts
      no condition. The corrected arm moves past it. */
  lemma IsNullLeavesNull(toks: seq<Token>, pos: nat, stack: seq<TokenType>, output: seq<A.Condition>)
    requires pos + 3 <= |toks|
    requires toks[pos + 1].tokenType == Is && toks[pos + 2].tokenType == Null
    ensures NullCheckAfterIsAsWritten(toks, toks[pos], pos + 2) == Ok(Parsed(A.NullCheck(A.IsNull(toks[pos].lexeme)), pos + 2))
    ensures P.WhereLoop(toks, pos + 2, stack, output + [A.NullCheck(A.IsNull(toks[pos].lexeme))]) == Err(UnexpectedTokenInWhere)
    ensures P.PrimaryCondition(toks, pos) == Ok(Parsed(A.NullCheck(A.IsNull(toks[pos].lexeme)), pos + 3))
  {
  }

  // ---------------------------------------------------------------------
  // CREATE TABLE: the data type and the constraints

  /** The constraint loop as written: PRIMARY KEY is pushed without being
      consumed, so once it is seen the loop repeats forever. */
  function ConstraintsAsWritten(toks: seq<Token>, pos: nat, acc: seq<A.ColumnConstraint>): (r: Result<Parsed<seq<A.ColumnConstraint>>, ParseError>)
    requires pos <= |toks|
    ensures Check(toks, pos, PrimaryKey) ==> r == Err(NonTerminating)
    ensures r.Ok? ==> pos <= r.value.pos <= |toks|
    decreases |toks| - pos
  {
    if Check(toks, pos, PrimaryKey) then Err(NonTerminating)
    else if Check(toks, pos, Not) then
      var nul :- Consume(toks, pos + 1, Null);
      ConstraintsAsWritten(toks, nul.pos, acc + [A.NotNull])
    else if Check(toks, pos, UniqueKey) then ConstraintsAsWritten(toks, pos + 1, acc + [A.UniqueKey])
    else Ok(Parsed(acc, pos))
  }

  /** A data type token, which can start no constraint. */
  predicate IsDataTypeToken(toks: seq<Token>, pos: nat) {
    pos < |toks| && toks[pos].tokenType in {Integer, DecimalType, TextType, Boolean}
  }

  /** One column definition as written: after the name a second identifier
      is consumed where the type belongs, and the type is read from the token
      after it without being consumed. */
  function ColumnDefinitionAsWritten(toks: seq<Token>, pos: nat): (r: Result<Parsed<A.ColumnDefinition>, ParseError>)
    requires pos <= |toks|
    ensures r.Ok? ==> r.value.pos == pos + 2 && IsDataTypeToken(toks, r.value.pos)
  {
    var name :- Consume(toks, pos, Identifier);
    var _ :- Consume(toks, name.pos, Identifier);
    var dataType :- P.DataTypeAt(toks, pos + 2);
    var constraints :- ConstraintsAsWritten(toks, pos + 2, []);
    Ok(Parsed(A.ColumnDefinition(name.value.lexeme, dataType, constraints.value), constraints.pos))
  }

  /** The column loop as written. */
  function ColumnDefinitionsAsWritten(toks: seq<Token>, pos: nat, acc: seq<A.ColumnDefinition>): (r: Result<Parsed<seq<A.ColumnDefinition>>, ParseError>)
    requires pos <= |toks|
    ensures r.Ok? ==> IsDataTypeToken(toks, r.value.pos)
    decreases |toks| - pos
  {
    var column :- ColumnDefinitionAsWritten(toks, pos);
    var columns := acc + [column.value];
    if Check(toks, column.pos, Comma) then ColumnDefinitionsAsWritten(toks, column.pos + 1, columns)
    else Ok(Parsed(columns, column.pos))
  }

  /** `create_statement` as written. */
  function CreateStatementAsWritten(toks: seq<Token>, pos: nat): (r: Result<Parsed<A.CreateStatement>, ParseError>)
    requires pos <= |toks|
    ensures r.Err?
    ensures Check(toks, pos, Create) && Check(toks, pos + 1, Table) && Check(toks, pos + 2, Identifier) &&
            Check(toks, pos + 3, OpenParen) && ColumnDefinitionsAsWritten(toks, pos + 4, []).Ok?
            ==> r == Err(Expected(CloseParen))
  {
    var _ :- Consume(toks, pos, Create);
    var _ :- Consume(toks, pos + 1, Table);
    var table :- Consume(toks, pos + 2, Identifier);
    var _ :- Consume(toks, pos + 3, OpenParen);
    var columns :- ColumnDefinitionsAsWritten(toks, pos + 4, []);
    match Consume(toks, columns.pos, CloseParen)
    case Err(e) => Err(e)
    case Ok(close) => Ok(Parsed(A.CreateStatement(table.value.lexeme, columns.value), close.pos))
  }

  /** As written, a column definition succeeds exactly on two identifiers
      and a type token, and then has no constraint: the loop starts on the
      type token, which starts no constraint, so its body (the PRIMARY KEY
      arm included) is never run. */
  lemma ConstraintLoopNeverRunsAsWritten(toks: seq<Token>, pos: nat)
    requires pos <= |toks|
    ensures ColumnDefinitionAsWritten(toks, pos).Ok? <==>
              Check(toks, pos, Identifier) && Check(toks, pos + 1, Identifier) && IsDataTypeToken(toks, pos + 2)
    ensures ColumnDefinitionAsWritten(toks, pos).Ok? ==>
              ColumnDefinitionAsWritten(toks, pos).value.value.constraints == []
  {
  }

  /** As written, no token list makes CREATE TABLE succeed: the column loop
      can only stop on the unconsumed type token, where `)` is expected. */
  lemma CreateNeverSucceeds(toks: seq<Token>, pos: nat)
    requires pos <= |toks|
    ensures CreateStatementAsWritten(toks, pos).Err?
  {
  }

  /** `CREATE TABLE t (id INTEGER PRIMARY KEY)` */
  function CreateWithPrimaryKey(): seq<Token> {
    [Tok(Create, "CREATE"), Tok(Table, "TABLE"), Tok(Identifier, "t"), Tok(OpenParen, "("),
     Tok(Identifier, "id"), Tok(Integer, "INTEGER"), Tok(PrimaryKey, "PRIMARY KEY"), Tok(CloseParen, ")")]
  }

  /** The smallest table definition with a key fails as written, at the
      type token INTEGER, where a second identifier is consumed. Its
      constraint loop, were it started on PRIMARY KEY, would never end, but
      as written it is never started there. Corrected, the statement
      parses. */
  lemma CreateWithPrimaryKeyParses()
    ensures CreateStatementAsWritten(CreateWithPrimaryKey(), 0) == Err(Expected(Identifier))
    ensures ConstraintsAsWritten(CreateWithPrimaryKey(), 6, []) == Err(NonTerminating)
    ensures P.CreateStatement(CreateWithPrimaryKey(), 0)
            == Ok(Parsed(A.CreateStatement("t", [A.ColumnDefinition("id", A.Integer, [A.PrimaryKey])]), 8))
  {
    var toks := CreateWithPrimaryKey();
    assert [] + [A.PrimaryKey] == [A.PrimaryKey];
    assert P.Constraints(toks, 7, [A.PrimaryKey]) == Ok(Parsed([A.PrimaryKey], 7));
    assert P.Constraints(toks, 6, []) == Ok(Parsed([A.PrimaryKey], 7));
    assert P.ColumnDefinition(toks, 4) == Ok(Parsed(A.ColumnDefinition("id", A.Integer, [A.PrimaryKey]), 7));
    assert [] + [A.ColumnDefinition("id", A.Integer, [A.PrimaryKey])] == [A.ColumnDefinition("id", A.Integer, [A.PrimaryKey])];
    assert P.ColumnDefinitions(toks, 4, []) == Ok(Parsed([A.ColumnDefinition("id", A.Integer, [A.PrimaryKey])], 7));
  }
}
