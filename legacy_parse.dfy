/** What the older recursive-descent parser (src/parser/mod.rs) computes, as
    functions from a token list and a cursor position to a parsed value and
    the position after it. `LegacyParser.Parser` performs the same steps on
    its `current` field and is proved to agree with these functions.

    Errors are the source's own message strings. Every token list the
    parser is given ends in EOF (the scanner appends it), `check` is false
    at EOF and `advance` does not move past it, so the cursor always stays
    on a token. */
module LegacyParse {
  import opened Wrappers
  import opened Ascii
  import opened LegacyTokens
  import opened LegacyNumbers
  import A = LegacyAst

  type Message = string

  /** The token lists `Parser::new` builds: the last token is EOF. */
  predicate EofTerminated(toks: seq<Token>) {
    |toks| > 0 && toks[|toks| - 1].tokenType == Eof
  }

  /** A position `peek` can read. */
  predicate Cursor(toks: seq<Token>, pos: nat) {
    EofTerminated(toks) && pos < |toks|
  }

  /** `is_at_end`. */
  predicate IsAtEnd(toks: seq<Token>, pos: nat)
    requires pos < |toks|
  {
    toks[pos].tokenType == Eof
  }

  /** `check`: false at EOF, whatever type is asked for. A token that passes
      is not the last one, so there is a token after it. */
  predicate Check(toks: seq<Token>, pos: nat, t: TokenType)
    requires pos < |toks|
    ensures Check(toks, pos, t) && EofTerminated(toks) ==> pos + 1 < |toks|
  {
    !IsAtEnd(toks, pos) && toks[pos].tokenType == t
  }

  /** `advance`: one step forward, except at EOF. */
  function Advance(toks: seq<Token>, pos: nat): (r: nat)
    requires Cursor(toks, pos)
    ensures r < |toks|
    ensures IsAtEnd(toks, pos) ==> r == pos
    ensures !IsAtEnd(toks, pos) ==> r == pos + 1
  {
    if IsAtEnd(toks, pos) then pos else pos + 1
  }

  /** `consume`: the token, and the cursor one further, when it has type
      `t`; otherwise the message, the cursor not moved. */
  function Consume(toks: seq<Token>, pos: nat, t: TokenType, message: Message): (r: Result<Parsed<Token>, Message>)
    requires Cursor(toks, pos)
    ensures r.Ok? <==> Check(toks, pos, t)
    ensures r.Ok? ==> r.value == Parsed(toks[pos], pos + 1) && r.value.value.tokenType == t && pos + 1 < |toks|
    ensures r.Err? ==> r.error == message
  {
    if Check(toks, pos, t) then Ok(Parsed(toks[pos], Advance(toks, pos))) else Err(message)
  }

  /** `match_token`: the cursor after an optional token of type `t`. */
  function MatchToken(toks: seq<Token>, pos: nat, t: TokenType): (r: nat)
    requires Cursor(toks, pos)
    ensures r < |toks|
    ensures Check(toks, pos, t) ==> r == pos + 1
    ensures !Check(toks, pos, t) ==> r == pos
  {
    if Check(toks, pos, t) then Advance(toks, pos) else pos
  }

  /** A successful parse leaves the cursor on a token at or after `pos`. */
  predicate Stays<T>(toks: seq<Token>, pos: nat, r: Result<Parsed<T>, Message>) {
    r.Ok? ==> pos <= r.value.pos < |toks|
  }

  /** A successful parse consumed at least one token. */
  predicate Moves<T>(toks: seq<Token>, pos: nat, r: Result<Parsed<T>, Message>) {
    r.Ok? ==> pos < r.value.pos < |toks|
  }

  /** A method's result `r` with the cursor left at `pos` is what the parsing
      function `spec` says: the same value and position on success, the same
      message on failure (where the cursor is left is then not specified). */
  predicate Agrees<T(==)>(r: Result<T, Message>, pos: nat, spec: Result<Parsed<T>, Message>) {
    match spec
    case Ok(p) => r == Ok(p.value) && pos == p.pos
    case Err(e) => r == Err(e)
  }

  /** `parse`: dispatch on the first token; what follows the statement is
      not looked at. */
  function Parse(toks: seq<Token>): (r: Result<A.SqlStatement, Message>)
    requires EofTerminated(toks)
    ensures toks[0].tokenType !in {Select, Insert, Update, Delete, Create, Drop} ==> r == Err("Unexpected statement type")
    ensures r.Ok? ==> (r.value.Select? <==> toks[0].tokenType == Select) && (r.value.Insert? <==> toks[0].tokenType == Insert) &&
                      (r.value.Update? <==> toks[0].tokenType == Update) && (r.value.Delete? <==> toks[0].tokenType == Delete) &&
                      (r.value.Create? <==> toks[0].tokenType == Create) && (r.value.Drop? <==> toks[0].tokenType == Drop)
  {
    var t := toks[0].tokenType;
    var statement :=
      if t == Select then SelectStatement(toks, 0)
      else if t == Insert then InsertStatement(toks, 0)
      else if t == Update then UpdateStatement(toks, 0)
      else if t == Delete then DeleteStatement(toks, 0)
      else if t == Create then CreateStatement(toks, 0)
      else if t == Drop then DropStatement(toks, 0)
      else Err("Unexpected statement type");
    match statement
    case Ok(s) => Ok(s.value)
    case Err(e) => Err(e)
  }

  /** The column loop of `select_statement`: `*` ends the list, a name may
      be followed by a comma and another item. */
  function SelectColumns(toks: seq<Token>, pos: nat, acc: seq<A.SelectColumn>): (r: Result<Parsed<seq<A.SelectColumn>>, Message>)
    requires Cursor(toks, pos)
    ensures Moves(toks, pos, r)
    ensures r.Ok? ==> |r.value.value| > |acc| && r.value.value[..|acc|] == acc
    decreases |toks| - pos
  {
    if Check(toks, pos, Star) then Ok(Parsed(acc + [A.All], pos + 1))
    else if Check(toks, pos, Identifier) then
      var columns := acc + [A.Column(toks[pos].lexeme)];
      if Check(toks, pos + 1, Comma) then
        var r := SelectColumns(toks, pos + 2, columns);
        assert r.Ok? ==> r.value.value[..|acc|] == r.value.value[..|columns|][..|acc|];
        r
      else Ok(Parsed(columns, pos + 1))
    else Err("Expected column name or *")
  }

  /** The optional `WHERE` that ends SELECT, UPDATE and DELETE. */
  function OptionalWhere(toks: seq<Token>, pos: nat): (r: Result<Parsed<Option<A.WhereClause>>, Message>)
    requires Cursor(toks, pos)
    ensures Stays(toks, pos, r)
    ensures r.Ok? && r.value.value.None? ==> r.value.pos == pos && !Check(toks, pos, Where)
  {
    if Check(toks, pos, Where) then
      var c :- WhereClause(toks, pos + 1);
      Ok(Parsed(Some(c.value), c.pos))
    else Ok(Parsed(None, pos))
  }

  /** `where_clause`: an OR-condition. */
  function WhereClause(toks: seq<Token>, pos: nat): (r: Result<Parsed<A.WhereClause>, Message>)
    requires Cursor(toks, pos)
    ensures Moves(toks, pos, r)
  {
    var c :- OrCondition(toks, pos);
    Ok(Parsed(A.WhereClause(c.value), c.pos))
  }

  /** `select_statement`. */
  function SelectStatement(toks: seq<Token>, pos: nat): (r: Result<Parsed<A.SqlStatement>, Message>)
    requires Cursor(toks, pos)
    ensures Moves(toks, pos, r)
  {
    var s :- Consume(toks, pos, Select, "expected select keyword");
    var columns :- SelectColumns(toks, s.pos, []);
    var f :- Consume(toks, columns.pos, From, "Expect FROM after select columns");
    if !Check(toks, f.pos, Identifier) then Err("Expected table name after FROM")
    else
      var w :- OptionalWhere(toks, f.pos + 1);
      Ok(Parsed(A.Select(A.SelectStatement(columns.value, Some(toks[f.pos].lexeme), w.value)), w.pos))
  }

  /** `insert_statement`. */
  function InsertStatement(toks: seq<Token>, pos: nat): (r: Result<Parsed<A.SqlStatement>, Message>)
    requires Cursor(toks, pos)
    ensures Moves(toks, pos, r)
  {
    var i :- Consume(toks, pos, Insert, "Expect INSERT");
    var n :- Consume(toks, i.pos, Into, "Expect INTO after INSERT");
    var t :- Consume(toks, n.pos, Identifier, "Expect table name");
    var columns :- if Check(toks, t.pos, LeftParen) then ColumnList(toks, t.pos + 1) else Ok(Parsed([], t.pos));
    var v :- Consume(toks, columns.pos, Values, "Expect VALUES");
    var l :- Consume(toks, v.pos, LeftParen, "Expect ( after VALUES");
    var values :- ExpressionList(toks, l.pos, []);
    var rp :- Consume(toks, values.pos, RightParen, "Expect ) after values");
    Ok(Parsed(A.Insert(A.InsertStatement(t.value.lexeme, columns.value, values.value)), rp.pos))
  }

  /** `update_statement`. */
  function UpdateStatement(toks: seq<Token>, pos: nat): (r: Result<Parsed<A.SqlStatement>, Message>)
    requires Cursor(toks, pos)
    ensures Moves(toks, pos, r)
  {
    var u :- Consume(toks, pos, Update, "Expect UPDATE");
    var t :- Consume(toks, u.pos, Identifier, "Expect table name");
    var s :- Consume(toks, t.pos, Set, "Expect SET after table name");
    var assignments :- Assignments(toks, s.pos, []);
    var w :- OptionalWhere(toks, assignments.pos);
    Ok(Parsed(A.Update(A.UpdateStatement(t.value.lexeme, assignments.value, w.value)), w.pos))
  }

  /** `delete_statement`. */
  function DeleteStatement(toks: seq<Token>, pos: nat): (r: Result<Parsed<A.SqlStatement>, Message>)
    requires Cursor(toks, pos)
    ensures Moves(toks, pos, r)
  {
    var d :- Consume(toks, pos, Delete, "Expect DELETE");
    var f :- Consume(toks, d.pos, From, "Expect FROM after DELETE");
    var t :- Consume(toks, f.pos, Identifier, "Expect table name");
    var w :- OptionalWhere(toks, t.pos);
    Ok(Parsed(A.Delete(A.DeleteStatement(t.value.lexeme, w.value)), w.pos))
  }

  /** `create_statement`. */
  function CreateStatement(toks: seq<Token>, pos: nat): (r: Result<Parsed<A.SqlStatement>, Message>)
    requires Cursor(toks, pos)
    ensures Moves(toks, pos, r)
  {
    var c :- Consume(toks, pos, Create, "Expect CREATE");
    var tb :- Consume(toks, c.pos, Table, "Expect TABLE after CREATE");
    var t :- Consume(toks, tb.pos, Identifier, "Expect table name");
    var l :- Consume(toks, t.pos, LeftParen, "Expect ( after table name");
    var columns :- ColumnDefinitions(toks, l.pos, []);
    var rp :- Consume(toks, columns.pos, RightParen, "Expect ) after column definitions");
    Ok(Parsed(A.Create(A.CreateStatement(t.value.lexeme, columns.value)), rp.pos))
  }

  /** `drop_statement`. */
  function DropStatement(toks: seq<Token>, pos: nat): (r: Result<Parsed<A.SqlStatement>, Message>)
    requires Cursor(toks, pos)
    ensures Moves(toks, pos, r)
  {
    var d :- Consume(toks, pos, Drop, "Expect DROP");
    var tb :- Consume(toks, d.pos, Table, "Expect TABLE after DROP");
    var t :- Consume(toks, tb.pos, Identifier, "Expect table name");
    Ok(Parsed(A.Drop(A.DropStatement(t.value.lexeme)), t.pos))
  }

  /** `parse_or_condition`: AND-conditions joined by OR, grouped to the
      left. */
  function OrCondition(toks: seq<Token>, pos: nat): (r: Result<Parsed<A.Condition>, Message>)
    requires Cursor(toks, pos)
    ensures Moves(toks, pos, r)
    decreases |toks| - pos, 3
  {
    var left :- AndCondition(toks, pos);
    OrChain(toks, left.pos, left.value)
  }

  /** The loop of `parse_or_condition`, with the condition so far. */
  function OrChain(toks: seq<Token>, pos: nat, left: A.Condition): (r: Result<Parsed<A.Condition>, Message>)
    requires Cursor(toks, pos)
    ensures Stays(toks, pos, r)
    decreases |toks| - pos, 2
  {
    if Check(toks, pos, Or) then
      var right :- AndCondition(toks, pos + 1);
      OrChain(toks, right.pos, A.Logical(left, A.Or, right.value))
    else Ok(Parsed(left, pos))
  }

  /** `parse_and_condition`: primary conditions joined by AND, grouped to
      the left. */
  function AndCondition(toks: seq<Token>, pos: nat): (r: Result<Parsed<A.Condition>, Message>)
    requires Cursor(toks, pos)
    ensures Moves(toks, pos, r)
    decreases |toks| - pos, 1
  {
    var left :- PrimaryCondition(toks, pos);
    AndChain(toks, left.pos, left.value)
  }

  /** The loop of `parse_and_condition`, with the condition so far. */
  function AndChain(toks: seq<Token>, pos: nat, left: A.Condition): (r: Result<Parsed<A.Condition>, Message>)
    requires Cursor(toks, pos)
    ensures Stays(toks, pos, r)
    decreases |toks| - pos, 1
  {
    if Check(toks, pos, And) then
      var right :- PrimaryCondition(toks, pos + 1);
      AndChain(toks, right.pos, A.Logical(left, A.And, right.value))
    else Ok(Parsed(left, pos))
  }

  /** `parse_primary_condition`: `NOT` and a primary condition, a condition
      in parentheses, or a comparison. */
  function PrimaryCondition(toks: seq<Token>, pos: nat): (r: Result<Parsed<A.Condition>, Message>)
    requires Cursor(toks, pos)
    ensures Moves(toks, pos, r)
    decreases |toks| - pos, 0
  {
    if Check(toks, pos, Not) then
      var c :- PrimaryCondition(toks, pos + 1);
      Ok(Parsed(A.Not(c.value), c.pos))
    else if Check(toks, pos, LeftParen) then
      var c :- OrCondition(toks, pos + 1);
      var rp :- Consume(toks, c.pos, RightParen, "Expected ')'");
      Ok(Parsed(c.value, rp.pos))
    else ComparisonCondition(toks, pos)
  }

  /** The operator `match` of `parse_comparison_condition`. */
  function ComparisonOf(t: TokenType): (r: Option<A.ComparisonOperator>)
  {
    if t == NotEqual then Some(A.NotEqual)
    else if t == Equal then Some(A.Equal)
    else if t == GreaterOrEqual then Some(A.GreaterThanOrEqual)
    else if t == LesserOrEqual then Some(A.LessThanOrEqual)
    else if t == Lesser then Some(A.LessThan)
    else if t == Greater then Some(A.GreaterThan)
    else None
  }

  /** The operators `parse_comparison_condition` checks for. NOT_EQUAL is
      not among them. */
  predicate IsComparisonToken(toks: seq<Token>, pos: nat)
    requires pos < |toks|
  {
    Check(toks, pos, Equal) || Check(toks, pos, GreaterOrEqual) || Check(toks, pos, LesserOrEqual)
    || Check(toks, pos, Lesser) || Check(toks, pos, Greater)
  }

  /** `parse_comparison_condition`. */
  function ComparisonCondition(toks: seq<Token>, pos: nat): (r: Result<Parsed<A.Condition>, Message>)
    requires Cursor(toks, pos)
    ensures Moves(toks, pos, r)
  {
    if !Check(toks, pos, Identifier) then
      Err("Expected identifier on the left-hand side of the comparison.")
    else
      var left := toks[pos].lexeme;
      var p := pos + 1;
      if IsComparisonToken(toks, p) then
        var op := ComparisonOf(toks[p].tokenType);
        if op.None? then Err("unexpected token found, expected comparison operator")
        else
          var right :- Expression(toks, p + 1);
          Ok(Parsed(A.Comparison(op.value, A.Identifier(left), right.value), right.pos))
      else if Check(toks, p, Null) || Check(toks, p, Is) || Check(toks, p, Not) then
        if Check(toks, p, Is) then
          if Check(toks, p + 1, Not) && Check(toks, p + 2, Null) then
            Ok(Parsed(A.NullCheck(A.IsNotNull(left)), p + 3))
          else if Check(toks, p + 1, Not) then
            Err("unexpected token found")
          else if Check(toks, p + 1, Null) then
            Ok(Parsed(A.NullCheck(A.IsNull(left)), p + 2))
          else Err("unexpected token found")
        else Err("unexpected token found")
      else Ok(Parsed(A.Comparison(A.Equal, A.Identifier(left), A.Literal(A.Literal.Boolean(true))), p))
  }

  /** `expression`: an identifier, a string, or a number `f64::from_str`
      accepts. */
  function Expression(toks: seq<Token>, pos: nat): (r: Result<Parsed<A.Expression>, Message>)
    requires Cursor(toks, pos)
    ensures r.Ok? ==> r.value.pos == pos + 1 < |toks|
  {
    var text := toks[pos].lexeme;
    if Check(toks, pos, Identifier) then Ok(Parsed(A.Identifier(text), pos + 1))
    else if Check(toks, pos, String) then Ok(Parsed(A.Literal(A.String(text)), pos + 1))
    else if Check(toks, pos, Number) then
      if IsFloatText(text) then Ok(Parsed(A.Literal(A.Number(text)), pos + 1)) else Err("Invalid number")
    else Err("Expected expression")
  }

  /** The loop of `parse_column_list`. */
  function ColumnNames(toks: seq<Token>, pos: nat, acc: seq<string>): (r: Result<Parsed<seq<string>>, Message>)
    requires Cursor(toks, pos)
    ensures Moves(toks, pos, r)
    ensures r.Ok? ==> |r.value.value| > |acc| && r.value.value[..|acc|] == acc
    decreases |toks| - pos
  {
    var c :- Consume(toks, pos, Identifier, "Expect column name");
    var names := acc + [c.value.lexeme];
    if Check(toks, c.pos, Comma) then
      var r := ColumnNames(toks, c.pos + 1, names);
      assert r.Ok? ==> r.value.value[..|acc|] == r.value.value[..|names|][..|acc|];
      r
    else Ok(Parsed(names, c.pos))
  }

  /** `parse_column_list`: names separated by commas, then `)`. */
  function ColumnList(toks: seq<Token>, pos: nat): (r: Result<Parsed<seq<string>>, Message>)
    requires Cursor(toks, pos)
    ensures Moves(toks, pos, r)
  {
    var names :- ColumnNames(toks, pos, []);
    var rp :- Consume(toks, names.pos, RightParen, "Expect ) after column list");
    Ok(Parsed(names.value, rp.pos))
  }

  /** `parse_expression_list`: expressions separated by commas. */
  function ExpressionList(toks: seq<Token>, pos: nat, acc: seq<A.Expression>): (r: Result<Parsed<seq<A.Expression>>, Message>)
    requires Cursor(toks, pos)
    ensures Moves(toks, pos, r)
    ensures r.Ok? ==> |r.value.value| > |acc| && r.value.value[..|acc|] == acc
    decreases |toks| - pos
  {
    var e :- Expression(toks, pos);
    var values := acc + [e.value];
    if Check(toks, e.pos, Comma) then
      var r := ExpressionList(toks, e.pos + 1, values);
      assert r.Ok? ==> r.value.value[..|acc|] == r.value.value[..|values|][..|acc|];
      r
    else Ok(Parsed(values, e.pos))
  }

  /** `parse_assignments`: `column = expression`, separated by commas. */
  function Assignments(toks: seq<Token>, pos: nat, acc: seq<A.Assignment>): (r: Result<Parsed<seq<A.Assignment>>, Message>)
    requires Cursor(toks, pos)
    ensures Moves(toks, pos, r)
    ensures r.Ok? ==> |r.value.value| > |acc| && r.value.value[..|acc|] == acc
    decreases |toks| - pos
  {
    var c :- Consume(toks, pos, Identifier, "Expect column name");
    var eq :- Consume(toks, c.pos, Equal, "Expect = after column name");
    var v :- Expression(toks, eq.pos);
    var assignments := acc + [A.Assignment(c.value.lexeme, v.value)];
    if Check(toks, v.pos, Comma) then
      var r := Assignments(toks, v.pos + 1, assignments);
      assert r.Ok? ==> r.value.value[..|acc|] == r.value.value[..|assignments|][..|acc|];
      r
    else Ok(Parsed(assignments, v.pos))
  }

  /** `parse_column_definitions`: `name type constraints`, separated by
      commas. */
  function ColumnDefinitions(toks: seq<Token>, pos: nat, acc: seq<A.ColumnDefinition>): (r: Result<Parsed<seq<A.ColumnDefinition>>, Message>)
    requires Cursor(toks, pos)
    ensures Moves(toks, pos, r)
    ensures r.Ok? ==> |r.value.value| > |acc| && r.value.value[..|acc|] == acc
    decreases |toks| - pos
  {
    var d :- ColumnDefinition(toks, pos);
    var columns := acc + [d.value];
    if Check(toks, d.pos, Comma) then
      var r := ColumnDefinitions(toks, d.pos + 1, columns);
      assert r.Ok? ==> r.value.value[..|acc|] == r.value.value[..|columns|][..|acc|];
      r
    else Ok(Parsed(columns, d.pos))
  }

  /** One round of the loop of `parse_column_definitions`. */
  function ColumnDefinition(toks: seq<Token>, pos: nat): (r: Result<Parsed<A.ColumnDefinition>, Message>)
    requires Cursor(toks, pos)
    ensures Moves(toks, pos, r)
  {
    var n :- Consume(toks, pos, Identifier, "Expect column name");
    var t :- DataType(toks, n.pos);
    var c :- Constraints(toks, t.pos, []);
    Ok(Parsed(A.ColumnDefinition(n.value.lexeme, t.value, c.value), c.pos))
  }

  /** `parse_data_type`: a type name in any case, VARCHAR with an optional
      `usize` size in parentheses. */
  function DataType(toks: seq<Token>, pos: nat): (r: Result<Parsed<A.DataType>, Message>)
    requires Cursor(toks, pos)
    ensures Moves(toks, pos, r)
  {
    var t :- Consume(toks, pos, Identifier, "Expect data type");
    var name := ToUpper(t.value.lexeme);
    if name == "INTEGER" then Ok(Parsed(A.Integer, t.pos))
    else if name == "FLOAT" then Ok(Parsed(A.Float, t.pos))
    else if name == "VARCHAR" then
      if Check(toks, t.pos, LeftParen) then
        var n :- Consume(toks, t.pos + 1, Number, "Expect size for VARCHAR");
        var size := ParseUsize(n.value.lexeme);
        if size.None? then Err("Invalid VARCHAR size")
        else
          var rp :- Consume(toks, n.pos, RightParen, "Expect ) after VARCHAR size");
          Ok(Parsed(A.Varchar(Some(size.value)), rp.pos))
      else Ok(Parsed(A.Varchar(None), t.pos))
    else if name == "BOOLEAN" then Ok(Parsed(A.DataType.Boolean, t.pos))
    else Err("Unsupported data type: " + name)
  }

  /** `parse_column_constraints`, with UNIQUE a one-word constraint: the
      source's UNIQUE arm asks for a second UNIQUE (see
      `LegacyParseFindings.ConstraintsAsWritten`). The loop ends at the
      first token that starts no constraint. */
  function Constraints(toks: seq<Token>, pos: nat, acc: seq<A.ColumnConstraint>): (r: Result<Parsed<seq<A.ColumnConstraint>>, Message>)
    requires Cursor(toks, pos)
    ensures Stays(toks, pos, r)
    ensures r.Ok? ==> |r.value.value| >= |acc| && r.value.value[..|acc|] == acc
    ensures r.Ok? ==> !Check(toks, r.value.pos, Primary) && !Check(toks, r.value.pos, Not) && !Check(toks, r.value.pos, Unique)
    decreases |toks| - pos
  {
    if Check(toks, pos, Primary) || Check(toks, pos, Not) || Check(toks, pos, Unique) then
      var next :- ConstraintAt(toks, pos);
      var more := acc + [next.value];
      var r := Constraints(toks, next.pos, more);
      assert r.Ok? ==> r.value.value[..|acc|] == r.value.value[..|more|][..|acc|];
      r
    else Ok(Parsed(acc, pos))
  }

  /** One round of the loop of `parse_column_constraints`: PRIMARY KEY,
      NOT NULL or UNIQUE. */
  function ConstraintAt(toks: seq<Token>, pos: nat): (r: Result<Parsed<A.ColumnConstraint>, Message>)
    requires Cursor(toks, pos)
    requires Check(toks, pos, Primary) || Check(toks, pos, Not) || Check(toks, pos, Unique)
    ensures Moves(toks, pos, r)
  {
    if Check(toks, pos, Primary) then
      var k :- Consume(toks, pos + 1, Key, "Expect KEY after PRIMARY");
      Ok(Parsed(A.PrimaryKey, k.pos))
    else if Check(toks, pos, Not) then
      var k :- Consume(toks, pos + 1, Null, "Expect NULL after NOT");
      Ok(Parsed(A.NotNull, k.pos))
    else Ok(Parsed(A.Unique, pos + 1))
  }
}
