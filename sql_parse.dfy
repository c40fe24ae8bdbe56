/** The newer parser (src/parser_v2/parser.rs) as functions of the token
    list and the cursor position: each returns what the matching method of
    `Parser` returns together with where it leaves `current`. Loops become
    recursive functions with the loop's accumulators as parameters. The
    statement parsers that call each other (a subquery inside IN, a WHERE
    inside a subquery, NOT over a parenthesised WHERE) are one mutually
    recursive group, ordered by the tokens left and then by a rank. */
module SqlParse {
  import opened Wrappers
  import opened SqlTokens
  import A = SqlAst
  import opened SqlParseBase
  import opened SqlShunting

  /** The literal of a Literal token as the AST holds it; `unwrap` of a
      missing literal panics. */
  function LiteralOf(t: Token): (r: Result<A.Literal, ParseError>)
    ensures r.Err? <==> t.literal.None?
    ensures r.Err? ==> r.error == MissingLiteral
    ensures r.Ok? ==> !r.value.Boolean?
  {
    match t.literal
    case None => Err(MissingLiteral)
    case Some(Text(e)) => Ok(A.Literal.String(e))
    case Some(Number(n)) => Ok(A.Literal.Number(n))
    case Some(Decimal(d)) => Ok(A.Literal.Decimal(d))
  }

  /** `parse_expression_for_input`: the token already consumed as the left
      side, a literal if it is a Literal token and an identifier otherwise,
      whatever its type. */
  function ExpressionForInput(t: Token): (r: Result<A.Expression, ParseError>)
    ensures t.tokenType != Literal ==> r == Ok(A.Identifier(t.lexeme))
    ensures t.tokenType == Literal ==> r.Err? == t.literal.None?
    ensures r.Ok? && r.value.Literal? ==> Ok(r.value.literal) == LiteralOf(t)
  {
    if t.tokenType == Literal then
      var l :- LiteralOf(t);
      Ok(A.Expression.Literal(l))
    else Ok(A.Identifier(t.lexeme))
  }

  /** `parse_expression`: a Literal or an Identifier token, consumed. */
  function ParseExpression(toks: seq<Token>, pos: nat): (r: Result<Parsed<A.Expression>, ParseError>)
    ensures r.Ok? <==> (Check(toks, pos, Literal) && toks[pos].literal.Some?) || Check(toks, pos, Identifier)
    ensures r.Ok? ==> r.value.pos == pos + 1 && Ok(r.value.value) == ExpressionForInput(toks[pos])
    ensures r.Err? && Check(toks, pos, Literal) ==> r.error == MissingLiteral
    ensures r.Err? && !Check(toks, pos, Literal) ==> r.error == ExpectedExpression
  {
    if Check(toks, pos, Literal) then
      var l :- LiteralOf(toks[pos]);
      Ok(Parsed(A.Expression.Literal(l), pos + 1))
    else if Check(toks, pos, Identifier) then Ok(Parsed(A.Identifier(toks[pos].lexeme), pos + 1))
    else Err(ExpectedExpression)
  }

  predicate IsComparison(t: TokenType) {
    t == EqualTo || t == NotEqualTo || t == GreaterThan || t == LessThan
    || t == LessThanOrEqualTo || t == GreaterThanOrEqualTo
  }

  /** The comparison operator a comparison token names. */
  function ComparisonOf(t: TokenType): (r: A.ComparisonOperator)
    requires IsComparison(t)
    ensures t == EqualTo <==> r == A.EqualTo
    ensures t == NotEqualTo <==> r == A.NotEqual
    ensures t == GreaterThan <==> r == A.GreaterThan
    ensures t == LessThan <==> r == A.LessThan
    ensures t == LessThanOrEqualTo <==> r == A.LessThanOrEqual
    ensures t == GreaterThanOrEqualTo <==> r == A.GreaterThanOrEqual
  {
    match t
    case EqualTo => A.EqualTo
    case NotEqualTo => A.NotEqual
    case GreaterThan => A.GreaterThan
    case LessThan => A.LessThan
    case LessThanOrEqualTo => A.LessThanOrEqual
    case GreaterThanOrEqualTo => A.GreaterThanOrEqual
  }

  /** The select list: `*` ends it; identifiers are separated by commas. */
  function SelectColumns(toks: seq<Token>, pos: nat, acc: seq<A.SelectColumn>): (r: Result<Parsed<seq<A.SelectColumn>>, ParseError>)
    requires pos <= |toks|
    ensures r.Ok? ==> pos < r.value.pos <= |toks|
    ensures r.Ok? ==> |r.value.value| > |acc|
    decreases |toks| - pos
  {
    if Check(toks, pos, AllColumnsOrMultiplication) then Ok(Parsed(acc + [A.All], pos + 1))
    else if Check(toks, pos, Identifier) then
      var columns := acc + [A.Column(toks[pos].lexeme)];
      if Check(toks, pos + 1, Comma) then SelectColumns(toks, pos + 2, columns)
      else Ok(Parsed(columns, pos + 1))
    else Err(ExpectedColumnOrStar)
  }

  /** One round of the select list loop: a column name and a comma. */
  lemma SelectColumnsNext(toks: seq<Token>, pos: nat, acc: seq<A.SelectColumn>)
    requires Check(toks, pos, Identifier) && Check(toks, pos + 1, Comma)
    ensures SelectColumns(toks, pos, acc) == SelectColumns(toks, pos + 2, acc + [A.Column(toks[pos].lexeme)])
  {
  }

  /** The ORDER BY list: a column name, an optional ASC or DESC (ascending
      when neither is given), then a comma for another item. */
  function OrderByItems(toks: seq<Token>, pos: nat, acc: seq<A.OrderByClause>): (r: Result<Parsed<seq<A.OrderByClause>>, ParseError>)
    requires pos <= |toks|
    ensures r.Ok? ==> pos < r.value.pos <= |toks|
    ensures r.Ok? ==> |r.value.value| > |acc|
    decreases |toks| - pos
  {
    var item :- OrderByItem(toks, pos);
    var items := acc + [item.value];
    if Check(toks, item.pos, Comma) then OrderByItems(toks, item.pos + 1, items)
    else Ok(Parsed(items, item.pos))
  }

  /** One ORDER BY item. */
  function OrderByItem(toks: seq<Token>, pos: nat): (r: Result<Parsed<A.OrderByClause>, ParseError>)
    ensures r.Ok? <==> Check(toks, pos, Identifier)
    ensures r.Ok? ==> r.value.value.columnName == toks[pos].lexeme && pos < r.value.pos <= pos + 2 && r.value.pos <= |toks|
    ensures r.Ok? ==> (!r.value.value.isAsc <==> Check(toks, pos + 1, DecendingOrder))
  {
    var column :- Consume(toks, pos, Identifier);
    var order := Direction(toks, column.pos);
    Ok(Parsed(A.OrderByClause(column.value.lexeme, order.value), order.pos))
  }

  /** An optional ASC or DESC, consumed; ascending when neither is there. */
  function Direction(toks: seq<Token>, pos: nat): (r: Parsed<bool>)
    ensures r.pos == pos + 1 <==> Check(toks, pos, AscendingOrder) || Check(toks, pos, DecendingOrder)
    ensures r.pos == pos <==> !(Check(toks, pos, AscendingOrder) || Check(toks, pos, DecendingOrder))
    ensures !r.value <==> Check(toks, pos, DecendingOrder)
  {
    if Check(toks, pos, AscendingOrder) then Parsed(true, pos + 1)
    else if Check(toks, pos, DecendingOrder) then Parsed(false, pos + 1)
    else Parsed(true, pos)
  }

  /** `select_statement`. */
  function SelectStatement(toks: seq<Token>, pos: nat): (r: Result<Parsed<A.SelectStatement>, ParseError>)
    requires pos <= |toks|
    ensures r.Ok? ==> pos < r.value.pos <= |toks|
    ensures r.Ok? ==> r.value.value.limit.None? && r.value.value.offset.None?
    decreases |toks| - pos, 0
  {
    var select :- Consume(toks, pos, Select);
    var columns :- SelectColumns(toks, select.pos, []);
    var from :- Consume(toks, columns.pos, From);
    var table :- Consume(toks, from.pos, Identifier);
    var tail :- SelectTail(toks, table.pos, None, None);
    Ok(Parsed(A.SelectStatement(columns.value, table.value.lexeme, tail.value.0, tail.value.1, None, None), tail.pos))
  }

  /** The loop after the table name: WHERE and ORDER BY clauses, until the
      tokens end. Corrected: a round that finds neither ends the loop and
      leaves the cursor there; as written it repeats forever
      (`SqlParseFindings.SelectTailAsWritten`). */
  function SelectTail(toks: seq<Token>, pos: nat, whereClause: Option<A.WhereClause>, orderBy: Option<seq<A.OrderByClause>>)
    : (r: Result<Parsed<(Option<A.WhereClause>, Option<seq<A.OrderByClause>>)>, ParseError>)
    requires pos <= |toks|
    ensures r.Ok? ==> pos <= r.value.pos <= |toks|
    ensures r.Ok? && r.value.pos < |toks| ==> !Check(toks, r.value.pos, Where) && !Check(toks, r.value.pos, OrderBy)
    decreases |toks| - pos, 1
  {
    if pos >= |toks| then Ok(Parsed((whereClause, orderBy), pos))
    else
      var w :- OptionalWhere(toks, pos, whereClause);
      var o :- OptionalOrderBy(toks, w.pos, orderBy);
      if o.pos == pos then Ok(Parsed((whereClause, orderBy), pos))
      else SelectTail(toks, o.pos, w.value, o.value)
  }

  /** `if check(Where) { consume; handle_where_clause }`: a WHERE clause if
      one starts here, otherwise `current` stays as it is. */
  function OptionalWhere(toks: seq<Token>, pos: nat, otherwise: Option<A.WhereClause>): (r: Result<Parsed<Option<A.WhereClause>>, ParseError>)
    requires pos <= |toks|
    ensures r.Ok? ==> pos <= r.value.pos <= |toks|
    ensures r.Ok? && !Check(toks, pos, Where) ==> r.value == Parsed(otherwise, pos)
    ensures r.Ok? && Check(toks, pos, Where) ==> pos + 1 < r.value.pos && r.value.value.Some?
    decreases |toks| - pos, 0
  {
    if Check(toks, pos, Where) then
      var c :- HandleWhere(toks, pos + 1);
      Ok(Parsed(Some(A.WhereClause(c.value)), c.pos))
    else Ok(Parsed(otherwise, pos))
  }

  /** `if check(OrderBy) { consume; items }`. */
  function OptionalOrderBy(toks: seq<Token>, pos: nat, otherwise: Option<seq<A.OrderByClause>>)
    : (r: Result<Parsed<Option<seq<A.OrderByClause>>>, ParseError>)
    requires pos <= |toks|
    ensures r.Ok? ==> pos <= r.value.pos <= |toks|
    ensures r.Ok? && !Check(toks, pos, OrderBy) ==> r.value == Parsed(otherwise, pos)
    ensures r.Ok? && Check(toks, pos, OrderBy) ==> pos + 1 < r.value.pos && r.value.value.Some?
  {
    if Check(toks, pos, OrderBy) then
      var items :- OrderByItems(toks, pos + 1, []);
      Ok(Parsed(Some(items.value), items.pos))
    else Ok(Parsed(otherwise, pos))
  }

  /** Where the WHERE loop stops: at the end or at ORDER BY. */
  predicate WhereEnds(toks: seq<Token>, pos: nat) {
    pos >= |toks| || Check(toks, pos, OrderBy)
  }

  /** `handle_where_clause`. */
  function HandleWhere(toks: seq<Token>, pos: nat): (r: Result<Parsed<A.Condition>, ParseError>)
    requires pos <= |toks|
    ensures r.Ok? ==> pos < r.value.pos <= |toks| && WhereEnds(toks, r.value.pos)
    decreases |toks| - pos, 3
  {
    WhereLoop(toks, pos, [], [])
  }

  /** The loop of `handle_where_clause` with its operator stack and output
      queue, then the final reductions. */
  function WhereLoop(toks: seq<Token>, pos: nat, stack: seq<TokenType>, output: seq<A.Condition>)
    : (r: Result<Parsed<A.Condition>, ParseError>)
    requires pos <= |toks|
    ensures r.Ok? ==> pos <= r.value.pos <= |toks| && WhereEnds(toks, r.value.pos)
    ensures r.Ok? && output == [] ==> pos < r.value.pos
    decreases |toks| - pos, 2
  {
    if WhereEnds(toks, pos) then
      var c :- FinishWhere(stack, output);
      Ok(Parsed(c, pos))
    else
      var t := toks[pos].tokenType;
      if t == Literal || t == Identifier then
        var c :- PrimaryCondition(toks, pos);
        WhereLoop(toks, c.pos, stack, output + [c.value])
      else if t == Not then
        var c :- NegatedCondition(toks, pos + 1);
        WhereLoop(toks, c.pos, stack, output + [A.Not(c.value)])
      else if t == OpenParen then
        WhereLoop(toks, pos + 1, stack + [OpenParen], output)
      else if t == CloseParen then
        var (st, out) :- ReduceToParen(stack, output);
        WhereLoop(toks, pos + 1, st, out)
      else if t == And || t == Or then
        var (st, out) :- ReduceForOperator(t, stack, output);
        WhereLoop(toks, pos + 1, st + [t], out)
      else Err(UnexpectedTokenInWhere)
  }

  /** After NOT: a whole WHERE clause from here if a parenthesis opens, a
      primary condition otherwise. */
  function NegatedCondition(toks: seq<Token>, pos: nat): (r: Result<Parsed<A.Condition>, ParseError>)
    requires 0 < pos <= |toks|
    ensures r.Ok? ==> pos < r.value.pos <= |toks|
    decreases |toks| - pos, 4
  {
    if Check(toks, pos, OpenParen) then HandleWhere(toks, pos)
    else if pos >= |toks| then Err(IndexPastEnd)
    else PrimaryCondition(toks, pos)
  }

  /** `parse_primary_condition`: the token at `pos` is taken as the left
      side, whatever it is; the token after it decides the form. */
  function PrimaryCondition(toks: seq<Token>, pos: nat): (r: Result<Parsed<A.Condition>, ParseError>)
    requires pos < |toks|
    ensures r.Ok? ==> pos < r.value.pos <= |toks|
    decreases |toks| - pos, 1
  {
    var lhs := toks[pos];
    if pos + 1 >= |toks| then Err(IndexPastEnd)
    else
      var op := toks[pos + 1].tokenType;
      if op == Is then NullCheckAfterIs(toks, lhs, pos + 2)
      else if op == In then
        var left :- ExpressionForInput(lhs);
        var open :- Consume(toks, pos + 2, OpenParen);
        var values :- InValues(toks, open.pos);
        Ok(Parsed(A.In(left, values.value), values.pos))
      else if IsComparison(op) then
        var left :- ExpressionForInput(lhs);
        var right :- ParseExpression(toks, pos + 2);
        Ok(Parsed(A.Comparison(ComparisonOf(op), left, right.value), right.pos))
      else Err(ShouldNotReachHere)
  }

  /** After `lhs IS`: `NOT NULL` or `NULL`, consumed. Corrected: as written
      `NULL` alone is recognised but left where it is
      (`SqlParseFindings.NullCheckAfterIsAsWritten`). */
  function NullCheckAfterIs(toks: seq<Token>, lhs: Token, pos: nat): (r: Result<Parsed<A.Condition>, ParseError>)
    ensures r.Ok? ==> pos < r.value.pos <= |toks|
    ensures r.Ok? <==> pos < |toks| && ((toks[pos].tokenType == Not && Check(toks, pos + 1, Null)) || toks[pos].tokenType == Null)
    ensures r.Ok? && toks[pos].tokenType == Null ==> r.value == Parsed(A.NullCheck(A.IsNull(lhs.lexeme)), pos + 1)
    ensures r.Ok? && toks[pos].tokenType == Not ==> r.value == Parsed(A.NullCheck(A.IsNotNull(lhs.lexeme)), pos + 2)
    ensures r.Err? && pos >= |toks| ==> r.error == IndexPastEnd
  {
    if pos >= |toks| then Err(IndexPastEnd)
    else if toks[pos].tokenType == Not then
      var nul :- Consume(toks, pos + 1, Null);
      Ok(Parsed(A.NullCheck(A.IsNotNull(lhs.lexeme)), nul.pos))
    else if toks[pos].tokenType == Null then Ok(Parsed(A.NullCheck(A.IsNull(lhs.lexeme)), pos + 1))
    else Err(UnexpectedAfterIs)
  }

  /** What follows `IN (`: a list of identifiers, a list of literals, or a
      subquery. */
  function InValues(toks: seq<Token>, pos: nat): (r: Result<Parsed<A.InValues>, ParseError>)
    requires pos <= |toks|
    ensures r.Ok? ==> pos < r.value.pos <= |toks|
    decreases |toks| - pos, 1
  {
    if Check(toks, pos, Identifier) then
      var values :- InList(toks, pos, Identifier, []);
      Ok(Parsed(A.List(Some(values.value)), values.pos))
    else if Check(toks, pos, Literal) then
      var values :- InList(toks, pos, Literal, []);
      Ok(Parsed(A.List(Some(values.value)), values.pos))
    else if Check(toks, pos, Select) then
      var select :- SelectStatement(toks, pos);
      Ok(Parsed(A.Subquery(Some(select.value)), select.pos))
    else Err(ShouldNotReachHere)
  }

  /** The loop over an IN list whose first item has type `kind`: items of
      that type, commas anywhere, up to the closing parenthesis. The
      same-type test of the literal loop compares against a binding pattern,
      which always matches, so it never rejects and is not modelled. */
  function InList(toks: seq<Token>, pos: nat, kind: TokenType, acc: seq<A.Expression>): (r: Result<Parsed<seq<A.Expression>>, ParseError>)
    requires pos <= |toks|
    ensures r.Ok? ==> pos < r.value.pos <= |toks|
    ensures r.Ok? ==> |r.value.value| >= |acc|
    decreases |toks| - pos
  {
    if Check(toks, pos, kind) then
      var e :- ParseExpression(toks, pos);
      InList(toks, e.pos, kind, acc + [e.value])
    else if Check(toks, pos, Comma) then InList(toks, pos + 1, kind, acc)
    else if Check(toks, pos, CloseParen) then Ok(Parsed(acc, pos + 1))
    else Err(MixedInputList)
  }

  /** Consumes of fixed token types one after another; the first that
      fails is the error. */
  function Keywords(toks: seq<Token>, pos: nat, ts: seq<TokenType>): (r: Result<nat, ParseError>)
    requires pos <= |toks|
    ensures r.Ok? <==> pos + |ts| <= |toks| && forall i :: 0 <= i < |ts| ==> toks[pos + i].tokenType == ts[i]
    ensures r.Ok? ==> r.value == pos + |ts|
    decreases |ts|
  {
    if |ts| == 0 then Ok(pos)
    else
      var c :- Consume(toks, pos, ts[0]);
      Keywords(toks, c.pos, ts[1..])
  }

  /** The INSERT column list: identifiers separated by commas. */
  function ColumnNames(toks: seq<Token>, pos: nat, acc: seq<string>): (r: Result<Parsed<seq<string>>, ParseError>)
    requires pos <= |toks|
    ensures r.Ok? ==> pos < r.value.pos <= |toks|
    ensures r.Ok? ==> |r.value.value| > |acc|
    decreases |toks| - pos
  {
    var column :- Consume(toks, pos, Identifier);
    var names := acc + [column.value.lexeme];
    if Check(toks, column.pos, Comma) then ColumnNames(toks, column.pos + 1, names)
    else Ok(Parsed(names, column.pos))
  }

  /** The VALUES list: expressions separated by commas. */
  function ExpressionList(toks: seq<Token>, pos: nat, acc: seq<A.Expression>): (r: Result<Parsed<seq<A.Expression>>, ParseError>)
    requires pos <= |toks|
    ensures r.Ok? ==> pos < r.value.pos <= |toks|
    ensures r.Ok? ==> |r.value.value| > |acc|
    decreases |toks| - pos
  {
    var value :- ParseExpression(toks, pos);
    var values := acc + [value.value];
    if Check(toks, value.pos, Comma) then ExpressionList(toks, value.pos + 1, values)
    else Ok(Parsed(values, value.pos))
  }

  /** `insert_statement`. */
  function InsertStatement(toks: seq<Token>, pos: nat): (r: Result<Parsed<A.InsertStatement>, ParseError>)
    requires pos <= |toks|
    ensures r.Ok? ==> pos < r.value.pos <= |toks|
    ensures r.Ok? ==> |r.value.value.columns| > 0 && |r.value.value.values| > 0
  {
    var p :- Keywords(toks, pos, [Insert, Into]);
    var table :- Consume(toks, p, Identifier);
    var open :- Consume(toks, table.pos, OpenParen);
    var columns :- ColumnNames(toks, open.pos, []);
    var p2 :- Keywords(toks, columns.pos, [CloseParen, Values, OpenParen]);
    var values :- ExpressionList(toks, p2, []);
    var close :- Consume(toks, values.pos, CloseParen);
    Ok(Parsed(A.InsertStatement(table.value.lexeme, columns.value, values.value), close.pos))
  }

  /** The SET list: `column = expression`, separated by commas. */
  function Assignments(toks: seq<Token>, pos: nat, acc: seq<A.Assignment>): (r: Result<Parsed<seq<A.Assignment>>, ParseError>)
    requires pos <= |toks|
    ensures r.Ok? ==> pos < r.value.pos <= |toks|
    ensures r.Ok? ==> |r.value.value| > |acc|
    decreases |toks| - pos
  {
    var assignment :- Assignment(toks, pos);
    var assignments := acc + [assignment.value];
    if Check(toks, assignment.pos, Comma) then Assignments(toks, assignment.pos + 1, assignments)
    else Ok(Parsed(assignments, assignment.pos))
  }

  /** One `column = expression`. */
  function Assignment(toks: seq<Token>, pos: nat): (r: Result<Parsed<A.Assignment>, ParseError>)
    ensures r.Ok? ==> r.value.pos == pos + 3 <= |toks|
    ensures r.Ok? ==> toks[pos].tokenType == Identifier && toks[pos + 1].tokenType == EqualTo
    ensures r.Ok? ==> r.value.value.column == toks[pos].lexeme
  {
    var column :- Consume(toks, pos, Identifier);
    var _ :- Consume(toks, column.pos, EqualTo);
    var value :- ParseExpression(toks, column.pos + 1);
    Ok(Parsed(A.Assignment(column.value.lexeme, value.value), value.pos))
  }

  /** `update_statement`. */
  function UpdateStatement(toks: seq<Token>, pos: nat): (r: Result<Parsed<A.UpdateStatement>, ParseError>)
    requires pos <= |toks|
    ensures r.Ok? ==> pos < r.value.pos <= |toks| && |r.value.value.assignments| > 0
  {
    var _ :- Consume(toks, pos, Update);
    var table :- Consume(toks, pos + 1, Identifier);
    var _ :- Consume(toks, pos + 2, Set);
    var assignments :- Assignments(toks, pos + 3, []);
    var w :- OptionalWhere(toks, assignments.pos, None);
    Ok(Parsed(A.UpdateStatement(table.value.lexeme, assignments.value, w.value), w.pos))
  }

  /** `delete_statement`. */
  function DeleteStatement(toks: seq<Token>, pos: nat): (r: Result<Parsed<A.DeleteStatement>, ParseError>)
    requires pos <= |toks|
    ensures r.Ok? ==> pos + 3 <= r.value.pos <= |toks|
    ensures r.Ok? ==> r.value.value.table == toks[pos + 2].lexeme
  {
    var _ :- Consume(toks, pos, Delete);
    var _ :- Consume(toks, pos + 1, From);
    var table :- Consume(toks, pos + 2, Identifier);
    var w :- OptionalWhere(toks, pos + 3, None);
    Ok(Parsed(A.DeleteStatement(table.value.lexeme, w.value), w.pos))
  }

  /** The data type a type token names. */
  function DataTypeAt(toks: seq<Token>, pos: nat): (r: Result<A.DataType, ParseError>)
    ensures r.Ok? <==> pos < |toks| && toks[pos].tokenType in {Integer, DecimalType, TextType, Boolean}
    ensures pos >= |toks| ==> r == Err(IndexPastEnd)
  {
    var t :- Peek(toks, pos);
    if t.tokenType == Integer then Ok(A.Integer)
    else if t.tokenType == DecimalType then Ok(A.DataType.Decimal)
    else if t.tokenType == TextType then Ok(A.DataType.Text)
    else if t.tokenType == Boolean then Ok(A.DataType.Boolean)
    else Err(ExpectedDataType)
  }

  /** The constraint loop of a column definition. Corrected: PRIMARY KEY
      is consumed like the others; as written it is pushed but left in place,
      so the loop never ends (`SqlParseFindings.ConstraintsAsWritten`). */
  function Constraints(toks: seq<Token>, pos: nat, acc: seq<A.ColumnConstraint>): (r: Result<Parsed<seq<A.ColumnConstraint>>, ParseError>)
    requires pos <= |toks|
    ensures r.Ok? ==> pos <= r.value.pos <= |toks|
    ensures r.Ok? ==> !Check(toks, r.value.pos, PrimaryKey) && !Check(toks, r.value.pos, Not) && !Check(toks, r.value.pos, UniqueKey)
    ensures r.Ok? ==> |r.value.value| >= |acc|
    decreases |toks| - pos
  {
    if Check(toks, pos, PrimaryKey) then Constraints(toks, pos + 1, acc + [A.PrimaryKey])
    else if Check(toks, pos, Not) then
      var nul :- Consume(toks, pos + 1, Null);
      Constraints(toks, nul.pos, acc + [A.NotNull])
    else if Check(toks, pos, UniqueKey) then Constraints(toks, pos + 1, acc + [A.UniqueKey])
    else Ok(Parsed(acc, pos))
  }

  /** The column loop of `create_statement`. */
  function ColumnDefinitions(toks: seq<Token>, pos: nat, acc: seq<A.ColumnDefinition>): (r: Result<Parsed<seq<A.ColumnDefinition>>, ParseError>)
    requires pos <= |toks|
    ensures r.Ok? ==> pos < r.value.pos <= |toks|
    ensures r.Ok? ==> |r.value.value| > |acc|
    decreases |toks| - pos
  {
    var column :- ColumnDefinition(toks, pos);
    var columns := acc + [column.value];
    if Check(toks, column.pos, Comma) then ColumnDefinitions(toks, column.pos + 1, columns)
    else Ok(Parsed(columns, column.pos))
  }

  /** One column definition: a name, a data type token, then the
      constraints. Corrected: as written an identifier is consumed where the
      type is expected and the type token after it is read but never
      consumed (`SqlParseFindings.ColumnDefinitionAsWritten`). */
  function ColumnDefinition(toks: seq<Token>, pos: nat): (r: Result<Parsed<A.ColumnDefinition>, ParseError>)
    requires pos <= |toks|
    ensures r.Ok? ==> pos + 2 <= r.value.pos <= |toks|
    ensures r.Ok? ==> Check(toks, pos, Identifier) && DataTypeAt(toks, pos + 1).Ok?
  {
    var name :- Consume(toks, pos, Identifier);
    var dataType :- DataTypeAt(toks, name.pos);
    var constraints :- Constraints(toks, name.pos + 1, []);
    Ok(Parsed(A.ColumnDefinition(name.value.lexeme, dataType, constraints.value), constraints.pos))
  }

  /** `create_statement`. */
  function CreateStatement(toks: seq<Token>, pos: nat): (r: Result<Parsed<A.CreateStatement>, ParseError>)
    requires pos <= |toks|
    ensures r.Ok? ==> pos < r.value.pos <= |toks| && |r.value.value.columns| > 0
  {
    var _ :- Consume(toks, pos, Create);
    var _ :- Consume(toks, pos + 1, Table);
    var table :- Consume(toks, pos + 2, Identifier);
    var _ :- Consume(toks, pos + 3, OpenParen);
    var columns :- ColumnDefinitions(toks, pos + 4, []);
    var close :- Consume(toks, columns.pos, CloseParen);
    Ok(Parsed(A.CreateStatement(table.value.lexeme, columns.value), close.pos))
  }

  /** `drop_statement`: DROP, an optional TABLE or SCHEMA, then the name.
      The test for both TABLE and SCHEMA at once looks at one token and so
      never holds. */
  function DropStatement(toks: seq<Token>, pos: nat): (r: Result<Parsed<A.DropStatement>, ParseError>)
    requires pos <= |toks|
    ensures r.Ok? ==> pos + 2 <= r.value.pos <= pos + 3 && r.value.pos <= |toks|
    ensures r.Ok? ==> r.value.value.table == toks[r.value.pos - 1].lexeme && toks[r.value.pos - 1].tokenType == Identifier
  {
    var _ :- Consume(toks, pos, Drop);
    if Check(toks, pos + 1, Table) && Check(toks, pos + 1, Schema) then Err(TableAndSchema)
    else
      var next := if Check(toks, pos + 1, Table) || Check(toks, pos + 1, Schema) then pos + 2 else pos + 1;
      var table :- Consume(toks, next, Identifier);
      Ok(Parsed(A.DropStatement(table.value.lexeme), table.pos))
  }

  /** `parse_and_build_ast`: the first token chooses the statement parser.
      Tokens after the statement are not looked at. */
  function ParseAndBuildAst(toks: seq<Token>): (r: Result<A.SqlStatement, ParseError>)
    ensures |toks| == 0 ==> r == Err(IndexPastEnd)
    ensures r.Ok? ==> |toks| > 0 && toks[0].tokenType in {Select, Insert, Update, Delete, Create, Drop}
    ensures |toks| > 0 && toks[0].tokenType !in {Select, Insert, Update, Delete, Create, Drop} ==> r == Err(UnexpectedStatementType)
  {
    var first :- Peek(toks, 0);
    var t := first.tokenType;
    if t == Select then
      var s :- SelectStatement(toks, 0);
      Ok(A.Select(s.value))
    else if t == Insert then
      var s :- InsertStatement(toks, 0);
      Ok(A.Insert(s.value))
    else if t == Update then
      var s :- UpdateStatement(toks, 0);
      Ok(A.Update(s.value))
    else if t == Delete then
      var s :- DeleteStatement(toks, 0);
      Ok(A.Delete(s.value))
    else if t == Create then
      var s :- CreateStatement(toks, 0);
      Ok(A.Create(s.value))
    else if t == Drop then
      var s :- DropStatement(toks, 0);
      Ok(A.Drop(s.value))
    else Err(UnexpectedStatementType)
  }
}
