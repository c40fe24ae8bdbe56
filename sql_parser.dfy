/** The newer parser over a cursor (src/parser_v2/parser.rs): a token list
    and a cursor `current` that `consume` advances, with the statement loops
    written as loops. Every method is proved to return what the matching
    function of `SqlParse` returns and to leave `current` where that
    function says. The loops that the source writes inline inside a
    statement parser are methods of their own here, one per loop, each
    proved against the function of the same name.

    Four methods follow the corrected behaviour rather than the code as
    written, since as written they never end or never succeed: `SelectTail`
    (the loop after FROM), `NullCheckAfterIs` (IS NULL consumes NULL),
    `ColumnDefinition` (one name, then the type token consumed) and
    `Constraints` (PRIMARY KEY consumed). The code as written is modelled
    only by the functions of `SqlParseFindings`. */
module SqlParser {
  import opened Wrappers
  import opened SqlTokens
  import A = SqlAst
  import opened SqlParseBase
  import S = SqlShunting
  import P = SqlParse

  /** The reductions of the CloseParen arm and of the final loop: pop the
      right operand, pop the left one, then map the operator. */
  method PopAndCombine(op: TokenType, output: seq<A.Condition>) returns (r: Result<seq<A.Condition>, ParseError>)
    ensures r == S.Reduce(op, output)
  {
    var out := output;
    if |out| == 0 {
      return Err(InvalidWhereClause);
    }
    var right := out[|out| - 1];
    out := out[..|out| - 1];
    if |out| == 0 {
      return Err(InvalidWhereClause);
    }
    var left := out[|out| - 1];
    out := out[..|out| - 1];
    var operator := S.LogicalOf(op);
    if operator.Err? {
      return Err(operator.error);
    }
    assert out == output[..|output| - 2];
    return Ok(out + [A.Logical(left, operator.value, right)]);
  }

  /** The reduction of the AND / OR arm: the operator popped and mapped
      first, then the right and left operands popped. */
  method MapAndCombine(op: TokenType, output: seq<A.Condition>) returns (r: Result<seq<A.Condition>, ParseError>)
    ensures r == S.ReduceMappedFirst(op, output)
  {
    var operator := S.LogicalOf(op);
    if operator.Err? {
      return Err(operator.error);
    }
    var out := output;
    if |out| == 0 {
      return Err(InvalidWhereClause);
    }
    var right := out[|out| - 1];
    out := out[..|out| - 1];
    if |out| == 0 {
      return Err(InvalidWhereClause);
    }
    var left := out[|out| - 1];
    out := out[..|out| - 1];
    assert out == output[..|output| - 2];
    return Ok(out + [A.Logical(left, operator.value, right)]);
  }

  /** The CloseParen arm's `while let Some(operator) = stack.pop()`. */
  method ReduceToParen(stack: seq<TokenType>, output: seq<A.Condition>) returns (r: Result<(seq<TokenType>, seq<A.Condition>), ParseError>)
    ensures r == S.ReduceToParen(stack, output)
  {
    var st, out := stack, output;
    while |st| > 0
      invariant S.ReduceToParen(st, out) == S.ReduceToParen(stack, output)
      decreases |st|
    {
      var op := st[|st| - 1];
      st := st[..|st| - 1];
      if op == OpenParen {
        return Ok((st, out));
      }
      var reduced := PopAndCombine(op, out);
      if reduced.Err? {
        return Err(reduced.error);
      }
      out := reduced.value;
    }
    return Ok((st, out));
  }

  /** The AND / OR arm's `while let Some(top) = stack.last()`. */
  method ReduceForOperator(t: TokenType, stack: seq<TokenType>, output: seq<A.Condition>) returns (r: Result<(seq<TokenType>, seq<A.Condition>), ParseError>)
    ensures r == S.ReduceForOperator(t, stack, output)
  {
    var st, out := stack, output;
    while |st| > 0
      invariant S.ReduceForOperator(t, st, out) == S.ReduceForOperator(t, stack, output)
      decreases |st|
    {
      var top := st[|st| - 1];
      if top == OpenParen || S.Precedence(t) > S.Precedence(top) {
        break;
      }
      st := st[..|st| - 1];
      var reduced := MapAndCombine(top, out);
      if reduced.Err? {
        return Err(reduced.error);
      }
      out := reduced.value;
    }
    return Ok((st, out));
  }

  /** The loop after the WHERE tokens and the final `pop_back`. */
  method FinishWhere(stack: seq<TokenType>, output: seq<A.Condition>) returns (r: Result<A.Condition, ParseError>)
    ensures r == S.FinishWhere(stack, output)
  {
    var st, out := stack, output;
    while |st| > 0
      invariant S.Drain(st, out) == S.Drain(stack, output)
      decreases |st|
    {
      var op := st[|st| - 1];
      st := st[..|st| - 1];
      var reduced := PopAndCombine(op, out);
      if reduced.Err? {
        return Err(reduced.error);
      }
      out := reduced.value;
    }
    if |out| == 0 {
      return Err(EmptyWhereClause);
    }
    return Ok(out[|out| - 1]);
  }

  class Parser {
    const tokens: seq<Token>
    var current: nat

    ghost predicate Valid()
      reads this
    {
      current <= |tokens|
    }

    /** `Parser::new`. */
    constructor(tokens: seq<Token>)
      ensures this.tokens == tokens && current == 0 && Valid()
    {
      this.tokens := tokens;
      current := 0;
    }

    predicate IsAtEnd()
      reads this
    {
      current >= |tokens|
    }

    predicate Check(t: TokenType)
      reads this
    {
      current < |tokens| && tokens[current].tokenType == t
    }

    /** `consume`: on a match the cursor moves by one and the token is
        returned; otherwise nothing changes. */
    method Consume(t: TokenType) returns (r: Result<Token, ParseError>)
      requires Valid()
      modifies this
      ensures Valid()
      ensures r.Ok? <==> old(current) < |tokens| && tokens[old(current)].tokenType == t
      ensures r.Ok? ==> r.value == tokens[old(current)] && current == old(current) + 1
      ensures r.Err? ==> current == old(current) && r.error == if old(current) < |tokens| then Expected(t) else IndexPastEnd
    {
      if Check(t) {
        current := current + 1;
        r := Ok(tokens[current - 1]);
      } else if current < |tokens| {
        r := Err(Expected(t));
      } else {
        r := Err(IndexPastEnd);
      }
    }

    /** `parse_and_build_ast`, on a parser just made by `Parser::new`. */
    method ParseAndBuildAst() returns (r: Result<A.SqlStatement, ParseError>)
      requires Valid() && current == 0
      modifies this
      ensures r == P.ParseAndBuildAst(tokens)
    {
      if IsAtEnd() {
        return Err(IndexPastEnd);
      }
      var t := tokens[current].tokenType;
      if t == Select {
        var s := SelectStatement();
        r := if s.Ok? then Ok(A.Select(s.value)) else Err(s.error);
      } else if t == Insert {
        var s := InsertStatement();
        r := if s.Ok? then Ok(A.Insert(s.value)) else Err(s.error);
      } else if t == Update {
        var s := UpdateStatement();
        r := if s.Ok? then Ok(A.Update(s.value)) else Err(s.error);
      } else if t == Delete {
        var s := DeleteStatement();
        r := if s.Ok? then Ok(A.Delete(s.value)) else Err(s.error);
      } else if t == Create {
        var s := CreateStatement();
        r := if s.Ok? then Ok(A.Create(s.value)) else Err(s.error);
      } else if t == Drop {
        var s := DropStatement();
        r := if s.Ok? then Ok(A.Drop(s.value)) else Err(s.error);
      } else {
        r := Err(UnexpectedStatementType);
      }
    }

    /** The select list loop. */
    method SelectColumns() returns (r: Result<seq<A.SelectColumn>, ParseError>)
      requires Valid()
      modifies this
      ensures Valid()
      ensures Agrees(r, current, P.SelectColumns(tokens, old(current), []))
    {
      var columns: seq<A.SelectColumn> := [];
      while true
        invariant Valid() && old(current) <= current
        invariant P.SelectColumns(tokens, current, columns) == P.SelectColumns(tokens, old(current), [])
        decreases |tokens| - current
      {
        ghost var (at, before) := (current, columns);
        if Check(AllColumnsOrMultiplication) {
          var _ := Consume(AllColumnsOrMultiplication);
          columns := columns + [A.All];
          assert P.SelectColumns(tokens, at, before) == Ok(Parsed(columns, current));
          break;
        } else if Check(Identifier) {
          var column := Consume(Identifier);
          columns := columns + [A.Column(column.value.lexeme)];
        } else {
          assert P.SelectColumns(tokens, at, before) == Err(ExpectedColumnOrStar);
          return Err(ExpectedColumnOrStar);
        }
        if !Check(Comma) {
          assert P.SelectColumns(tokens, at, before) == Ok(Parsed(columns, current));
          break;
        }
        var _ := Consume(Comma);
        P.SelectColumnsNext(tokens, at, before);
      }
      return Ok(columns);
    }

    /** `select_statement`. */
    method SelectStatement() returns (r: Result<A.SelectStatement, ParseError>)
      requires Valid()
      modifies this
      ensures Valid()
      ensures Agrees(r, current, P.SelectStatement(tokens, old(current)))
      decreases |tokens| - current, 0
    {
      var select := Consume(Select);
      if select.Err? {
        return Err(select.error);
      }
      var columns := SelectColumns();
      if columns.Err? {
        return Err(columns.error);
      }
      var from := Consume(From);
      if from.Err? {
        return Err(from.error);
      }
      var table := Consume(Identifier);
      if table.Err? {
        return Err(table.error);
      }
      var tail := SelectTail();
      if tail.Err? {
        return Err(tail.error);
      }
      return Ok(A.SelectStatement(columns.value, table.value.lexeme, tail.value.0, tail.value.1, None, None));
    }

    /** The `while !self.is_at_end()` loop after the table name, corrected
        to stop where a round finds neither WHERE nor ORDER BY. */
    method SelectTail() returns (r: Result<(Option<A.WhereClause>, Option<seq<A.OrderByClause>>), ParseError>)
      requires Valid()
      modifies this
      ensures Valid()
      ensures Agrees(r, current, P.SelectTail(tokens, old(current), None, None))
      decreases |tokens| - current, 1
    {
      var whereClause: Option<A.WhereClause> := None;
      var orderBy: Option<seq<A.OrderByClause>> := None;
      while !IsAtEnd()
        invariant Valid() && old(current) <= current
        invariant P.SelectTail(tokens, current, whereClause, orderBy) == P.SelectTail(tokens, old(current), None, None)
        decreases |tokens| - current
      {
        var before := current;
        var w := OptionalWhere(whereClause);
        if w.Err? {
          return Err(w.error);
        }
        whereClause := w.value;
        var o := OptionalOrderBy(orderBy);
        if o.Err? {
          return Err(o.error);
        }
        orderBy := o.value;
        if current == before {
          break;
        }
      }
      return Ok((whereClause, orderBy));
    }

    /** `if self.check(Where) { consume; handle_where_clause }`. */
    method OptionalWhere(otherwise: Option<A.WhereClause>) returns (r: Result<Option<A.WhereClause>, ParseError>)
      requires Valid()
      modifies this
      ensures Valid()
      ensures Agrees(r, current, P.OptionalWhere(tokens, old(current), otherwise))
      decreases |tokens| - current, 0
    {
      if !Check(Where) {
        return Ok(otherwise);
      }
      var _ := Consume(Where);
      var condition := HandleWhere();
      if condition.Err? {
        return Err(condition.error);
      }
      return Ok(Some(A.WhereClause(condition.value)));
    }

    /** `if self.check(OrderBy) { consume; items }`. */
    method OptionalOrderBy(otherwise: Option<seq<A.OrderByClause>>) returns (r: Result<Option<seq<A.OrderByClause>>, ParseError>)
      requires Valid()
      modifies this
      ensures Valid()
      ensures Agrees(r, current, P.OptionalOrderBy(tokens, old(current), otherwise))
    {
      if !Check(OrderBy) {
        return Ok(otherwise);
      }
      var _ := Consume(OrderBy);
      var items := OrderByItems();
      if items.Err? {
        return Err(items.error);
      }
      return Ok(Some(items.value));
    }

    /** The ORDER BY item loop. */
    method OrderByItems() returns (r: Result<seq<A.OrderByClause>, ParseError>)
      requires Valid()
      modifies this
      ensures Valid()
      ensures Agrees(r, current, P.OrderByItems(tokens, old(current), []))
    {
      var items: seq<A.OrderByClause> := [];
      while true
        invariant Valid() && old(current) <= current
        invariant P.OrderByItems(tokens, current, items) == P.OrderByItems(tokens, old(current), [])
        decreases |tokens| - current
      {
        var column := Consume(Identifier);
        if column.Err? {
          return Err(column.error);
        }
        var isAsc := true;
        if Check(AscendingOrder) {
          var _ := Consume(AscendingOrder);
        } else if Check(DecendingOrder) {
          var _ := Consume(DecendingOrder);
          isAsc := false;
        }
        items := items + [A.OrderByClause(column.value.lexeme, isAsc)];
        if !Check(Comma) {
          break;
        }
        var _ := Consume(Comma);
      }
      return Ok(items);
    }

    /** `handle_where_clause`: the shunting-yard loop over the condition's
        tokens, then the final reductions. */
    method HandleWhere() returns (r: Result<A.Condition, ParseError>)
      requires Valid()
      modifies this
      ensures Valid()
      ensures Agrees(r, current, P.HandleWhere(tokens, old(current)))
      decreases |tokens| - current, 3
    {
      var stack: seq<TokenType> := [];
      var output: seq<A.Condition> := [];
      while !IsAtEnd() && !Check(OrderBy)
        invariant Valid() && old(current) <= current
        invariant P.WhereLoop(tokens, current, stack, output) == P.HandleWhere(tokens, old(current))
        decreases |tokens| - current
      {
        ghost var (at, stack0, output0) := (current, stack, output);
        var t := tokens[current].tokenType;
        if t == Literal || t == Identifier {
          var condition := PrimaryCondition();
          if condition.Err? {
            return Err(condition.error);
          }
          output := output + [condition.value];
          assert P.WhereLoop(tokens, at, stack0, output0) == P.WhereLoop(tokens, current, stack, output);
        } else if t == Not {
          var _ := Consume(Not);
          var condition := NegatedCondition();
          if condition.Err? {
            return Err(condition.error);
          }
          output := output + [A.Not(condition.value)];
          assert P.WhereLoop(tokens, at, stack0, output0) == P.WhereLoop(tokens, current, stack, output);
        } else if t == OpenParen {
          var _ := Consume(OpenParen);
          stack := stack + [OpenParen];
          assert P.WhereLoop(tokens, at, stack0, output0) == P.WhereLoop(tokens, current, stack, output);
        } else if t == CloseParen {
          var _ := Consume(CloseParen);
          var reduced := ReduceToParen(stack, output);
          if reduced.Err? {
            return Err(reduced.error);
          }
          stack, output := reduced.value.0, reduced.value.1;
          assert P.WhereLoop(tokens, at, stack0, output0) == P.WhereLoop(tokens, current, stack, output);
        } else if t == And || t == Or {
          var reduced := ReduceForOperator(t, stack, output);
          if reduced.Err? {
            return Err(reduced.error);
          }
          var _ := Consume(t);
          stack, output := reduced.value.0 + [t], reduced.value.1;
          assert P.WhereLoop(tokens, at, stack0, output0) == P.WhereLoop(tokens, current, stack, output);
        } else {
          return Err(UnexpectedTokenInWhere);
        }
      }
      r := FinishWhere(stack, output);
    }

    /** The NOT arm after NOT is consumed: a whole WHERE clause if a
        parenthesis opens, a primary condition otherwise. */
    method NegatedCondition() returns (r: Result<A.Condition, ParseError>)
      requires Valid() && 0 < current
      modifies this
      ensures Valid()
      ensures Agrees(r, current, P.NegatedCondition(tokens, old(current)))
      decreases |tokens| - current, 4
    {
      if Check(OpenParen) {
        r := HandleWhere();
      } else if IsAtEnd() {
        r := Err(IndexPastEnd);
      } else {
        r := PrimaryCondition();
      }
    }

    /** `parse_primary_condition`, handed the token under the cursor. */
    method PrimaryCondition() returns (r: Result<A.Condition, ParseError>)
      requires Valid() && !IsAtEnd()
      modifies this
      ensures Valid()
      ensures Agrees(r, current, P.PrimaryCondition(tokens, old(current)))
      decreases |tokens| - current, 1
    {
      var lhs := tokens[current];
      var _ := Consume(lhs.tokenType);
      if IsAtEnd() {
        return Err(IndexPastEnd);
      }
      var op := tokens[current].tokenType;
      if op == Is {
        var _ := Consume(Is);
        r := NullCheckAfterIs(lhs);
      } else if op == In {
        var left := P.ExpressionForInput(lhs);
        if left.Err? {
          return Err(left.error);
        }
        var _ := Consume(In);
        var open := Consume(OpenParen);
        if open.Err? {
          return Err(open.error);
        }
        var values := InValues();
        if values.Err? {
          return Err(values.error);
        }
        return Ok(A.In(left.value, values.value));
      } else if P.IsComparison(op) {
        var left := P.ExpressionForInput(lhs);
        if left.Err? {
          return Err(left.error);
        }
        var operator := P.ComparisonOf(op);
        var _ := Consume(op);
        var right := ParseExpression();
        if right.Err? {
          return Err(right.error);
        }
        return Ok(A.Comparison(operator, left.value, right.value));
      } else {
        return Err(ShouldNotReachHere);
      }
    }

    /** The IS arm after IS is consumed, corrected to consume NULL. */
    method NullCheckAfterIs(lhs: Token) returns (r: Result<A.Condition, ParseError>)
      requires Valid()
      modifies this
      ensures Valid()
      ensures Agrees(r, current, P.NullCheckAfterIs(tokens, lhs, old(current)))
    {
      if IsAtEnd() {
        return Err(IndexPastEnd);
      }
      if tokens[current].tokenType == Not {
        var _ := Consume(Not);
        var nul := Consume(Null);
        if nul.Err? {
          return Err(nul.error);
        }
        return Ok(A.NullCheck(A.IsNotNull(lhs.lexeme)));
      } else if tokens[current].tokenType == Null {
        var _ := Consume(Null);
        return Ok(A.NullCheck(A.IsNull(lhs.lexeme)));
      } else {
        return Err(UnexpectedAfterIs);
      }
    }

    /** What follows `IN (`. */
    method InValues() returns (r: Result<A.InValues, ParseError>)
      requires Valid()
      modifies this
      ensures Valid()
      ensures Agrees(r, current, P.InValues(tokens, old(current)))
      decreases |tokens| - current, 1
    {
      if Check(Identifier) {
        var values := InList(Identifier);
        r := if values.Ok? then Ok(A.List(Some(values.value))) else Err(values.error);
      } else if Check(Literal) {
        var values := InList(Literal);
        r := if values.Ok? then Ok(A.List(Some(values.value))) else Err(values.error);
      } else if Check(Select) {
        var select := SelectStatement();
        r := if select.Ok? then Ok(A.Subquery(Some(select.value))) else Err(select.error);
      } else {
        r := Err(ShouldNotReachHere);
      }
    }

    /** The loop over an IN list of `kind` items. */
    method InList(kind: TokenType) returns (r: Result<seq<A.Expression>, ParseError>)
      requires Valid()
      modifies this
      ensures Valid()
      ensures Agrees(r, current, P.InList(tokens, old(current), kind, []))
    {
      var values: seq<A.Expression> := [];
      while true
        invariant Valid() && old(current) <= current
        invariant P.InList(tokens, current, kind, values) == P.InList(tokens, old(current), kind, [])
        decreases |tokens| - current
      {
        if Check(kind) {
          var value := ParseExpression();
          if value.Err? {
            return Err(value.error);
          }
          values := values + [value.value];
          continue;
        }
        if Check(Comma) {
          var _ := Consume(Comma);
          continue;
        }
        if Check(CloseParen) {
          var _ := Consume(CloseParen);
          break;
        } else {
          return Err(MixedInputList);
        }
      }
      return Ok(values);
    }

    /** `parse_expression`. */
    method ParseExpression() returns (r: Result<A.Expression, ParseError>)
      requires Valid()
      modifies this
      ensures Valid()
      ensures Agrees(r, current, P.ParseExpression(tokens, old(current)))
    {
      if Check(Literal) {
        var token := Consume(Literal);
        var literal := P.LiteralOf(token.value);
        if literal.Err? {
          return Err(literal.error);
        }
        return Ok(A.Expression.Literal(literal.value));
      } else if Check(Identifier) {
        var token := Consume(Identifier);
        return Ok(A.Identifier(token.value.lexeme));
      } else {
        return Err(ExpectedExpression);
      }
    }

    /** Consumes of fixed token types one after another. */
    method Keywords(ts: seq<TokenType>) returns (r: Result<(), ParseError>)
      requires Valid()
      modifies this
      ensures Valid()
      ensures r.Ok? ==> P.Keywords(tokens, old(current), ts) == Ok(current)
      ensures r.Err? ==> P.Keywords(tokens, old(current), ts) == Err(r.error)
    {
      var i := 0;
      while i < |ts|
        invariant Valid() && i <= |ts|
        invariant P.Keywords(tokens, current, ts[i..]) == P.Keywords(tokens, old(current), ts)
      {
        var c := Consume(ts[i]);
        if c.Err? {
          return Err(c.error);
        }
        assert ts[i..][1..] == ts[i + 1..];
        i := i + 1;
      }
      return Ok(());
    }

    /** The INSERT column list loop. */
    method ColumnNames() returns (r: Result<seq<string>, ParseError>)
      requires Valid()
      modifies this
      ensures Valid()
      ensures Agrees(r, current, P.ColumnNames(tokens, old(current), []))
    {
      var columns: seq<string> := [];
      while true
        invariant Valid() && old(current) <= current
        invariant P.ColumnNames(tokens, current, columns) == P.ColumnNames(tokens, old(current), [])
        decreases |tokens| - current
      {
        var column := Consume(Identifier);
        if column.Err? {
          return Err(column.error);
        }
        columns := columns + [column.value.lexeme];
        if !Check(Comma) {
          break;
        }
        var _ := Consume(Comma);
      }
      return Ok(columns);
    }

    /** The VALUES list loop. */
    method ExpressionList() returns (r: Result<seq<A.Expression>, ParseError>)
      requires Valid()
      modifies this
      ensures Valid()
      ensures Agrees(r, current, P.ExpressionList(tokens, old(current), []))
    {
      var values: seq<A.Expression> := [];
      while true
        invariant Valid() && old(current) <= current
        invariant P.ExpressionList(tokens, current, values) == P.ExpressionList(tokens, old(current), [])
        decreases |tokens| - current
      {
        var value := ParseExpression();
        if value.Err? {
          return Err(value.error);
        }
        values := values + [value.value];
        if !Check(Comma) {
          break;
        }
        var _ := Consume(Comma);
      }
      return Ok(values);
    }

    /** `insert_statement`. */
    method InsertStatement() returns (r: Result<A.InsertStatement, ParseError>)
      requires Valid()
      modifies this
      ensures Valid()
      ensures Agrees(r, current, P.InsertStatement(tokens, old(current)))
    {
      var k := Keywords([Insert, Into]);
      if k.Err? {
        return Err(k.error);
      }
      var table := Consume(Identifier);
      if table.Err? {
        return Err(table.error);
      }
      var open := Consume(OpenParen);
      if open.Err? {
        return Err(open.error);
      }
      var columns := ColumnNames();
      if columns.Err? {
        return Err(columns.error);
      }
      var k2 := Keywords([CloseParen, Values, OpenParen]);
      if k2.Err? {
        return Err(k2.error);
      }
      var values := ExpressionList();
      if values.Err? {
        return Err(values.error);
      }
      var close := Consume(CloseParen);
      if close.Err? {
        return Err(close.error);
      }
      return Ok(A.InsertStatement(table.value.lexeme, columns.value, values.value));
    }

    /** The SET list loop. */
    method Assignments() returns (r: Result<seq<A.Assignment>, ParseError>)
      requires Valid()
      modifies this
      ensures Valid()
      ensures Agrees(r, current, P.Assignments(tokens, old(current), []))
    {
      var assignments: seq<A.Assignment> := [];
      while true
        invariant Valid() && old(current) <= current
        invariant P.Assignments(tokens, current, assignments) == P.Assignments(tokens, old(current), [])
        decreases |tokens| - current
      {
        var column := Consume(Identifier);
        if column.Err? {
          return Err(column.error);
        }
        var equal := Consume(EqualTo);
        if equal.Err? {
          return Err(equal.error);
        }
        var value := ParseExpression();
        if value.Err? {
          return Err(value.error);
        }
        assignments := assignments + [A.Assignment(column.value.lexeme, value.value)];
        if !Check(Comma) {
          break;
        }
        var _ := Consume(Comma);
      }
      return Ok(assignments);
    }

    /** `update_statement`. */
    method UpdateStatement() returns (r: Result<A.UpdateStatement, ParseError>)
      requires Valid()
      modifies this
      ensures Valid()
      ensures Agrees(r, current, P.UpdateStatement(tokens, old(current)))
    {
      var update := Consume(Update);
      if update.Err? {
        return Err(update.error);
      }
      var table := Consume(Identifier);
      if table.Err? {
        return Err(table.error);
      }
      var setKeyword := Consume(Set);
      if setKeyword.Err? {
        return Err(setKeyword.error);
      }
      var assignments := Assignments();
      if assignments.Err? {
        return Err(assignments.error);
      }
      var w := OptionalWhere(None);
      if w.Err? {
        return Err(w.error);
      }
      return Ok(A.UpdateStatement(table.value.lexeme, assignments.value, w.value));
    }

    /** `delete_statement`. */
    method DeleteStatement() returns (r: Result<A.DeleteStatement, ParseError>)
      requires Valid()
      modifies this
      ensures Valid()
      ensures Agrees(r, current, P.DeleteStatement(tokens, old(current)))
    {
      var delete := Consume(Delete);
      if delete.Err? {
        return Err(delete.error);
      }
      var from := Consume(From);
      if from.Err? {
        return Err(from.error);
      }
      var table := Consume(Identifier);
      if table.Err? {
        return Err(table.error);
      }
      var w := OptionalWhere(None);
      if w.Err? {
        return Err(w.error);
      }
      return Ok(A.DeleteStatement(table.value.lexeme, w.value));
    }

    /** The constraint loop of a column definition, corrected to consume
        PRIMARY KEY. */
    method Constraints() returns (r: Result<seq<A.ColumnConstraint>, ParseError>)
      requires Valid()
      modifies this
      ensures Valid()
      ensures Agrees(r, current, P.Constraints(tokens, old(current), []))
    {
      var constraints: seq<A.ColumnConstraint> := [];
      while Check(PrimaryKey) || Check(Not) || Check(UniqueKey)
        invariant Valid() && old(current) <= current
        invariant P.Constraints(tokens, current, constraints) == P.Constraints(tokens, old(current), [])
        decreases |tokens| - current
      {
        if Check(PrimaryKey) {
          var _ := Consume(PrimaryKey);
          constraints := constraints + [A.PrimaryKey];
        } else if Check(Not) {
          var _ := Consume(Not);
          var nul := Consume(Null);
          if nul.Err? {
            return Err(nul.error);
          }
          constraints := constraints + [A.NotNull];
        } else {
          var _ := Consume(UniqueKey);
          constraints := constraints + [A.UniqueKey];
        }
      }
      return Ok(constraints);
    }

    /** One column definition of CREATE TABLE, corrected to read the data
        type from the token after the name and consume it. */
    method ColumnDefinition() returns (r: Result<A.ColumnDefinition, ParseError>)
      requires Valid()
      modifies this
      ensures Valid()
      ensures Agrees(r, current, P.ColumnDefinition(tokens, old(current)))
    {
      var name := Consume(Identifier);
      if name.Err? {
        return Err(name.error);
      }
      var dataType := P.DataTypeAt(tokens, current);
      if dataType.Err? {
        return Err(dataType.error);
      }
      current := current + 1;
      var constraints := Constraints();
      if constraints.Err? {
        return Err(constraints.error);
      }
      return Ok(A.ColumnDefinition(name.value.lexeme, dataType.value, constraints.value));
    }

    /** The column loop of `create_statement`. */
    method ColumnDefinitions() returns (r: Result<seq<A.ColumnDefinition>, ParseError>)
      requires Valid()
      modifies this
      ensures Valid()
      ensures Agrees(r, current, P.ColumnDefinitions(tokens, old(current), []))
    {
      var columns: seq<A.ColumnDefinition> := [];
      while true
        invariant Valid() && old(current) <= current
        invariant P.ColumnDefinitions(tokens, current, columns) == P.ColumnDefinitions(tokens, old(current), [])
        decreases |tokens| - current
      {
        var column := ColumnDefinition();
        if column.Err? {
          return Err(column.error);
        }
        columns := columns + [column.value];
        if !Check(Comma) {
          break;
        }
        var _ := Consume(Comma);
      }
      return Ok(columns);
    }

    /** `create_statement`. */
    method CreateStatement() returns (r: Result<A.CreateStatement, ParseError>)
      requires Valid()
      modifies this
      ensures Valid()
      ensures Agrees(r, current, P.CreateStatement(tokens, old(current)))
    {
      ghost var start := current;
      var create := Consume(Create);
      if create.Err? {
        return Err(create.error);
      }
      var table := Consume(Table);
      if table.Err? {
        return Err(table.error);
      }
      var name := Consume(Identifier);
      if name.Err? {
        return Err(name.error);
      }
      var open := Consume(OpenParen);
      if open.Err? {
        return Err(open.error);
      }
      assert current == start + 4 && name.value == tokens[start + 2];
      var columns := ColumnDefinitions();
      if columns.Err? {
        return Err(columns.error);
      }
      ghost var afterColumns := current;
      var close := Consume(CloseParen);
      if close.Err? {
        return Err(close.error);
      }
      assert SqlParseBase.Consume(tokens, afterColumns, CloseParen) == Ok(Parsed(tokens[afterColumns], current));
      return Ok(A.CreateStatement(name.value.lexeme, columns.value));
    }

    /** `drop_statement`. */
    method DropStatement() returns (r: Result<A.DropStatement, ParseError>)
      requires Valid()
      modifies this
      ensures Valid()
      ensures Agrees(r, current, P.DropStatement(tokens, old(current)))
    {
      var drop := Consume(Drop);
      if drop.Err? {
        return Err(drop.error);
      }
      if Check(Table) && Check(Schema) {
        return Err(TableAndSchema);
      }
      if Check(Table) {
        var _ := Consume(Table);
      } else if Check(Schema) {
        var _ := Consume(Schema);
      }
      var table := Consume(Identifier);
      if table.Err? {
        return Err(table.error);
      }
      return Ok(A.DropStatement(table.value.lexeme));
    }
  }
}
