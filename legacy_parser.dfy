/** The older parser over a cursor (src/parser/mod.rs): a cursor `current`
    over the scanned tokens, moved by `advance`, `consume` and
    `match_token`, with the comma-separated lists and the AND / OR chains
    written as loops. Every method is proved to return what the matching
    function of `LegacyParse` says and to leave the cursor where it says.

    `ParseColumnConstraints` follows the corrected constraint loop, where a
    single UNIQUE is the constraint; the loop as written, which consumes a
    second UNIQUE, is modelled only by `LegacyParseFindings`. */
module LegacyParser {
  import opened Wrappers
  import opened Ascii
  import opened LegacyTokens
  import opened LegacyNumbers
  import A = LegacyAst
  import Lex = LegacyLex
  import LegacyScanner
  import P = LegacyParse

  /** `Parser::new`: scans the source and starts at the first token. A
      panic of the scanner is its error. */
  method NewParser(source: string) returns (r: Result<Parser, Lex.ScanError>)
    ensures r.Ok? <==> Lex.ScanTokens(source).Ok?
    ensures r.Ok? ==> fresh(r.value) && r.value.Valid() && r.value.current == 0
                      && r.value.tokens == Lex.ScanTokens(source).value
    ensures r.Err? ==> r.error == Lex.ScanTokens(source).error
  {
    var scanner := new LegacyScanner.Scanner(source);
    var tokens := scanner.ScanTokens();
    if tokens.Err? {
      return Err(tokens.error);
    }
    var parser := new Parser(tokens.value);
    return Ok(parser);
  }

  class Parser {
    const tokens: seq<Token>
    var current: nat

    ghost predicate Valid()
      reads this
    {
      P.Cursor(tokens, current)
    }

    /** The struct `Parser::new` builds from the scanned tokens. */
    constructor(tokens: seq<Token>)
      requires P.EofTerminated(tokens)
      ensures this.tokens == tokens && current == 0 && Valid()
    {
      this.tokens := tokens;
      current := 0;
    }

    /** `peek`. */
    function Peek(): (r: Token)
      requires Valid()
      reads this
      ensures r == tokens[current]
    {
      tokens[current]
    }

    /** `previous`. */
    function Previous(): (r: Token)
      requires 0 < current <= |tokens|
      reads this
      ensures r == tokens[current - 1]
    {
      tokens[current - 1]
    }

    /** `is_at_end`. */
    predicate IsAtEnd()
      requires Valid()
      reads this
      ensures IsAtEnd() <==> P.IsAtEnd(tokens, current)
    {
      Peek().tokenType == Eof
    }

    /** `check`. */
    predicate Check(t: TokenType)
      requires Valid()
      reads this
      ensures Check(t) <==> P.Check(tokens, current, t)
    {
      if IsAtEnd() then false else Peek().tokenType == t
    }

    /** `advance`: one step forward except at EOF, then the token before the
        cursor; `previous` underflows, a panic, at EOF on the first token. */
    method Advance() returns (r: Token)
      requires Valid() && (current > 0 || !IsAtEnd())
      modifies this
      ensures Valid()
      ensures current == P.Advance(tokens, old(current)) && r == tokens[current - 1]
    {
      if !IsAtEnd() {
        current := current + 1;
      }
      r := Previous();
    }

    /** `consume`. */
    method Consume(t: TokenType, message: P.Message) returns (r: Result<Token, P.Message>)
      requires Valid()
      modifies this
      ensures Valid()
      ensures P.Agrees(r, current, P.Consume(tokens, old(current), t, message))
      ensures r.Err? ==> current == old(current)
    {
      if Check(t) {
        var token := Advance();
        r := Ok(token);
      } else {
        r := Err(message);
      }
    }

    /** `match_token`. */
    method MatchToken(t: TokenType) returns (matched: bool)
      requires Valid()
      modifies this
      ensures Valid()
      ensures matched == P.Check(tokens, old(current), t)
      ensures current == P.MatchToken(tokens, old(current), t)
    {
      if Check(t) {
        var _ := Advance();
        matched := true;
      } else {
        matched := false;
      }
    }

    /** `parse`, on a parser just made by `Parser::new`. */
    method Parse() returns (r: Result<A.SqlStatement, P.Message>)
      requires Valid() && current == 0
      modifies this
      ensures r == P.Parse(tokens)
    {
      var t := Peek().tokenType;
      if t == Select {
        r := SelectStatement();
      } else if t == Insert {
        r := InsertStatement();
      } else if t == Update {
        r := UpdateStatement();
      } else if t == Delete {
        r := DeleteStatement();
      } else if t == Create {
        r := CreateStatement();
      } else if t == Drop {
        r := DropStatement();
      } else {
        r := Err("Unexpected statement type");
      }
    }

    /** The column loop of `select_statement`. */
    method SelectColumns() returns (r: Result<seq<A.SelectColumn>, P.Message>)
      requires Valid()
      modifies this
      ensures Valid()
      ensures P.Agrees(r, current, P.SelectColumns(tokens, old(current), []))
    {
      var columns: seq<A.SelectColumn> := [];
      while true
        invariant Valid() && old(current) <= current
        invariant P.SelectColumns(tokens, current, columns) == P.SelectColumns(tokens, old(current), [])
        decreases |tokens| - current
      {
        ghost var (at, before) := (current, columns);
        if Check(Star) {
          var _ := Consume(Star, "expected *");
          columns := columns + [A.All];
          break;
        } else if Check(Identifier) {
          var column := Advance();
          columns := columns + [A.Column(column.lexeme)];
        } else {
          return Err("Expected column name or *");
        }
        var comma := MatchToken(Comma);
        if !comma {
          assert P.SelectColumns(tokens, at, before) == Ok(Parsed(columns, current));
          break;
        }
      }
      return Ok(columns);
    }

    /** `select_statement`. */
    method SelectStatement() returns (r: Result<A.SqlStatement, P.Message>)
      requires Valid()
      modifies this
      ensures Valid()
      ensures P.Agrees(r, current, P.SelectStatement(tokens, old(current)))
    {
      var select := Consume(Select, "expected select keyword");
      if select.Err? {
        return Err(select.error);
      }
      var columns := SelectColumns();
      if columns.Err? {
        return Err(columns.error);
      }
      var from := Consume(From, "Expect FROM after select columns");
      if from.Err? {
        return Err(from.error);
      }
      var table: string;
      if Check(Identifier) {
        var t := Advance();
        table := t.lexeme;
      } else {
        return Err("Expected table name after FROM");
      }
      var whereClause := OptionalWhere();
      if whereClause.Err? {
        return Err(whereClause.error);
      }
      return Ok(A.Select(A.SelectStatement(columns.value, Some(table), whereClause.value)));
    }

    /** `if self.match_token(Where) { Some(self.where_clause()?) } else { None }`. */
    method OptionalWhere() returns (r: Result<Option<A.WhereClause>, P.Message>)
      requires Valid()
      modifies this
      ensures Valid()
      ensures P.Agrees(r, current, P.OptionalWhere(tokens, old(current)))
    {
      var hasWhere := MatchToken(Where);
      if hasWhere {
        var c := WhereClause();
        if c.Err? {
          return Err(c.error);
        }
        return Ok(Some(c.value));
      }
      return Ok(None);
    }

    /** `insert_statement`. */
    method InsertStatement() returns (r: Result<A.SqlStatement, P.Message>)
      requires Valid()
      modifies this
      ensures Valid()
      ensures P.Agrees(r, current, P.InsertStatement(tokens, old(current)))
    {
      var insert := Consume(Insert, "Expect INSERT");
      if insert.Err? {
        return Err(insert.error);
      }
      var into := Consume(Into, "Expect INTO after INSERT");
      if into.Err? {
        return Err(into.error);
      }
      var table := Consume(Identifier, "Expect table name");
      if table.Err? {
        return Err(table.error);
      }
      var columns: seq<string> := [];
      var open := MatchToken(LeftParen);
      if open {
        var c := ParseColumnList();
        if c.Err? {
          return Err(c.error);
        }
        columns := c.value;
      }
      var values := Consume(Values, "Expect VALUES");
      if values.Err? {
        return Err(values.error);
      }
      var paren := Consume(LeftParen, "Expect ( after VALUES");
      if paren.Err? {
        return Err(paren.error);
      }
      var expressions := ParseExpressionList();
      if expressions.Err? {
        return Err(expressions.error);
      }
      var close := Consume(RightParen, "Expect ) after values");
      if close.Err? {
        return Err(close.error);
      }
      return Ok(A.Insert(A.InsertStatement(table.value.lexeme, columns, expressions.value)));
    }

    /** `update_statement`. */
    method UpdateStatement() returns (r: Result<A.SqlStatement, P.Message>)
      requires Valid()
      modifies this
      ensures Valid()
      ensures P.Agrees(r, current, P.UpdateStatement(tokens, old(current)))
    {
      var update := Consume(Update, "Expect UPDATE");
      if update.Err? {
        return Err(update.error);
      }
      var table := Consume(Identifier, "Expect table name");
      if table.Err? {
        return Err(table.error);
      }
      var setKeyword := Consume(Set, "Expect SET after table name");
      if setKeyword.Err? {
        return Err(setKeyword.error);
      }
      var assignments := ParseAssignments();
      if assignments.Err? {
        return Err(assignments.error);
      }
      var whereClause := OptionalWhere();
      if whereClause.Err? {
        return Err(whereClause.error);
      }
      return Ok(A.Update(A.UpdateStatement(table.value.lexeme, assignments.value, whereClause.value)));
    }

    /** `delete_statement`. */
    method DeleteStatement() returns (r: Result<A.SqlStatement, P.Message>)
      requires Valid()
      modifies this
      ensures Valid()
      ensures P.Agrees(r, current, P.DeleteStatement(tokens, old(current)))
    {
      var delete := Consume(Delete, "Expect DELETE");
      if delete.Err? {
        return Err(delete.error);
      }
      var from := Consume(From, "Expect FROM after DELETE");
      if from.Err? {
        return Err(from.error);
      }
      var table := Consume(Identifier, "Expect table name");
      if table.Err? {
        return Err(table.error);
      }
      var whereClause := OptionalWhere();
      if whereClause.Err? {
        return Err(whereClause.error);
      }
      return Ok(A.Delete(A.DeleteStatement(table.value.lexeme, whereClause.value)));
    }

    /** `create_statement`. */
    method CreateStatement() returns (r: Result<A.SqlStatement, P.Message>)
      requires Valid()
      modifies this
      ensures Valid()
      ensures P.Agrees(r, current, P.CreateStatement(tokens, old(current)))
    {
      var create := Consume(Create, "Expect CREATE");
      if create.Err? {
        return Err(create.error);
      }
      var tableKeyword := Consume(Table, "Expect TABLE after CREATE");
      if tableKeyword.Err? {
        return Err(tableKeyword.error);
      }
      var table := Consume(Identifier, "Expect table name");
      if table.Err? {
        return Err(table.error);
      }
      var open := Consume(LeftParen, "Expect ( after table name");
      if open.Err? {
        return Err(open.error);
      }
      var columns := ParseColumnDefinitions();
      if columns.Err? {
        return Err(columns.error);
      }
      var close := Consume(RightParen, "Expect ) after column definitions");
      if close.Err? {
        return Err(close.error);
      }
      return Ok(A.Create(A.CreateStatement(table.value.lexeme, columns.value)));
    }

    /** `drop_statement`. */
    method DropStatement() returns (r: Result<A.SqlStatement, P.Message>)
      requires Valid()
      modifies this
      ensures Valid()
      ensures P.Agrees(r, current, P.DropStatement(tokens, old(current)))
    {
      var drop := Consume(Drop, "Expect DROP");
      if drop.Err? {
        return Err(drop.error);
      }
      var tableKeyword := Consume(Table, "Expect TABLE after DROP");
      if tableKeyword.Err? {
        return Err(tableKeyword.error);
      }
      var table := Consume(Identifier, "Expect table name");
      if table.Err? {
        return Err(table.error);
      }
      return Ok(A.Drop(A.DropStatement(table.value.lexeme)));
    }

    /** `where_clause`. */
    method WhereClause() returns (r: Result<A.WhereClause, P.Message>)
      requires Valid()
      modifies this
      ensures Valid()
      ensures P.Agrees(r, current, P.WhereClause(tokens, old(current)))
    {
      var c := ParseOrCondition();
      if c.Err? {
        return Err(c.error);
      }
      return Ok(A.WhereClause(c.value));
    }

    /** `parse_or_condition`. */
    method ParseOrCondition() returns (r: Result<A.Condition, P.Message>)
      requires Valid()
      modifies this
      ensures Valid()
      ensures P.Agrees(r, current, P.OrCondition(tokens, old(current)))
      decreases |tokens| - current, 3
    {
      var first := ParseAndCondition();
      if first.Err? {
        return Err(first.error);
      }
      var left := first.value;
      while Check(Or)
        invariant Valid() && old(current) < current
        invariant P.OrChain(tokens, current, left) == P.OrCondition(tokens, old(current))
        decreases |tokens| - current
      {
        var _ := Consume(Or, "Expected 'OR' operator");
        var right := ParseAndCondition();
        if right.Err? {
          return Err(right.error);
        }
        left := A.Logical(left, A.Or, right.value);
      }
      return Ok(left);
    }

    /** `parse_and_condition`. */
    method ParseAndCondition() returns (r: Result<A.Condition, P.Message>)
      requires Valid()
      modifies this
      ensures Valid()
      ensures P.Agrees(r, current, P.AndCondition(tokens, old(current)))
      decreases |tokens| - current, 1
    {
      var first := ParsePrimaryCondition();
      if first.Err? {
        return Err(first.error);
      }
      var left := first.value;
      while Check(And)
        invariant Valid() && old(current) < current
        invariant P.AndChain(tokens, current, left) == P.AndCondition(tokens, old(current))
        decreases |tokens| - current
      {
        var _ := Consume(And, "Expected 'AND' operator");
        var right := ParsePrimaryCondition();
        if right.Err? {
          return Err(right.error);
        }
        left := A.Logical(left, A.And, right.value);
      }
      return Ok(left);
    }

    /** `parse_primary_condition`. */
    method ParsePrimaryCondition() returns (r: Result<A.Condition, P.Message>)
      requires Valid()
      modifies this
      ensures Valid()
      ensures P.Agrees(r, current, P.PrimaryCondition(tokens, old(current)))
      decreases |tokens| - current, 0
    {
      if Check(Not) {
        var _ := Consume(Not, "Expected 'NOT' operator");
        var c := ParsePrimaryCondition();
        if c.Err? {
          return Err(c.error);
        }
        return Ok(A.Not(c.value));
      }
      if Check(LeftParen) {
        var _ := Consume(LeftParen, "Expected '('");
        var c := ParseOrCondition();
        if c.Err? {
          return Err(c.error);
        }
        var close := Consume(RightParen, "Expected ')'");
        if close.Err? {
          return Err(close.error);
        }
        return Ok(c.value);
      }
      r := ParseComparisonCondition();
    }

    /** `parse_comparison_condition`. The operator `match` has an error arm
        for other token types; the check before it admits none, so it is
        left out here. */
    method ParseComparisonCondition() returns (r: Result<A.Condition, P.Message>)
      requires Valid()
      modifies this
      ensures Valid()
      ensures P.Agrees(r, current, P.ComparisonCondition(tokens, old(current)))
    {
      if Check(Identifier) {
        var left := Peek().lexeme;
        var _ := Consume(Identifier, "expected an identifier");
        if Check(Equal) || Check(GreaterOrEqual) || Check(LesserOrEqual) || Check(Lesser) || Check(Greater) {
          var operator := P.ComparisonOf(Peek().tokenType).value;
          var _ := Consume(Peek().tokenType, "expected comparison operator");
          var right := Expression();
          if right.Err? {
            return Err(right.error);
          }
          return Ok(A.Comparison(operator, A.Identifier(left), right.value));
        } else if Check(Null) || Check(Is) || Check(Not) {
          if Check(Is) {
            var _ := Consume(Is, "expected IS operator");
            if Check(Not) {
              var _ := Consume(Not, "expected NOT operator");
              if Check(Null) {
                var _ := Consume(Null, "expected NULL operator");
                return Ok(A.NullCheck(A.IsNotNull(left)));
              }
            }
            if Check(Null) {
              var _ := Consume(Null, "expected NULL operator");
              return Ok(A.NullCheck(A.IsNull(left)));
            }
            return Err("unexpected token found");
          }
          return Err("unexpected token found");
        } else {
          return Ok(A.Comparison(A.Equal, A.Identifier(left), A.Literal(A.Literal.Boolean(true))));
        }
      }
      r := Err("Expected identifier on the left-hand side of the comparison.");
    }

    /** `expression`. */
    method Expression() returns (r: Result<A.Expression, P.Message>)
      requires Valid()
      modifies this
      ensures Valid()
      ensures P.Agrees(r, current, P.Expression(tokens, old(current)))
    {
      ghost var at := current;
      if Check(Identifier) {
        var t := Advance();
        r := Ok(A.Identifier(t.lexeme));
        assert t == tokens[at] && current == at + 1;
      } else if Check(String) {
        var t := Advance();
        r := Ok(A.Literal(A.String(t.lexeme)));
        assert t == tokens[at] && current == at + 1;
      } else if Check(Number) {
        var t := Advance();
        assert t == tokens[at] && current == at + 1;
        if IsFloatText(t.lexeme) {
          r := Ok(A.Literal(A.Number(t.lexeme)));
        } else {
          r := Err("Invalid number");
        }
      } else {
        r := Err("Expected expression");
      }
    }

    /** `parse_column_list`. */
    method ParseColumnList() returns (r: Result<seq<string>, P.Message>)
      requires Valid()
      modifies this
      ensures Valid()
      ensures P.Agrees(r, current, P.ColumnList(tokens, old(current)))
    {
      var columns: seq<string> := [];
      while true
        invariant Valid() && old(current) <= current
        invariant P.ColumnNames(tokens, current, columns) == P.ColumnNames(tokens, old(current), [])
        decreases |tokens| - current
      {
        ghost var (at, before) := (current, columns);
        var column := Consume(Identifier, "Expect column name");
        if column.Err? {
          return Err(column.error);
        }
        columns := columns + [column.value.lexeme];
        var comma := MatchToken(Comma);
        if !comma {
          assert P.ColumnNames(tokens, at, before) == Ok(Parsed(columns, current));
          break;
        }
      }
      var close := Consume(RightParen, "Expect ) after column list");
      if close.Err? {
        return Err(close.error);
      }
      return Ok(columns);
    }

    /** `parse_expression_list`. */
    method ParseExpressionList() returns (r: Result<seq<A.Expression>, P.Message>)
      requires Valid()
      modifies this
      ensures Valid()
      ensures P.Agrees(r, current, P.ExpressionList(tokens, old(current), []))
    {
      var expressions: seq<A.Expression> := [];
      while true
        invariant Valid() && old(current) <= current
        invariant P.ExpressionList(tokens, current, expressions) == P.ExpressionList(tokens, old(current), [])
        decreases |tokens| - current
      {
        ghost var (at, before) := (current, expressions);
        var e := Expression();
        if e.Err? {
          return Err(e.error);
        }
        expressions := expressions + [e.value];
        var comma := MatchToken(Comma);
        if !comma {
          assert P.ExpressionList(tokens, at, before) == Ok(Parsed(expressions, current));
          break;
        }
      }
      return Ok(expressions);
    }

    /** `parse_assignments`. */
    method ParseAssignments() returns (r: Result<seq<A.Assignment>, P.Message>)
      requires Valid()
      modifies this
      ensures Valid()
      ensures P.Agrees(r, current, P.Assignments(tokens, old(current), []))
    {
      var assignments: seq<A.Assignment> := [];
      while true
        invariant Valid() && old(current) <= current
        invariant P.Assignments(tokens, current, assignments) == P.Assignments(tokens, old(current), [])
        decreases |tokens| - current
      {
        ghost var (at, before) := (current, assignments);
        var column := Consume(Identifier, "Expect column name");
        if column.Err? {
          return Err(column.error);
        }
        var equal := Consume(Equal, "Expect = after column name");
        if equal.Err? {
          return Err(equal.error);
        }
        var value := Expression();
        if value.Err? {
          return Err(value.error);
        }
        assignments := assignments + [A.Assignment(column.value.lexeme, value.value)];
        var comma := MatchToken(Comma);
        if !comma {
          assert P.Assignments(tokens, at, before) == Ok(Parsed(assignments, current));
          break;
        }
      }
      return Ok(assignments);
    }

    /** `parse_column_definitions`. */
    method ParseColumnDefinitions() returns (r: Result<seq<A.ColumnDefinition>, P.Message>)
      requires Valid()
      modifies this
      ensures Valid()
      ensures P.Agrees(r, current, P.ColumnDefinitions(tokens, old(current), []))
    {
      var columns: seq<A.ColumnDefinition> := [];
      while true
        invariant Valid() && old(current) <= current
        invariant P.ColumnDefinitions(tokens, current, columns) == P.ColumnDefinitions(tokens, old(current), [])
        decreases |tokens| - current
      {
        ghost var (at, before) := (current, columns);
        var column := ParseColumnDefinition();
        if column.Err? {
          return Err(column.error);
        }
        columns := columns + [column.value];
        var comma := MatchToken(Comma);
        if !comma {
          assert P.ColumnDefinitions(tokens, at, before) == Ok(Parsed(columns, current));
          break;
        }
      }
      return Ok(columns);
    }

    /** One round of the loop of `parse_column_definitions`: a column name,
        its type and its constraints. */
    method ParseColumnDefinition() returns (r: Result<A.ColumnDefinition, P.Message>)
      requires Valid()
      modifies this
      ensures Valid()
      ensures P.Agrees(r, current, P.ColumnDefinition(tokens, old(current)))
    {
      var name := Consume(Identifier, "Expect column name");
      if name.Err? {
        return Err(name.error);
      }
      var dataType := ParseDataType();
      if dataType.Err? {
        return Err(dataType.error);
      }
      var constraints := ParseColumnConstraints();
      if constraints.Err? {
        return Err(constraints.error);
      }
      r := Ok(A.ColumnDefinition(name.value.lexeme, dataType.value, constraints.value));
    }

    /** `parse_data_type`. */
    method ParseDataType() returns (r: Result<A.DataType, P.Message>)
      requires Valid()
      modifies this
      ensures Valid()
      ensures P.Agrees(r, current, P.DataType(tokens, old(current)))
    {
      var typeName := Consume(Identifier, "Expect data type");
      if typeName.Err? {
        return Err(typeName.error);
      }
      var name := ToUpper(typeName.value.lexeme);
      if name == "INTEGER" {
        r := Ok(A.Integer);
      } else if name == "FLOAT" {
        r := Ok(A.Float);
      } else if name == "VARCHAR" {
        var open := MatchToken(LeftParen);
        if open {
          var number := Consume(Number, "Expect size for VARCHAR");
          if number.Err? {
            return Err(number.error);
          }
          var size := ParseUsize(number.value.lexeme);
          if size.None? {
            return Err("Invalid VARCHAR size");
          }
          var close := Consume(RightParen, "Expect ) after VARCHAR size");
          if close.Err? {
            return Err(close.error);
          }
          r := Ok(A.Varchar(Some(size.value)));
        } else {
          r := Ok(A.Varchar(None));
        }
      } else if name == "BOOLEAN" {
        r := Ok(A.DataType.Boolean);
      } else {
        r := Err("Unsupported data type: " + name);
      }
    }

    /** `parse_column_constraints`, with UNIQUE a one-word constraint. The
        source's `while match(PRIMARY) || match(NOT) || match(UNIQUE)`
        followed by a `match` on `previous()` is written as one branch per
        token; its error arm for other tokens cannot be reached. */
    method ParseColumnConstraints() returns (r: Result<seq<A.ColumnConstraint>, P.Message>)
      requires Valid()
      modifies this
      ensures Valid()
      ensures P.Agrees(r, current, P.Constraints(tokens, old(current), []))
    {
      var constraints: seq<A.ColumnConstraint> := [];
      while true
        invariant Valid() && old(current) <= current
        invariant P.Constraints(tokens, current, constraints) == P.Constraints(tokens, old(current), [])
        decreases |tokens| - current
      {
        var primary := MatchToken(Primary);
        if primary {
          var key := Consume(Key, "Expect KEY after PRIMARY");
          if key.Err? {
            return Err(key.error);
          }
          constraints := constraints + [A.PrimaryKey];
        } else {
          var not := MatchToken(Not);
          if not {
            var nullKeyword := Consume(Null, "Expect NULL after NOT");
            if nullKeyword.Err? {
              return Err(nullKeyword.error);
            }
            constraints := constraints + [A.NotNull];
          } else {
            var unique := MatchToken(Unique);
            if unique {
              constraints := constraints + [A.Unique];
            } else {
              break;
            }
          }
        }
      }
      return Ok(constraints);
    }
  }
}
