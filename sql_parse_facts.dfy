/** What the newer parser (src/parser_v2/parser.rs) promises, proved about
    the parsing functions of `SqlParse` and the shunting-yard steps of
    `SqlShunting`: which statement the first token selects, the shape of the
    select, column and value lists, operator precedence and parentheses in
    WHERE, its errors, and DROP. */
module SqlParseFacts {
  import opened Wrappers
  import opened SqlTokens
  import A = SqlAst
  import opened SqlParseBase
  import opened SqlShunting
  import opened SqlParse

  // ---------------------------------------------------------------------
  // Dispatch

  /** The first token decides the statement: a successful parse is of the
      kind the first token names, and it succeeds or fails exactly as that
      statement's parser does from the start of the tokens. */
  lemma DispatchesOnFirstToken(toks: seq<Token>)
    requires |toks| > 0
    ensures ParseAndBuildAst(toks).Ok? ==>
              (ParseAndBuildAst(toks).value.Select? <==> toks[0].tokenType == Select) &&
              (ParseAndBuildAst(toks).value.Insert? <==> toks[0].tokenType == Insert) &&
              (ParseAndBuildAst(toks).value.Update? <==> toks[0].tokenType == Update) &&
              (ParseAndBuildAst(toks).value.Delete? <==> toks[0].tokenType == Delete) &&
              (ParseAndBuildAst(toks).value.Create? <==> toks[0].tokenType == Create) &&
              (ParseAndBuildAst(toks).value.Drop? <==> toks[0].tokenType == Drop)
    ensures toks[0].tokenType == Select ==>
              match SelectStatement(toks, 0)
              case Ok(s) => ParseAndBuildAst(toks) == Ok(A.Select(s.value))
              case Err(e) => ParseAndBuildAst(toks) == Err(e)
    ensures toks[0].tokenType == Insert ==>
              match InsertStatement(toks, 0)
              case Ok(s) => ParseAndBuildAst(toks) == Ok(A.Insert(s.value))
              case Err(e) => ParseAndBuildAst(toks) == Err(e)
    ensures toks[0].tokenType == Update ==>
              match UpdateStatement(toks, 0)
              case Ok(s) => ParseAndBuildAst(toks) == Ok(A.Update(s.value))
              case Err(e) => ParseAndBuildAst(toks) == Err(e)
    ensures toks[0].tokenType == Delete ==>
              match DeleteStatement(toks, 0)
              case Ok(s) => ParseAndBuildAst(toks) == Ok(A.Delete(s.value))
              case Err(e) => ParseAndBuildAst(toks) == Err(e)
    ensures toks[0].tokenType == Create ==>
              match CreateStatement(toks, 0)
              case Ok(s) => ParseAndBuildAst(toks) == Ok(A.Create(s.value))
              case Err(e) => ParseAndBuildAst(toks) == Err(e)
    ensures toks[0].tokenType == Drop ==>
              match DropStatement(toks, 0)
              case Ok(s) => ParseAndBuildAst(toks) == Ok(A.Drop(s.value))
              case Err(e) => ParseAndBuildAst(toks) == Err(e)
  {
  }

  // ---------------------------------------------------------------------
  // SELECT

  /** The select-list item `c` read from the token at `at`: `*` only as the
      last item; a column named by an identifier, followed by a comma
      exactly when more items follow. */
  predicate SelectItemAt(toks: seq<Token>, at: int, c: A.SelectColumn, last: bool) {
    0 <= at < |toks| &&
    match c
    case All => last && toks[at].tokenType == AllColumnsOrMultiplication
    case Column(name) =>
      toks[at].tokenType == Identifier && name == toks[at].lexeme &&
      (Check(toks, at + 1, Comma) <==> !last)
  }

  /** `*` ends the select list at once, whatever follows it. */
  lemma StarEndsSelectList(toks: seq<Token>, pos: nat, acc: seq<A.SelectColumn>)
    requires Check(toks, pos, AllColumnsOrMultiplication)
    ensures SelectColumns(toks, pos, acc) == Ok(Parsed(acc + [A.All], pos + 1))
  {
  }

  /** The select list read from `pos` is the items already read followed by
      one item per token at `pos`, `pos + 2`, …: identifiers separated by
      commas, or a final `*`. So `*` appears at most once, and last; every
      other item is a column named in source order. */
  lemma {:induction false} SelectListShape(toks: seq<Token>, pos: nat, acc: seq<A.SelectColumn>)
    requires pos <= |toks|
    ensures SelectColumns(toks, pos, acc).Ok? ==>
              var cols := SelectColumns(toks, pos, acc).value.value;
              SelectColumns(toks, pos, acc).value.pos == pos + 2 * (|cols| - |acc|) - 1 &&
              cols[..|acc|] == acc &&
              forall i :: |acc| <= i < |cols| ==> SelectItemAt(toks, pos + 2 * (i - |acc|), cols[i], i == |cols| - 1)
    decreases |toks| - pos
  {
    var r := SelectColumns(toks, pos, acc);
    if r.Ok? {
      var cols := r.value.value;
      if Check(toks, pos, AllColumnsOrMultiplication) {
        assert cols == acc + [A.All];
      } else {
        var columns := acc + [A.Column(toks[pos].lexeme)];
        if Check(toks, pos + 1, Comma) {
          SelectListShape(toks, pos + 2, columns);
          assert cols[..|columns|] == columns;
          assert cols[..|acc|] == columns[..|acc|];
          forall i | |acc| <= i < |cols|
            ensures SelectItemAt(toks, pos + 2 * (i - |acc|), cols[i], i == |cols| - 1)
          {
            if i > |acc| {
              assert pos + 2 * (i - |acc|) == pos + 2 + 2 * (i - |columns|);
            } else {
              assert cols[i] == columns[i];
            }
          }
        } else {
          assert cols == columns;
        }
      }
    }
  }

  /** A successful SELECT reads its columns right after SELECT, its table
      from the identifier after FROM, and never sets LIMIT or OFFSET. */
  lemma SelectReadsTableAfterFrom(toks: seq<Token>, pos: nat)
    requires pos <= |toks|
    ensures SelectStatement(toks, pos).Ok? ==>
              Check(toks, pos, Select) && SelectColumns(toks, pos + 1, []).Ok? &&
              var c := SelectColumns(toks, pos + 1, []).value;
              var s := SelectStatement(toks, pos).value.value;
              s.columns == c.value && Check(toks, c.pos, From) && Check(toks, c.pos + 1, Identifier) &&
              s.from == toks[c.pos + 1].lexeme && s.limit == None && s.offset == None
  {
  }

  /** An ORDER BY item without ASC or DESC is ascending and takes only the
      column name. */
  lemma OrderByDefaultsToAscending(toks: seq<Token>, pos: nat)
    requires Check(toks, pos, Identifier)
    requires !Check(toks, pos + 1, AscendingOrder) && !Check(toks, pos + 1, DecendingOrder)
    ensures OrderByItem(toks, pos) == Ok(Parsed(A.OrderByClause(toks[pos].lexeme, true), pos + 1))
  {
  }

  // ---------------------------------------------------------------------
  // WHERE: the shunting-yard steps

  /** An operator that binds more tightly than the one on top of the stack
      reduces nothing: AND after OR waits for its right operand. */
  lemma TighterOperatorWaits(t: TokenType, stack: seq<TokenType>, output: seq<A.Condition>)
    requires |stack| > 0 && stack[|stack| - 1] != OpenParen
    requires Precedence(t) > Precedence(stack[|stack| - 1])
    ensures ReduceForOperator(t, stack, output) == Ok((stack, output))
  {
  }

  /** An operator that binds no more tightly than an AND or OR on top of the
      stack first combines the two conditions at the back of the output with
      that operator: equal precedence groups to the left. */
  lemma LooserOrEqualOperatorReduces(t: TokenType, stack: seq<TokenType>, output: seq<A.Condition>)
    requires |stack| > 0 && (stack[|stack| - 1] == And || stack[|stack| - 1] == Or)
    requires Precedence(t) <= Precedence(stack[|stack| - 1])
    requires |output| >= 2
    ensures ReduceForOperator(t, stack, output)
            == ReduceForOperator(t, stack[..|stack| - 1], Combine(output, LogicalOf(stack[|stack| - 1]).value))
  {
  }

  /** Reducing down to an open parenthesis combines with exactly the
      operators above it, as the final drain would, then drops the
      parenthesis and leaves the stack below it untouched. */
  lemma {:induction false} ReduceToParenDrainsAbove(below: seq<TokenType>, ops: seq<TokenType>, output: seq<A.Condition>)
    requires OpenParen !in ops
    ensures ReduceToParen(below + [OpenParen] + ops, output) ==
            match Drain(ops, output)
            case Ok(out) => Ok((below, out))
            case Err(e) => Err(e)
    decreases |ops|
  {
    var stack := below + [OpenParen] + ops;
    if |ops| == 0 {
      assert stack[..|stack| - 1] == below;
    } else {
      var ops' := ops[..|ops| - 1];
      assert stack[|stack| - 1] == ops[|ops| - 1];
      assert stack[..|stack| - 1] == below + [OpenParen] + ops';
      assert ops[|ops| - 1] in ops;
      assert forall x :: x in ops' ==> x in ops;
      match Reduce(ops[|ops| - 1], output)
      case Ok(out) =>
        ReduceToParenDrainsAbove(below, ops', out);
      case Err(e) =>
    }
  }

  /** A closing parenthesis with no open one on the stack reduces with every
      operator there and leaves the stack empty, like the final drain. */
  lemma {:induction false} StrayCloseParenDrains(stack: seq<TokenType>, output: seq<A.Condition>)
    requires OpenParen !in stack
    ensures ReduceToParen(stack, output) ==
            match Drain(stack, output)
            case Ok(out) => Ok(([], out))
            case Err(e) => Err(e)
    decreases |stack|
  {
    if |stack| > 0 {
      var rest := stack[..|stack| - 1];
      assert stack[|stack| - 1] in stack;
      assert forall x :: x in rest ==> x in stack;
      match Reduce(stack[|stack| - 1], output)
      case Ok(out) =>
        StrayCloseParenDrains(rest, out);
      case Err(e) =>
    }
  }

  predicate LogicalOperators(stack: seq<TokenType>) {
    forall i :: 0 <= i < |stack| ==> stack[i] == And || stack[i] == Or
  }

  /** Draining AND and OR operators needs one condition more than there are
      operators; with fewer it fails with `InvalidWhereClause`. */
  lemma {:induction false} DrainNeedsOperands(stack: seq<TokenType>, output: seq<A.Condition>)
    requires LogicalOperators(stack)
    ensures Drain(stack, output).Ok? <==> |stack| == 0 || |output| > |stack|
    ensures Drain(stack, output).Err? ==> Drain(stack, output).error == InvalidWhereClause
    decreases |stack|
  {
    if |stack| > 0 && |output| >= 2 {
      DrainNeedsOperands(stack[..|stack| - 1], Reduce(stack[|stack| - 1], output).value);
    }
  }

  /** The end of a WHERE clause succeeds exactly when there are more
      conditions than pending operators; with none at all the clause is
      empty, with too few the clause is invalid. */
  lemma FinishWhereErrors(stack: seq<TokenType>, output: seq<A.Condition>)
    requires LogicalOperators(stack)
    ensures FinishWhere(stack, output).Ok? <==> |output| > |stack|
    ensures |output| <= |stack| && |stack| > 0 ==> FinishWhere(stack, output) == Err(InvalidWhereClause)
    ensures |output| == 0 && |stack| == 0 ==> FinishWhere(stack, output) == Err(EmptyWhereClause)
  {
    DrainNeedsOperands(stack, output);
  }

  // ---------------------------------------------------------------------
  // WHERE: whole clauses

  /** A WHERE clause with no condition before its end (or before ORDER BY)
      is empty. */
  lemma EmptyWhereFails(toks: seq<Token>, pos: nat)
    requires pos <= |toks| && WhereEnds(toks, pos)
    ensures HandleWhere(toks, pos) == Err(EmptyWhereClause)
  {
  }

  /** Only literals, identifiers, NOT, parentheses, AND and OR can appear in
      a WHERE clause; any other token there is an error. */
  lemma OtherTokenInWhereFails(toks: seq<Token>, pos: nat, stack: seq<TokenType>, output: seq<A.Condition>)
    requires pos < |toks| && !WhereEnds(toks, pos)
    requires toks[pos].tokenType !in {Literal, Identifier, Not, OpenParen, CloseParen, And, Or}
    ensures WhereLoop(toks, pos, stack, output) == Err(UnexpectedTokenInWhere)
  {
  }

  /** `lhs op rhs` with one of the six comparison tokens is the comparison
      that token names, of the two expressions, and takes three tokens. */
  lemma ComparisonCondition(toks: seq<Token>, pos: nat)
    requires pos + 1 < |toks| && IsComparison(toks[pos + 1].tokenType)
    requires ExpressionForInput(toks[pos]).Ok? && ParseExpression(toks, pos + 2).Ok?
    ensures PrimaryCondition(toks, pos)
            == Ok(Parsed(A.Comparison(ComparisonOf(toks[pos + 1].tokenType), ExpressionForInput(toks[pos]).value,
                                      ParseExpression(toks, pos + 2).value.value), pos + 3))
  {
  }

  /** After the left side only IS, IN and the comparison tokens can come. */
  lemma NoOtherConditionForm(toks: seq<Token>, pos: nat)
    requires pos + 1 < |toks|
    requires toks[pos + 1].tokenType != Is && toks[pos + 1].tokenType != In && !IsComparison(toks[pos + 1].tokenType)
    ensures PrimaryCondition(toks, pos) == Err(ShouldNotReachHere)
  {
  }

  /** A number literal token. */
  function Num(n: nat, text: string): (r: Token)
    ensures r.tokenType == Literal && r.literal == Some(Number(n))
  {
    Token(Literal, text, Some(Number(n)), 1, 0)
  }

  /** `a = v` as a condition. */
  function Eq(column: string, v: nat): (r: A.Condition)
    ensures r.Comparison? && r.operator == A.EqualTo
  {
    A.Comparison(A.EqualTo, A.Identifier(column), A.Literal(A.Number(v)))
  }

  /** `a = 1 <op1> b = 2 <op2> c = 3` */
  function ThreeComparisons(op1: TokenType, op2: TokenType): seq<Token> {
    [Tok(Identifier, "a"), Tok(EqualTo, "="), Num(1, "1"), Tok(op1, "op"),
     Tok(Identifier, "b"), Tok(EqualTo, "="), Num(2, "2"), Tok(op2, "op"),
     Tok(Identifier, "c"), Tok(EqualTo, "="), Num(3, "3")]
  }

  /** The end of `a = 1 OR b = 2 AND c = 3`, from the second AND operand:
      AND has waited on the stack above OR and is reduced first. */
  lemma OrAndFromSecondOperand()
    ensures WhereLoop(ThreeComparisons(Or, And), 7, [Or], [Eq("a", 1), Eq("b", 2)])
            == Ok(Parsed(A.Logical(Eq("a", 1), A.Or, A.Logical(Eq("b", 2), A.And, Eq("c", 3))), 11))
  {
    var toks := ThreeComparisons(Or, And);
    var a, b, c := Eq("a", 1), Eq("b", 2), Eq("c", 3);
    var bc := A.Logical(b, A.And, c);
    assert WhereLoop(toks, 8, [Or, And], [a, b]) == Ok(Parsed(A.Logical(a, A.Or, bc), 11)) by {
      assert PrimaryCondition(toks, 8) == Ok(Parsed(c, 11));
      assert [a, b] + [c] == [a, b, c];
      assert [Or, And][..1] == [Or] && [Or][..0] == [];
      assert Combine([a, b, c], A.And) == [a, bc];
      assert Combine([a, bc], A.Or) == [A.Logical(a, A.Or, bc)];
      assert Drain([Or], [a, bc]) == Ok([A.Logical(a, A.Or, bc)]);
      assert Drain([Or, And], [a, b, c]) == Ok([A.Logical(a, A.Or, bc)]);
    }
    assert ReduceForOperator(And, [Or], [a, b]) == Ok(([Or], [a, b]));
    assert [Or] + [And] == [Or, And];
  }

  /** AND binds more tightly than OR:
      `a = 1 OR b = 2 AND c = 3` is `a = 1 OR (b = 2 AND c = 3)`. */
  lemma AndBindsTighterThanOr()
    ensures HandleWhere(ThreeComparisons(Or, And), 0)
            == Ok(Parsed(A.Logical(Eq("a", 1), A.Or, A.Logical(Eq("b", 2), A.And, Eq("c", 3))), 11))
  {
    var toks := ThreeComparisons(Or, And);
    var a, b := Eq("a", 1), Eq("b", 2);
    OrAndFromSecondOperand();
    assert WhereLoop(toks, 3, [], [a]) == WhereLoop(toks, 7, [Or], [a, b]) by {
      assert PrimaryCondition(toks, 4) == Ok(Parsed(b, 7));
      assert [a] + [b] == [a, b] && [] + [Or] == [Or];
    }
    assert PrimaryCondition(toks, 0) == Ok(Parsed(a, 3));
    assert [] + [a] == [a];
  }

  /** The end of `a = 1 AND b = 2 AND c = 3`, from the second AND operand:
      the first AND is reduced before the second is pushed. */
  lemma AndAndFromSecondOperand()
    ensures WhereLoop(ThreeComparisons(And, And), 7, [And], [Eq("a", 1), Eq("b", 2)])
            == Ok(Parsed(A.Logical(A.Logical(Eq("a", 1), A.And, Eq("b", 2)), A.And, Eq("c", 3)), 11))
  {
    var toks := ThreeComparisons(And, And);
    var a, b, c := Eq("a", 1), Eq("b", 2), Eq("c", 3);
    var ab := A.Logical(a, A.And, b);
    assert WhereLoop(toks, 8, [And], [ab]) == Ok(Parsed(A.Logical(ab, A.And, c), 11)) by {
      assert PrimaryCondition(toks, 8) == Ok(Parsed(c, 11));
      assert [ab] + [c] == [ab, c];
      assert Combine([ab, c], A.And) == [A.Logical(ab, A.And, c)];
      assert Drain([And], [ab, c]) == Ok([A.Logical(ab, A.And, c)]);
    }
    assert [And][..0] == [] && [] + [And] == [And];
    assert Combine([a, b], A.And) == [ab];
    assert ReduceForOperator(And, [And], [a, b]) == Ok(([], [ab]));
  }

  /** Operators of equal precedence group to the left:
      `a = 1 AND b = 2 AND c = 3` is `(a = 1 AND b = 2) AND c = 3`. */
  lemma AndGroupsToTheLeft()
    ensures HandleWhere(ThreeComparisons(And, And), 0)
            == Ok(Parsed(A.Logical(A.Logical(Eq("a", 1), A.And, Eq("b", 2)), A.And, Eq("c", 3)), 11))
  {
    var toks := ThreeComparisons(And, And);
    var a, b := Eq("a", 1), Eq("b", 2);
    AndAndFromSecondOperand();
    assert WhereLoop(toks, 3, [], [a]) == WhereLoop(toks, 7, [And], [a, b]) by {
      assert PrimaryCondition(toks, 4) == Ok(Parsed(b, 7));
      assert [a] + [b] == [a, b] && [] + [And] == [And];
    }
    assert PrimaryCondition(toks, 0) == Ok(Parsed(a, 3));
    assert [] + [a] == [a];
  }

  // ---------------------------------------------------------------------
  // INSERT

  /** The column name `name` read from the token at `at`: an identifier,
      followed by a comma exactly when more names follow. */
  predicate NameAt(toks: seq<Token>, at: int, name: string, last: bool) {
    0 <= at < |toks| && toks[at].tokenType == Identifier && name == toks[at].lexeme &&
    (Check(toks, at + 1, Comma) <==> !last)
  }

  /** The value `v` read from the token at `at`: a literal or an
      identifier, followed by a comma exactly when more values follow. */
  predicate ValueAt(toks: seq<Token>, at: int, v: A.Expression, last: bool) {
    0 <= at < |toks| && (toks[at].tokenType == Literal || toks[at].tokenType == Identifier) &&
    Ok(v) == ExpressionForInput(toks[at]) &&
    (Check(toks, at + 1, Comma) <==> !last)
  }

  /** The INSERT column list: the names already read, then the identifiers
      at `pos`, `pos + 2`, … in source order, separated by commas. */
  lemma {:induction false} ColumnNamesInOrder(toks: seq<Token>, pos: nat, acc: seq<string>)
    requires pos <= |toks|
    ensures ColumnNames(toks, pos, acc).Ok? ==>
              var names := ColumnNames(toks, pos, acc).value.value;
              ColumnNames(toks, pos, acc).value.pos == pos + 2 * (|names| - |acc|) - 1 &&
              names[..|acc|] == acc &&
              forall i :: |acc| <= i < |names| ==> NameAt(toks, pos + 2 * (i - |acc|), names[i], i == |names| - 1)
    decreases |toks| - pos
  {
    var r := ColumnNames(toks, pos, acc);
    if r.Ok? {
      var names := r.value.value;
      var more := acc + [toks[pos].lexeme];
      if Check(toks, pos + 1, Comma) {
        ColumnNamesInOrder(toks, pos + 2, more);
        assert names[..|more|] == more;
        assert names[..|acc|] == more[..|acc|];
        forall i | |acc| <= i < |names|
          ensures NameAt(toks, pos + 2 * (i - |acc|), names[i], i == |names| - 1)
        {
          if i > |acc| {
            assert pos + 2 * (i - |acc|) == pos + 2 + 2 * (i - |more|);
          } else {
            assert names[i] == more[i];
          }
        }
      } else {
        assert names == more;
      }
    }
  }

  /** The VALUES list: the expressions already read, then one expression
      per token at `pos`, `pos + 2`, … in source order, separated by
      commas. */
  lemma {:induction false} ExpressionListInOrder(toks: seq<Token>, pos: nat, acc: seq<A.Expression>)
    requires pos <= |toks|
    ensures ExpressionList(toks, pos, acc).Ok? ==>
              var values := ExpressionList(toks, pos, acc).value.value;
              ExpressionList(toks, pos, acc).value.pos == pos + 2 * (|values| - |acc|) - 1 &&
              values[..|acc|] == acc &&
              forall i :: |acc| <= i < |values| ==> ValueAt(toks, pos + 2 * (i - |acc|), values[i], i == |values| - 1)
    decreases |toks| - pos
  {
    var r := ExpressionList(toks, pos, acc);
    if r.Ok? {
      var values := r.value.value;
      var more := acc + [ParseExpression(toks, pos).value.value];
      if Check(toks, pos + 1, Comma) {
        ExpressionListInOrder(toks, pos + 2, more);
        assert values[..|more|] == more;
        assert values[..|acc|] == more[..|acc|];
        forall i | |acc| <= i < |values|
          ensures ValueAt(toks, pos + 2 * (i - |acc|), values[i], i == |values| - 1)
        {
          if i > |acc| {
            assert pos + 2 * (i - |acc|) == pos + 2 + 2 * (i - |more|);
          } else {
            assert values[i] == more[i];
          }
        }
      } else {
        assert values == more;
      }
    }
  }

  /** `INSERT INTO t (c1, …, cn) VALUES (v1, …, vm)`: the table, then the
      columns and the values, each in source order, and nothing after the
      closing parenthesis is read. */
  lemma InsertKeepsSourceOrder(toks: seq<Token>, pos: nat)
    requires pos <= |toks|
    ensures InsertStatement(toks, pos).Ok? ==>
              var s := InsertStatement(toks, pos).value.value;
              var valuesAt := pos + 2 * |s.columns| + 6;
              Check(toks, pos + 2, Identifier) && s.table == toks[pos + 2].lexeme &&
              (forall i :: 0 <= i < |s.columns| ==> NameAt(toks, pos + 4 + 2 * i, s.columns[i], i == |s.columns| - 1)) &&
              (forall j :: 0 <= j < |s.values| ==> ValueAt(toks, valuesAt + 2 * j, s.values[j], j == |s.values| - 1)) &&
              InsertStatement(toks, pos).value.pos == valuesAt + 2 * |s.values|
  {
    var r := InsertStatement(toks, pos);
    if r.Ok? {
      assert Keywords(toks, pos, [Insert, Into]) == Ok(pos + 2);
      assert Consume(toks, pos + 2, Identifier) == Ok(Parsed(toks[pos + 2], pos + 3));
      assert Consume(toks, pos + 3, OpenParen).Ok?;
      var columns := ColumnNames(toks, pos + 4, []);
      assert columns.Ok?;
      ColumnNamesInOrder(toks, pos + 4, []);
      var valuesAt := columns.value.pos + 3;
      assert valuesAt == pos + 2 * |columns.value.value| + 6;
      assert Keywords(toks, columns.value.pos, [CloseParen, Values, OpenParen]) == Ok(valuesAt);
      var values := ExpressionList(toks, valuesAt, []);
      assert values.Ok?;
      ExpressionListInOrder(toks, valuesAt, []);
      var st := r.value.value;
      assert r.value == Parsed(A.InsertStatement(toks[pos + 2].lexeme, columns.value.value, values.value.value), values.value.pos + 1);
      forall i | 0 <= i < |st.columns|
        ensures NameAt(toks, pos + 4 + 2 * i, st.columns[i], i == |st.columns| - 1)
      {
        assert st.columns[i] == columns.value.value[i];
        assert pos + 4 + 2 * (i - 0) == pos + 4 + 2 * i;
      }
      forall j | 0 <= j < |st.values|
        ensures ValueAt(toks, valuesAt + 2 * j, st.values[j], j == |st.values| - 1)
      {
        assert st.values[j] == values.value.value[j];
        assert valuesAt + 2 * (j - 0) == valuesAt + 2 * j;
      }
    }
  }

  // ---------------------------------------------------------------------
  // DROP

  /** `DROP [TABLE | SCHEMA] name`: the name is the identifier after DROP
      and the optional keyword; anything else there is an error. The
      TABLE-and-SCHEMA error is never produced. */
  lemma DropForms(toks: seq<Token>, pos: nat)
    requires pos <= |toks| && Check(toks, pos, Drop)
    ensures var at := if Check(toks, pos + 1, Table) || Check(toks, pos + 1, Schema) then pos + 2 else pos + 1;
            (DropStatement(toks, pos).Ok? <==> Check(toks, at, Identifier)) &&
            (DropStatement(toks, pos).Ok? ==> DropStatement(toks, pos).value == Parsed(A.DropStatement(toks[at].lexeme), at + 1))
    ensures DropStatement(toks, pos) != Err(TableAndSchema)
  {
  }
}
