/** What the older parser (src/parser/mod.rs) promises, proved about the
    parsing functions of `LegacyParse`: which statement the first token
    selects, how conditions group, the forms of a comparison, the order of
    the INSERT lists, the data types, DROP, and what the parser makes of the
    scanner's tokens. */
module LegacyParseFacts {
  import opened Wrappers
  import opened Ascii
  import opened LegacyTokens
  import opened LegacyNumbers
  import A = LegacyAst
  import Lex = LegacyLex
  import LexFacts = LegacyLexFacts
  import opened LegacyParse

  // ---------------------------------------------------------------------
  // Dispatch

  /** The first token decides the statement: the parse succeeds or fails
      exactly as that statement's parser does from the first token, and any
      other first token is "Unexpected statement type". */
  lemma DispatchesOnFirstToken(toks: seq<Token>)
    requires EofTerminated(toks)
    ensures var t := toks[0].tokenType;
            t != Select && t != Insert && t != Update && t != Delete && t != Create && t != Drop
            ==> Parse(toks) == Err("Unexpected statement type")
    ensures Parse(toks).Ok? ==>
              (Parse(toks).value.Select? <==> toks[0].tokenType == Select) &&
              (Parse(toks).value.Insert? <==> toks[0].tokenType == Insert) &&
              (Parse(toks).value.Update? <==> toks[0].tokenType == Update) &&
              (Parse(toks).value.Delete? <==> toks[0].tokenType == Delete) &&
              (Parse(toks).value.Create? <==> toks[0].tokenType == Create) &&
              (Parse(toks).value.Drop? <==> toks[0].tokenType == Drop)
    ensures toks[0].tokenType == Select ==>
              match SelectStatement(toks, 0)
              case Ok(s) => Parse(toks) == Ok(s.value)
              case Err(e) => Parse(toks) == Err(e)
    ensures toks[0].tokenType == Insert ==>
              match InsertStatement(toks, 0)
              case Ok(s) => Parse(toks) == Ok(s.value)
              case Err(e) => Parse(toks) == Err(e)
    ensures toks[0].tokenType == Update ==>
              match UpdateStatement(toks, 0)
              case Ok(s) => Parse(toks) == Ok(s.value)
              case Err(e) => Parse(toks) == Err(e)
    ensures toks[0].tokenType == Delete ==>
              match DeleteStatement(toks, 0)
              case Ok(s) => Parse(toks) == Ok(s.value)
              case Err(e) => Parse(toks) == Err(e)
    ensures toks[0].tokenType == Create ==>
              match CreateStatement(toks, 0)
              case Ok(s) => Parse(toks) == Ok(s.value)
              case Err(e) => Parse(toks) == Err(e)
    ensures toks[0].tokenType == Drop ==>
              match DropStatement(toks, 0)
              case Ok(s) => Parse(toks) == Ok(s.value)
              case Err(e) => Parse(toks) == Err(e)
  {
  }

  // ---------------------------------------------------------------------
  // Conditions

  /** `name` read as a condition on its own: `name = TRUE`. */
  function Bare(name: string): (r: A.Condition)
    ensures r.Comparison? && r.operator == A.Equal && r.left == A.Identifier(name)
  {
    A.Comparison(A.Equal, A.Identifier(name), A.Literal(A.Literal.Boolean(true)))
  }

  /** NOT applies to the primary condition after it, and what it yields
      is that condition negated. */
  lemma NotWrapsPrimary(toks: seq<Token>, pos: nat)
    requires Cursor(toks, pos) && Check(toks, pos, Not)
    ensures PrimaryCondition(toks, pos).Ok? <==> PrimaryCondition(toks, pos + 1).Ok?
    ensures PrimaryCondition(toks, pos).Ok? ==>
              PrimaryCondition(toks, pos).value
              == Parsed(A.Not(PrimaryCondition(toks, pos + 1).value.value), PrimaryCondition(toks, pos + 1).value.pos)
  {
  }

  /** `( cond )` is `cond`, and a group that is not closed is "Expected ')'". */
  lemma ParenthesesGroup(toks: seq<Token>, pos: nat)
    requires Cursor(toks, pos) && Check(toks, pos, LeftParen)
    ensures var inner := OrCondition(toks, pos + 1);
            inner.Ok? ==>
              if Check(toks, inner.value.pos, RightParen)
              then PrimaryCondition(toks, pos) == Ok(Parsed(inner.value.value, inner.value.pos + 1))
              else PrimaryCondition(toks, pos) == Err("Expected ')'")
    ensures OrCondition(toks, pos + 1).Err? ==> PrimaryCondition(toks, pos) == Err(OrCondition(toks, pos + 1).error)
  {
  }

  /** An identifier followed by no operator, no IS, no NULL and no NOT is
      the condition `identifier = TRUE`, and only the identifier is
      consumed. A NOT_EQUAL token after it is such a token. */
  lemma BareIdentifier(toks: seq<Token>, pos: nat)
    requires Cursor(toks, pos) && Check(toks, pos, Identifier)
    requires var n := toks[pos + 1].tokenType;
             n != Equal && n != GreaterOrEqual && n != LesserOrEqual && n != Lesser && n != Greater &&
             n != Null && n != Is && n != Not
    ensures ComparisonCondition(toks, pos) == Ok(Parsed(Bare(toks[pos].lexeme), pos + 1))
  {
  }

  /** `identifier op expression` for each of the five operators checked
      for, each giving its own comparison operator; the right-hand side
      must be an expression. */
  lemma OperatorComparison(toks: seq<Token>, pos: nat)
    requires Cursor(toks, pos) && Check(toks, pos, Identifier) && IsComparisonToken(toks, pos + 1)
    ensures ComparisonCondition(toks, pos).Ok? <==> Expression(toks, pos + 2).Ok?
    ensures Expression(toks, pos + 2).Err? ==> ComparisonCondition(toks, pos) == Err(Expression(toks, pos + 2).error)
    ensures ComparisonCondition(toks, pos).Ok? ==>
              var c := ComparisonCondition(toks, pos).value;
              var op := toks[pos + 1].tokenType;
              c.pos == pos + 3 && c.value.Comparison? &&
              c.value.left == A.Identifier(toks[pos].lexeme) && c.value.right == Expression(toks, pos + 2).value.value &&
              (op == Equal ==> c.value.operator == A.Equal) &&
              (op == GreaterOrEqual ==> c.value.operator == A.GreaterThanOrEqual) &&
              (op == LesserOrEqual ==> c.value.operator == A.LessThanOrEqual) &&
              (op == Lesser ==> c.value.operator == A.LessThan) &&
              (op == Greater ==> c.value.operator == A.GreaterThan)
  {
  }

  /** A comparison never has the NotEqual operator: NOT_EQUAL is not among
      the tokens the operator arm is entered for. */
  lemma NotEqualNeverProduced(toks: seq<Token>, pos: nat)
    requires Cursor(toks, pos)
    ensures ComparisonCondition(toks, pos).Ok? && ComparisonCondition(toks, pos).value.value.Comparison?
            ==> ComparisonCondition(toks, pos).value.value.operator != A.NotEqual
  {
    if Check(toks, pos, Identifier) && IsComparisonToken(toks, pos + 1) {
      assert ComparisonOf(toks[pos + 1].tokenType) != Some(A.NotEqual);
    }
  }

  /** `identifier IS NULL` and `identifier IS NOT NULL`; an IS followed by
      anything else, and a NULL or NOT straight after the identifier, is
      "unexpected token found". */
  lemma NullChecks(toks: seq<Token>, pos: nat)
    requires Cursor(toks, pos) && Check(toks, pos, Identifier) && !IsComparisonToken(toks, pos + 1)
    ensures Check(toks, pos + 1, Is) && Check(toks, pos + 2, Not) && Check(toks, pos + 3, Null) ==>
              ComparisonCondition(toks, pos) == Ok(Parsed(A.NullCheck(A.IsNotNull(toks[pos].lexeme)), pos + 4))
    ensures Check(toks, pos + 1, Is) && Check(toks, pos + 2, Null) ==>
              ComparisonCondition(toks, pos) == Ok(Parsed(A.NullCheck(A.IsNull(toks[pos].lexeme)), pos + 3))
    ensures Check(toks, pos + 1, Is) && Check(toks, pos + 2, Not) && !Check(toks, pos + 3, Null) ==>
              ComparisonCondition(toks, pos) == Err("unexpected token found")
    ensures Check(toks, pos + 1, Is) && !Check(toks, pos + 2, Not) && !Check(toks, pos + 2, Null) ==>
              ComparisonCondition(toks, pos) == Err("unexpected token found")
    ensures Check(toks, pos + 1, Null) || Check(toks, pos + 1, Not) ==>
              ComparisonCondition(toks, pos) == Err("unexpected token found")
  {
  }

  /** An identifier token. */
  function Id(name: string): (r: Token)
    ensures r.tokenType == Identifier && r.lexeme == name
  {
    Tok(Identifier, name)
  }

  const EofToken: Token := Token(Eof, "", None)

  /** `a <op1> b <op2> c` */
  function ThreeNames(op1: TokenType, op2: TokenType): seq<Token> {
    [Id("a"), Tok(op1, "op"), Id("b"), Tok(op2, "op"), Id("c"), EofToken]
  }

  /** AND binds more tightly than OR: `a OR b AND c` is `a OR (b AND c)`. */
  lemma AndBindsTighterThanOr()
    ensures OrCondition(ThreeNames(Or, And), 0)
            == Ok(Parsed(A.Logical(Bare("a"), A.Or, A.Logical(Bare("b"), A.And, Bare("c"))), 5))
  {
    var toks := ThreeNames(Or, And);
    var a, b, c := Bare("a"), Bare("b"), Bare("c");
    var bc := A.Logical(b, A.And, c);
    assert PrimaryCondition(toks, 0) == Ok(Parsed(a, 1));
    assert AndChain(toks, 1, a) == Ok(Parsed(a, 1));
    assert PrimaryCondition(toks, 2) == Ok(Parsed(b, 3));
    assert PrimaryCondition(toks, 4) == Ok(Parsed(c, 5));
    assert AndChain(toks, 5, bc) == Ok(Parsed(bc, 5));
    assert AndChain(toks, 3, b) == Ok(Parsed(bc, 5));
    assert AndCondition(toks, 2) == Ok(Parsed(bc, 5));
    assert OrChain(toks, 5, A.Logical(a, A.Or, bc)) == Ok(Parsed(A.Logical(a, A.Or, bc), 5));
  }

  /** OR after AND closes the AND: `a AND b OR c` is `(a AND b) OR c`. */
  lemma OrAfterAnd()
    ensures OrCondition(ThreeNames(And, Or), 0)
            == Ok(Parsed(A.Logical(A.Logical(Bare("a"), A.And, Bare("b")), A.Or, Bare("c")), 5))
  {
    var toks := ThreeNames(And, Or);
    var a, b, c := Bare("a"), Bare("b"), Bare("c");
    var ab := A.Logical(a, A.And, b);
    assert PrimaryCondition(toks, 0) == Ok(Parsed(a, 1));
    assert PrimaryCondition(toks, 2) == Ok(Parsed(b, 3));
    assert AndChain(toks, 3, ab) == Ok(Parsed(ab, 3));
    assert AndChain(toks, 1, a) == Ok(Parsed(ab, 3));
    assert AndCondition(toks, 0) == Ok(Parsed(ab, 3));
    assert PrimaryCondition(toks, 4) == Ok(Parsed(c, 5));
    assert AndChain(toks, 5, c) == Ok(Parsed(c, 5));
    assert AndCondition(toks, 4) == Ok(Parsed(c, 5));
    assert OrChain(toks, 5, A.Logical(ab, A.Or, c)) == Ok(Parsed(A.Logical(ab, A.Or, c), 5));
  }

  /** Conditions of one operator group to the left: `a AND b AND c` is
      `(a AND b) AND c`. */
  lemma AndGroupsToTheLeft()
    ensures OrCondition(ThreeNames(And, And), 0)
            == Ok(Parsed(A.Logical(A.Logical(Bare("a"), A.And, Bare("b")), A.And, Bare("c")), 5))
  {
    var toks := ThreeNames(And, And);
    var a, b, c := Bare("a"), Bare("b"), Bare("c");
    var ab := A.Logical(a, A.And, b);
    var abc := A.Logical(ab, A.And, c);
    assert PrimaryCondition(toks, 0) == Ok(Parsed(a, 1));
    assert PrimaryCondition(toks, 2) == Ok(Parsed(b, 3));
    assert PrimaryCondition(toks, 4) == Ok(Parsed(c, 5));
    assert AndChain(toks, 5, abc) == Ok(Parsed(abc, 5));
    assert AndChain(toks, 3, ab) == Ok(Parsed(abc, 5));
    assert AndChain(toks, 1, a) == Ok(Parsed(abc, 5));
    assert AndCondition(toks, 0) == Ok(Parsed(abc, 5));
    assert OrChain(toks, 5, abc) == Ok(Parsed(abc, 5));
  }

  /** The tokens of `NOT (a OR b) AND c`. */
  function NotGroupAnd(): seq<Token> {
    [Tok(Not, "NOT"), Tok(LeftParen, "("), Id("a"), Tok(Or, "OR"), Id("b"), Tok(RightParen, ")"),
     Tok(And, "AND"), Id("c"), EofToken]
  }

  /** `NOT (a OR b) AND c`: NOT takes the whole group, and the AND comes
      after it. */
  lemma NotTakesTheGroup()
    ensures OrCondition(NotGroupAnd(), 0)
            == Ok(Parsed(A.Logical(A.Not(A.Logical(Bare("a"), A.Or, Bare("b"))), A.And, Bare("c")), 8))
  {
    var toks := NotGroupAnd();
    var a, b, c := Bare("a"), Bare("b"), Bare("c");
    var ab := A.Logical(a, A.Or, b);
    var n := A.Logical(A.Not(ab), A.And, c);
    NegatedGroup();
    assert PrimaryCondition(toks, 7) == Ok(Parsed(c, 8));
    assert AndChain(toks, 8, n) == Ok(Parsed(n, 8));
    assert AndChain(toks, 6, A.Not(ab)) == Ok(Parsed(n, 8));
    assert AndCondition(toks, 0) == Ok(Parsed(n, 8));
    assert OrChain(toks, 8, n) == Ok(Parsed(n, 8));
  }

  lemma NegatedGroup()
    ensures PrimaryCondition(NotGroupAnd(), 0) == Ok(Parsed(A.Not(A.Logical(Bare("a"), A.Or, Bare("b"))), 6))
  {
    var toks := NotGroupAnd();
    ClosedGroup();
    assert Check(toks, 0, Not);
  }

  lemma ClosedGroup()
    ensures PrimaryCondition(NotGroupAnd(), 1) == Ok(Parsed(A.Logical(Bare("a"), A.Or, Bare("b")), 6))
  {
    var toks := NotGroupAnd();
    InnerGroup();
    assert !Check(toks, 1, Not) && Check(toks, 1, LeftParen);
    assert Consume(toks, 5, RightParen, "Expected ')'") == Ok(Parsed(toks[5], 6));
  }

  lemma InnerGroup()
    ensures OrCondition(NotGroupAnd(), 2) == Ok(Parsed(A.Logical(Bare("a"), A.Or, Bare("b")), 5))
  {
    var toks := NotGroupAnd();
    var a, b := Bare("a"), Bare("b");
    assert PrimaryCondition(toks, 2) == Ok(Parsed(a, 3));
    assert AndChain(toks, 3, a) == Ok(Parsed(a, 3));
    assert AndCondition(toks, 2) == Ok(Parsed(a, 3));
    assert PrimaryCondition(toks, 4) == Ok(Parsed(b, 5));
    assert AndChain(toks, 5, b) == Ok(Parsed(b, 5));
    assert AndCondition(toks, 4) == Ok(Parsed(b, 5));
    assert OrChain(toks, 5, A.Logical(a, A.Or, b)) == Ok(Parsed(A.Logical(a, A.Or, b), 5));
  }

  /** `(a` with no closing parenthesis. */
  lemma UnclosedGroup()
    ensures PrimaryCondition([Tok(LeftParen, "("), Id("a"), EofToken], 0) == Err("Expected ')'")
  {
    var toks := [Tok(LeftParen, "("), Id("a"), EofToken];
    assert PrimaryCondition(toks, 1) == Ok(Parsed(Bare("a"), 2));
    assert AndChain(toks, 2, Bare("a")) == Ok(Parsed(Bare("a"), 2));
    assert AndCondition(toks, 1) == Ok(Parsed(Bare("a"), 2));
    assert OrChain(toks, 2, Bare("a")) == Ok(Parsed(Bare("a"), 2));
  }

  // ---------------------------------------------------------------------
  // What the parser makes of scanned tokens

  /** On the scanner's tokens a comparison is only ever `=`, `<` or `>`:
      the scanner produces no GREATER_OR_EQUAL, LESSER_OR_EQUAL or
      NOT_EQUAL token, and an expression is never a string literal, since
      the scanner produces no STRING token. */
  lemma ScannedComparisons(src: string, pos: nat)
    requires Lex.ScanTokens(src).Ok? && pos < |Lex.ScanTokens(src).value|
    ensures var toks := Lex.ScanTokens(src).value;
            var r := ComparisonCondition(toks, pos);
            r.Ok? && r.value.value.Comparison? ==>
              r.value.value.operator == A.Equal || r.value.value.operator == A.LessThan || r.value.value.operator == A.GreaterThan
    ensures var toks := Lex.ScanTokens(src).value;
            Expression(toks, pos).Ok? ==> !Expression(toks, pos).value.value.Literal? || !Expression(toks, pos).value.value.literal.String?
  {
    var toks := Lex.ScanTokens(src).value;
    var spans := LexFacts.ScannedTokens(src);
    assert toks[|toks| - 1].tokenType == Eof;
    if pos < |toks| - 1 {
      assert toks[pos] == toks[..|toks| - 1][pos];
      assert !Lex.NeverScanned(toks[pos].tokenType);
    }
    if pos + 1 < |toks| - 1 {
      assert toks[pos + 1] == toks[..|toks| - 1][pos + 1];
      assert !Lex.NeverScanned(toks[pos + 1].tokenType);
    }
  }

  /** The tokens the scanner makes of `a != 1`. */
  function NotEqualTokens(): seq<Token> {
    [Id("a"), Tok(Equal, "="), Token(Number, "1", Some(NumberValue("1"))), EofToken]
  }

  /** `a != 1` from the source text: the `!` is passed over, so the
      condition read is `a = 1`. */
  lemma NotEqualComparesEqual()
    ensures Lex.ScanTokens("a != 1") == Ok(NotEqualTokens())
    ensures ComparisonCondition(NotEqualTokens(), 0)
            == Ok(Parsed(A.Comparison(A.Equal, A.Identifier("a"), A.Literal(A.Number("1"))), 3))
  {
    LexFacts.NotEqualReadsAsEqual();
    EqualComparison();
  }

  lemma EqualComparison()
    ensures ComparisonCondition(NotEqualTokens(), 0)
            == Ok(Parsed(A.Comparison(A.Equal, A.Identifier("a"), A.Literal(A.Number("1"))), 3))
  {
    var toks := NotEqualTokens();
    ScannedNumberIsFloat("1", "");
    assert Expression(toks, 2) == Ok(Parsed(A.Literal(A.Number("1")), 3));
    assert IsComparisonToken(toks, 1) && ComparisonOf(toks[1].tokenType) == Some(A.Equal);
  }

  /** `a >= 1` as the scanner delivers it, GREATER then EQUAL: the `=` is
      where an expression should be. */
  lemma GreaterEqualFails()
    ensures ComparisonCondition([Id("a"), Tok(Greater, ">"), Tok(Equal, "="), Token(Number, "1", Some(NumberValue("1"))), EofToken], 0)
            == Err("Expected expression")
  {
  }

  // ---------------------------------------------------------------------
  // INSERT

  /** The column name `name` read from the token at `at`: an identifier,
      followed by a comma exactly when more names follow. */
  predicate NameAt(toks: seq<Token>, at: int, name: string, last: bool) {
    0 <= at && at + 1 < |toks| && toks[at].tokenType == Identifier && name == toks[at].lexeme &&
    (Check(toks, at + 1, Comma) <==> !last)
  }

  /** The value `v` read from the token at `at`, followed by a comma exactly
      when more values follow. */
  predicate ValueAt(toks: seq<Token>, at: int, v: A.Expression, last: bool) {
    0 <= at && at + 1 < |toks| && EofTerminated(toks) && Expression(toks, at) == Ok(Parsed(v, at + 1)) &&
    (Check(toks, at + 1, Comma) <==> !last)
  }

  /** The column names already read, then the identifiers at `pos`,
      `pos + 2`, … in source order, separated by commas. */
  lemma {:induction false} ColumnNamesInOrder(toks: seq<Token>, pos: nat, acc: seq<string>)
    requires Cursor(toks, pos)
    ensures ColumnNames(toks, pos, acc).Ok? ==>
              var names := ColumnNames(toks, pos, acc).value.value;
              ColumnNames(toks, pos, acc).value.pos == pos + 2 * (|names| - |acc|) - 1 &&
              names[..|acc|] == acc &&
              forall i :: |acc| <= i < |names| ==> NameAt(toks, pos + 2 * (i - |acc|), names[i], i == |names| - 1)
    decreases |toks| - pos
  {
    var r := ColumnNames(toks, pos, acc);
    if r.Ok? {
      var names := r.value.value;
      var more := acc + [toks[pos].lexeme];
      if Check(toks, pos + 1, Comma) {
        ColumnNamesInOrder(toks, pos + 2, more);
        assert names[..|more|] == more;
        assert names[..|acc|] == more[..|acc|];
        forall i | |acc| <= i < |names|
          ensures NameAt(toks, pos + 2 * (i - |acc|), names[i], i == |names| - 1)
        {
          if i > |acc| {
            assert pos + 2 * (i - |acc|) == pos + 2 + 2 * (i - |more|);
          } else {
            assert names[i] == more[i];
          }
        }
      } else {
        assert names == more;
      }
    }
  }

  /** The values already read, then one expression per token at `pos`,
      `pos + 2`, … in source order, separated by commas. */
  lemma {:induction false} ExpressionListInOrder(toks: seq<Token>, pos: nat, acc: seq<A.Expression>)
    requires Cursor(toks, pos)
    ensures ExpressionList(toks, pos, acc).Ok? ==>
              var values := ExpressionList(toks, pos, acc).value.value;
              ExpressionList(toks, pos, acc).value.pos == pos + 2 * (|values| - |acc|) - 1 &&
              values[..|acc|] == acc &&
              forall i :: |acc| <= i < |values| ==> ValueAt(toks, pos + 2 * (i - |acc|), values[i], i == |values| - 1)
    decreases |toks| - pos
  {
    var r := ExpressionList(toks, pos, acc);
    if r.Ok? {
      var values := r.value.value;
      var more := acc + [Expression(toks, pos).value.value];
      if Check(toks, pos + 1, Comma) {
        ExpressionListInOrder(toks, pos + 2, more);
        assert values[..|more|] == more;
        assert values[..|acc|] == more[..|acc|];
        forall i | |acc| <= i < |values|
          ensures ValueAt(toks, pos + 2 * (i - |acc|), values[i], i == |values| - 1)
        {
          if i > |acc| {
            assert pos + 2 * (i - |acc|) == pos + 2 + 2 * (i - |more|);
          } else {
            assert values[i] == more[i];
          }
        }
      } else {
        assert values == more;
      }
    }
  }

  /** The INSERT column list read after the table name at `pos + 2`:
      present exactly when a `(` follows, and then the names at `pos + 4`,
      `pos + 6`, … in source order. */
  predicate ColumnsRead(toks: seq<Token>, pos: nat, columns: seq<string>) {
    pos + 3 < |toks| &&
    (|columns| > 0 <==> Check(toks, pos + 3, LeftParen)) &&
    forall i :: 0 <= i < |columns| ==> NameAt(toks, pos + 4 + 2 * i, columns[i], i == |columns| - 1)
  }

  /** Where the value list starts, after `n` column names. */
  function ValuesStart(pos: nat, n: nat): (r: nat)
    ensures r >= pos + 5
  {
    if n > 0 then pos + 2 * n + 6 else pos + 5
  }

  /** At least one value, the values at `at`, `at + 2`, … in source order,
      and the statement ending at `end`, after the closing parenthesis. */
  predicate ValuesRead(toks: seq<Token>, at: nat, values: seq<A.Expression>, end: nat) {
    |values| > 0 &&
    (forall j :: 0 <= j < |values| ==> ValueAt(toks, at + 2 * j, values[j], j == |values| - 1)) &&
    end == at + 2 * |values|
  }

  /** `INSERT INTO t [(c1, …, cn)] VALUES (v1, …, vm)`: the table, then the
      columns, present exactly when a `(` follows the table name, and the
      values, each in source order; nothing after the closing parenthesis
      is read. */
  lemma InsertKeepsSourceOrder(toks: seq<Token>, pos: nat)
    requires Cursor(toks, pos)
    ensures InsertStatement(toks, pos).Ok? ==>
              InsertStatement(toks, pos).value.value.Insert? &&
              var s := InsertStatement(toks, pos).value.value.insert;
              Check(toks, pos + 2, Identifier) && s.table == toks[pos + 2].lexeme &&
              ColumnsRead(toks, pos, s.columns) &&
              ValuesRead(toks, ValuesStart(pos, |s.columns|), s.values, InsertStatement(toks, pos).value.pos)
  {
    if InsertStatement(toks, pos).Ok? {
      var columns, valuesAt := InsertParts(toks, pos);
      if Check(toks, pos + 3, LeftParen) {
        ColumnListRead(toks, pos);
      }
      ValueListRead(toks, valuesAt);
    }
  }

  lemma ColumnListRead(toks: seq<Token>, pos: nat)
    requires Cursor(toks, pos + 4) && Check(toks, pos + 3, LeftParen) && ColumnNames(toks, pos + 4, []).Ok?
    ensures var c := ColumnNames(toks, pos + 4, []).value;
            ColumnsRead(toks, pos, c.value) && c.pos + 3 == ValuesStart(pos, |c.value|)
  {
    var c := ColumnNames(toks, pos + 4, []).value;
    ColumnNamesInOrder(toks, pos + 4, []);
    forall i | 0 <= i < |c.value|
      ensures NameAt(toks, pos + 4 + 2 * i, c.value[i], i == |c.value| - 1)
    {
      assert pos + 4 + 2 * (i - 0) == pos + 4 + 2 * i;
    }
  }

  lemma ValueListRead(toks: seq<Token>, at: nat)
    requires Cursor(toks, at) && ExpressionList(toks, at, []).Ok?
    ensures var v := ExpressionList(toks, at, []).value;
            ValuesRead(toks, at, v.value, v.pos + 1)
  {
    var v := ExpressionList(toks, at, []).value;
    ExpressionListInOrder(toks, at, []);
    forall j | 0 <= j < |v.value|
      ensures ValueAt(toks, at + 2 * j, v.value[j], j == |v.value| - 1)
    {
      assert at + 2 * (j - 0) == at + 2 * j;
    }
  }

  /** The pieces `insert_statement` puts together: the table, the column
      list when there is one, and the value list starting at `valuesAt`. */
  lemma InsertParts(toks: seq<Token>, pos: nat) returns (columns: seq<string>, valuesAt: nat)
    requires Cursor(toks, pos) && InsertStatement(toks, pos).Ok?
    ensures Check(toks, pos + 2, Identifier) && valuesAt < |toks|
    ensures Check(toks, pos + 3, LeftParen) ==>
              ColumnNames(toks, pos + 4, []).Ok? && columns == ColumnNames(toks, pos + 4, []).value.value &&
              valuesAt == ColumnNames(toks, pos + 4, []).value.pos + 3
    ensures !Check(toks, pos + 3, LeftParen) ==> columns == [] && valuesAt == pos + 5
    ensures ExpressionList(toks, valuesAt, []).Ok?
    ensures var values := ExpressionList(toks, valuesAt, []).value;
            InsertStatement(toks, pos).value
            == Parsed(A.Insert(A.InsertStatement(toks[pos + 2].lexeme, columns, values.value)), values.pos + 1)
  {
    assert Check(toks, pos, Insert) && Check(toks, pos + 1, Into) && Check(toks, pos + 2, Identifier);
    var cl := if Check(toks, pos + 3, LeftParen) then ColumnList(toks, pos + 4) else Ok(Parsed([], pos + 3));
    assert cl.Ok?;
    var at := cl.value.pos;
    assert Check(toks, at, Values) && Check(toks, at + 1, LeftParen);
    columns := cl.value.value;
    valuesAt := at + 2;
    if Check(toks, pos + 3, LeftParen) {
      var c := ColumnNames(toks, pos + 4, []);
      assert c.Ok? && cl.value == Parsed(c.value.value, c.value.pos + 1);
    }
    var values := ExpressionList(toks, valuesAt, []);
    assert values.Ok? && Check(toks, values.value.pos, RightParen);
  }

  /** The tokens of `INSERT INTO users (name, age) VALUES ('John Doe', 30)`,
      written out one by one. Each has the form the scanner lemmas `Word`,
      `QuotedString` and `WholeNumber` give its piece of the text (the quoted
      string is an IDENTIFIER whose lexeme keeps its quotes); the scan of the
      whole text is not proved here. */
  function InsertUsers(): (r: seq<Token>)
    ensures |r| == 15 && forall i :: 0 <= i < 15 ==> r[i] == InsertUsersAt(i)
  {
    seq(15, InsertUsersAt)
  }

  function InsertUsersAt(i: int): Token {
    if i == 0 then Tok(Insert, "INSERT") else if i == 1 then Tok(Into, "INTO")
    else if i == 2 then Id("users") else if i == 3 then Tok(LeftParen, "(")
    else if i == 4 then Id("name") else if i == 5 then Tok(Comma, ",")
    else if i == 6 then Id("age") else if i == 7 then Tok(RightParen, ")")
    else if i == 8 then Tok(Values, "VALUES") else if i == 9 then Tok(LeftParen, "(")
    else if i == 10 then Token(Identifier, "'John Doe'", Some(StringValue("'John Doe'")))
    else if i == 11 then Tok(Comma, ",")
    else if i == 12 then Token(Number, "30", Some(NumberValue("30")))
    else if i == 13 then Tok(RightParen, ")") else EofToken
  }

  /** The INSERT example: table `users`, columns `name` and `age`, two
      values; the string value is read as an identifier, quotes and all. */
  lemma InsertExample()
    ensures Parse(InsertUsers())
            == Ok(A.Insert(A.InsertStatement("users", ["name", "age"],
                                              [A.Identifier("'John Doe'"), A.Literal(A.Number("30"))])))
  {
    var toks := InsertUsers();
    var st := A.InsertStatement("users", ["name", "age"], [A.Identifier("'John Doe'"), A.Literal(A.Number("30"))]);
    InsertExampleStatement();
    assert toks[0].tokenType == Insert;
    assert Parse(toks) == Ok(A.Insert(st));
  }

  lemma InsertExampleStatement()
    ensures EofTerminated(InsertUsers())
    ensures InsertStatement(InsertUsers(), 0)
            == Ok(Parsed(A.Insert(A.InsertStatement("users", ["name", "age"],
                                                     [A.Identifier("'John Doe'"), A.Literal(A.Number("30"))])), 14))
  {
    var toks := InsertUsers();
    assert toks[14] == EofToken;
    InsertExampleColumns();
    InsertExampleValues();
    assert Consume(toks, 0, Insert, "Expect INSERT") == Ok(Parsed(toks[0], 1));
    assert Consume(toks, 1, Into, "Expect INTO after INSERT") == Ok(Parsed(toks[1], 2));
    assert Consume(toks, 2, Identifier, "Expect table name") == Ok(Parsed(toks[2], 3));
    assert Check(toks, 3, LeftParen);
    assert Consume(toks, 8, Values, "Expect VALUES") == Ok(Parsed(toks[8], 9));
    assert Consume(toks, 9, LeftParen, "Expect ( after VALUES") == Ok(Parsed(toks[9], 10));
    assert Consume(toks, 13, RightParen, "Expect ) after values") == Ok(Parsed(toks[13], 14));
  }

  lemma InsertExampleColumns()
    ensures EofTerminated(InsertUsers())
    ensures ColumnList(InsertUsers(), 4) == Ok(Parsed(["name", "age"], 8))
  {
    var toks := InsertUsers();
    assert toks[14] == EofToken;
    assert toks[6] == Id("age") && toks[7].tokenType == RightParen;
    assert ["name"] + ["age"] == ["name", "age"];
    assert ColumnNames(toks, 6, ["name"]) == Ok(Parsed(["name", "age"], 7));
    assert toks[4] == Id("name") && toks[5].tokenType == Comma;
    assert [] + ["name"] == ["name"];
    assert ColumnNames(toks, 4, []) == Ok(Parsed(["name", "age"], 7));
  }

  lemma InsertExampleValues()
    ensures EofTerminated(InsertUsers())
    ensures ExpressionList(InsertUsers(), 10, [])
            == Ok(Parsed([A.Identifier("'John Doe'"), A.Literal(A.Number("30"))], 13))
  {
    var toks := InsertUsers();
    var john := A.Identifier("'John Doe'");
    var thirty := A.Literal(A.Number("30"));
    assert toks[14] == EofToken;
    ThirtyIsNumber();
    assert toks[12] == Token(Number, "30", Some(NumberValue("30"))) && toks[13].tokenType == RightParen;
    assert Expression(toks, 12) == Ok(Parsed(thirty, 13));
    assert [john] + [thirty] == [john, thirty];
    assert ExpressionList(toks, 12, [john]) == Ok(Parsed([john, thirty], 13));
    assert toks[10].tokenType == Identifier && toks[11].tokenType == Comma;
    assert [] + [john] == [john];
  }

  lemma ThirtyIsNumber()
    ensures IsFloatText("30")
  {
    assert AllDigits("30");
    ScannedNumberIsFloat("30", "");
  }

  /** Without a column list the columns are empty. */
  lemma InsertWithoutColumns()
    ensures var toks := [Tok(Insert, "INSERT"), Tok(Into, "INTO"), Id("t"), Tok(Values, "VALUES"), Tok(LeftParen, "("),
                         Id("x"), Tok(RightParen, ")"), EofToken];
            InsertStatement(toks, 0) == Ok(Parsed(A.Insert(A.InsertStatement("t", [], [A.Identifier("x")])), 7))
  {
    var toks := [Tok(Insert, "INSERT"), Tok(Into, "INTO"), Id("t"), Tok(Values, "VALUES"), Tok(LeftParen, "("),
                 Id("x"), Tok(RightParen, ")"), EofToken];
    assert ExpressionList(toks, 5, []) == Ok(Parsed([A.Identifier("x")], 6));
  }

  // ---------------------------------------------------------------------
  // Data types

  /** A type name is read in any case: INTEGER, FLOAT and BOOLEAN, VARCHAR
      without a size when no `(` follows, and any other name is "Unsupported
      data type" with the upper-cased name. */
  lemma DataTypeNames(toks: seq<Token>, pos: nat)
    requires Cursor(toks, pos)
    ensures !Check(toks, pos, Identifier) ==> DataType(toks, pos) == Err("Expect data type")
    ensures Check(toks, pos, Identifier) ==>
              var name := ToUpper(toks[pos].lexeme);
              (name == "INTEGER" ==> DataType(toks, pos) == Ok(Parsed(A.Integer, pos + 1))) &&
              (name == "FLOAT" ==> DataType(toks, pos) == Ok(Parsed(A.Float, pos + 1))) &&
              (name == "BOOLEAN" ==> DataType(toks, pos) == Ok(Parsed(A.DataType.Boolean, pos + 1))) &&
              (name == "VARCHAR" && !Check(toks, pos + 1, LeftParen) ==> DataType(toks, pos) == Ok(Parsed(A.Varchar(None), pos + 1))) &&
              (name != "INTEGER" && name != "FLOAT" && name != "VARCHAR" && name != "BOOLEAN" ==>
                 DataType(toks, pos) == Err("Unsupported data type: " + name))
  {
  }

  /** `VARCHAR(n)` for any `usize` n written in decimal: the size is read
      back as n. */
  lemma VarcharSize(toks: seq<Token>, pos: nat, n: nat)
    requires Cursor(toks, pos) && Check(toks, pos, Identifier) && ToUpper(toks[pos].lexeme) == "VARCHAR"
    requires Check(toks, pos + 1, LeftParen) && Check(toks, pos + 2, Number) && toks[pos + 2].lexeme == DecimalText(n)
    requires n < UsizeLimit
    ensures Check(toks, pos + 3, RightParen) ==> DataType(toks, pos) == Ok(Parsed(A.Varchar(Some(n)), pos + 4))
    ensures !Check(toks, pos + 3, RightParen) ==> DataType(toks, pos) == Err("Expect ) after VARCHAR size")
  {
    var name := ToUpper(toks[pos].lexeme);
    assert name != "INTEGER" by { assert name[0] != "INTEGER"[0]; }
    assert name != "FLOAT" && name != "BOOLEAN";
    UsizeRoundTrip(n);
    assert ParseUsize(toks[pos + 2].lexeme) == Some(n);
  }

  /** A size of 2^64 or more does not fit a `usize`. */
  lemma VarcharTooLarge(toks: seq<Token>, pos: nat)
    requires Cursor(toks, pos) && Check(toks, pos, Identifier) && ToUpper(toks[pos].lexeme) == "VARCHAR"
    requires Check(toks, pos + 1, LeftParen) && Check(toks, pos + 2, Number) && toks[pos + 2].lexeme == DecimalText(UsizeLimit)
    ensures DataType(toks, pos) == Err("Invalid VARCHAR size")
  {
    UsizeOverflows();
  }

  // ---------------------------------------------------------------------
  // CREATE

  /** The tokens of `name VARCHAR(100) NOT NULL`, a column of the CREATE
      example. */
  function VarcharColumn(): seq<Token> {
    [Id("name"), Id("VARCHAR"), Tok(LeftParen, "("), Token(Number, "100", Some(NumberValue("100"))),
     Tok(RightParen, ")"), Tok(Not, "NOT"), Tok(Null, "NULL"), EofToken]
  }

  /** `name VARCHAR(100) NOT NULL`: the name, the sized type and the one
      constraint. */
  lemma ColumnDefinitionExample()
    ensures ColumnDefinition(VarcharColumn(), 0)
            == Ok(Parsed(A.ColumnDefinition("name", A.Varchar(Some(100)), [A.NotNull]), 7))
  {
    var toks := VarcharColumn();
    VarcharColumnType();
    VarcharColumnConstraints();
    assert Consume(toks, 0, Identifier, "Expect column name") == Ok(Parsed(toks[0], 1));
  }

  /** `NOT NULL` in that column is its one constraint. */
  lemma VarcharColumnConstraints()
    ensures Constraints(VarcharColumn(), 5, []) == Ok(Parsed([A.NotNull], 7))
  {
    var toks := VarcharColumn();
    assert ConstraintAt(toks, 5) == Ok(Parsed(A.NotNull, 7));
    assert Constraints(toks, 7, [A.NotNull]) == Ok(Parsed([A.NotNull], 7));
    assert [] + [A.NotNull] == [A.NotNull];
  }

  /** `VARCHAR(100)` in that column is the sized VARCHAR type. */
  lemma VarcharColumnType()
    ensures DataType(VarcharColumn(), 1) == Ok(Parsed(A.Varchar(Some(100)), 5))
  {
    TypeNamesUpper();
    HundredText();
    VarcharSize(VarcharColumn(), 1, 100);
  }

  lemma TypeNamesUpper()
    ensures ToUpper("VARCHAR") == "VARCHAR"
  {
    UpperUnchanged("VARCHAR");
  }

  /** Text with no lower-case letter is its own upper case. */
  lemma UpperUnchanged(s: string)
    requires forall i :: 0 <= i < |s| ==> 'A' <= s[i] <= 'Z'
    ensures ToUpper(s) == s
  {
    assert forall i :: 0 <= i < |s| ==> ToUpper(s)[i] == s[i];
  }

  lemma HundredText()
    ensures DecimalText(100) == "100"
  {
    assert DecimalText(10) == "10";
  }

  // ---------------------------------------------------------------------
  // DROP

  /** `DROP TABLE name`: the name is the identifier after TABLE; the
      statement ends after it. */
  lemma DropForms(toks: seq<Token>, pos: nat)
    requires Cursor(toks, pos) && Check(toks, pos, Drop)
    ensures DropStatement(toks, pos).Ok? <==> Check(toks, pos + 1, Table) && Check(toks, pos + 2, Identifier)
    ensures DropStatement(toks, pos).Ok? ==>
              DropStatement(toks, pos).value == Parsed(A.Drop(A.DropStatement(toks[pos + 2].lexeme)), pos + 3)
    ensures !Check(toks, pos + 1, Table) ==> DropStatement(toks, pos) == Err("Expect TABLE after DROP")
  {
  }

  /** The DROP example: `DROP TABLE old_users`. */
  lemma DropExample()
    ensures Parse([Tok(Drop, "DROP"), Tok(Table, "TABLE"), Id("old_users"), EofToken])
            == Ok(A.Drop(A.DropStatement("old_users")))
  {
  }
}
