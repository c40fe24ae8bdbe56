/** What the older parser's SELECT, UPDATE, DELETE and CREATE statements
    read, for every token list (src/parser/mod.rs:43-166): the SELECT list,
    the SET assignments and the column definitions in source order, the
    table each statement names, and when a WHERE clause is read. Also the
    value each kind of token gives as an expression (mod.rs:319-336). */
module LegacyStatementFacts {
  import opened Wrappers
  import opened LegacyTokens
  import opened LegacyNumbers
  import A = LegacyAst
  import opened LegacyParse

  // ---------------------------------------------------------------------
  // Expressions

  /** The text an expression was read from. */
  function ExpressionText(e: A.Expression): string {
    match e
    case Identifier(name) => name
    case Literal(String(text)) => text
    case Literal(Number(digits)) => digits
    case Literal(Boolean(b)) => if b then "true" else "false"
  }

  /** `expression` reads exactly one token, and which value it gives is
      decided by the token's kind: an IDENTIFIER is a column reference, a
      STRING a string literal, a NUMBER that `f64::from_str` accepts a number
      literal; a NUMBER it rejects is "Invalid number", any other token
      "Expected expression". Conversely the value gives back the token's
      kind and text, and it is never a boolean literal. */
  lemma ExpressionByTokenKind(toks: seq<Token>, pos: nat)
    requires Cursor(toks, pos)
    ensures var r := Expression(toks, pos);
            var t := toks[pos];
            (Check(toks, pos, Identifier) ==> r == Ok(Parsed(A.Identifier(t.lexeme), pos + 1))) &&
            (Check(toks, pos, String) ==> r == Ok(Parsed(A.Literal(A.String(t.lexeme)), pos + 1))) &&
            (Check(toks, pos, Number) && IsFloatText(t.lexeme) ==> r == Ok(Parsed(A.Literal(A.Number(t.lexeme)), pos + 1))) &&
            (Check(toks, pos, Number) && !IsFloatText(t.lexeme) ==> r == Err("Invalid number")) &&
            (!Check(toks, pos, Identifier) && !Check(toks, pos, String) && !Check(toks, pos, Number) ==>
               r == Err("Expected expression"))
    ensures var r := Expression(toks, pos);
            r.Ok? ==>
              ExpressionText(r.value.value) == toks[pos].lexeme &&
              !(r.value.value.Literal? && r.value.value.literal.Boolean?) &&
              (r.value.value.Identifier? <==> toks[pos].tokenType == Identifier) &&
              (r.value.value.Literal? && r.value.value.literal.String? <==> toks[pos].tokenType == String)
  {
  }

  // ---------------------------------------------------------------------
  // WHERE

  /** The optional WHERE at `at`: read exactly when WHERE is there, and
      then the OR-condition after it, ending at `end`; otherwise none, and
      the statement ends at `at`. */
  predicate WhereRead(toks: seq<Token>, at: nat, w: Option<A.WhereClause>, end: nat) {
    Cursor(toks, at) &&
    (Check(toks, at, Where) ==> w.Some? && WhereClause(toks, at + 1) == Ok(Parsed(w.value, end))) &&
    (!Check(toks, at, Where) ==> w == None && end == at)
  }

  lemma OptionalWhereRead(toks: seq<Token>, at: nat)
    requires Cursor(toks, at) && OptionalWhere(toks, at).Ok?
    ensures var w := OptionalWhere(toks, at).value;
            WhereRead(toks, at, w.value, w.pos)
  {
  }

  // ---------------------------------------------------------------------
  // SELECT

  /** The SELECT item read from the token at `at`: `*`, always the last
      item, or a name followed by a comma exactly when more items follow. */
  predicate SelectItemAt(toks: seq<Token>, at: int, c: A.SelectColumn, last: bool) {
    0 <= at && at + 1 < |toks| &&
    if c.All? then toks[at].tokenType == Star && last
    else toks[at].tokenType == Identifier && c.name == toks[at].lexeme && (Check(toks, at + 1, Comma) <==> !last)
  }

  /** The items already read, then one item per token at `pos`, `pos + 2`,
      … in source order, separated by commas. */
  lemma {:induction false} SelectColumnsInOrder(toks: seq<Token>, pos: nat, acc: seq<A.SelectColumn>)
    requires Cursor(toks, pos)
    ensures SelectColumns(toks, pos, acc).Ok? ==>
              var cols := SelectColumns(toks, pos, acc).value.value;
              SelectColumns(toks, pos, acc).value.pos == pos + 2 * (|cols| - |acc|) - 1 &&
              cols[..|acc|] == acc &&
              forall i :: |acc| <= i < |cols| ==> SelectItemAt(toks, pos + 2 * (i - |acc|), cols[i], i == |cols| - 1)
    decreases |toks| - pos
  {
    var r := SelectColumns(toks, pos, acc);
    if r.Ok? {
      var cols := r.value.value;
      if Check(toks, pos, Star) {
        assert cols == acc + [A.All];
      } else {
        var columns := acc + [A.Column(toks[pos].lexeme)];
        if Check(toks, pos + 1, Comma) {
          SelectColumnsInOrder(toks, pos + 2, columns);
          assert cols[..|columns|] == columns;
          assert cols[..|acc|] == columns[..|acc|];
          forall i | |acc| <= i < |cols|
            ensures SelectItemAt(toks, pos + 2 * (i - |acc|), cols[i], i == |cols| - 1)
          {
            if i > |acc| {
              assert pos + 2 * (i - |acc|) == pos + 2 + 2 * (i - |columns|);
            } else {
              assert cols[i] == columns[i];
            }
          }
        } else {
          assert cols == columns;
        }
      }
    }
  }

  /** `SELECT c1, …, cn FROM t [WHERE cond]`: the items at `pos + 1`,
      `pos + 3`, … in source order, the table named by the identifier after
      FROM, and the WHERE clause exactly when WHERE follows the table. */
  lemma SelectReadsItsParts(toks: seq<Token>, pos: nat)
    requires Cursor(toks, pos)
    ensures SelectStatement(toks, pos).Ok? ==>
              var r := SelectStatement(toks, pos).value;
              r.value.Select? && Check(toks, pos, Select) &&
              var s := r.value.select;
              var n := |s.columns|;
              n > 0 &&
              (forall i :: 0 <= i < n ==> SelectItemAt(toks, pos + 1 + 2 * i, s.columns[i], i == n - 1)) &&
              pos + 2 * n + 2 < |toks| &&
              Check(toks, pos + 2 * n, From) && Check(toks, pos + 2 * n + 1, Identifier) &&
              s.from == Some(toks[pos + 2 * n + 1].lexeme) &&
              WhereRead(toks, pos + 2 * n + 2, s.whereClause, r.pos)
  {
    if SelectStatement(toks, pos).Ok? {
      SelectColumnsInOrder(toks, pos + 1, []);
      var c := SelectColumns(toks, pos + 1, []).value;
      var n := |c.value|;
      assert c.pos == pos + 2 * n;
      forall i | 0 <= i < n
        ensures SelectItemAt(toks, pos + 1 + 2 * i, c.value[i], i == n - 1)
      {
        assert pos + 1 + 2 * (i - 0) == pos + 1 + 2 * i;
      }
      OptionalWhereRead(toks, c.pos + 2);
    }
  }

  // ---------------------------------------------------------------------
  // UPDATE

  /** The assignment read from `column = value` at `at`, followed by a
      comma exactly when more assignments follow. */
  predicate AssignmentAt(toks: seq<Token>, at: int, a: A.Assignment, last: bool) {
    0 <= at && at + 3 < |toks| && EofTerminated(toks) &&
    toks[at].tokenType == Identifier && a.column == toks[at].lexeme &&
    toks[at + 1].tokenType == Equal &&
    Expression(toks, at + 2) == Ok(Parsed(a.value, at + 3)) &&
    (Check(toks, at + 3, Comma) <==> !last)
  }

  /** The assignments already read, then one per four tokens from `pos`
      on, in source order, separated by commas. */
  lemma {:induction false} AssignmentsInOrder(toks: seq<Token>, pos: nat, acc: seq<A.Assignment>)
    requires Cursor(toks, pos)
    ensures Assignments(toks, pos, acc).Ok? ==>
              var a := Assignments(toks, pos, acc).value.value;
              Assignments(toks, pos, acc).value.pos == pos + 4 * (|a| - |acc|) - 1 &&
              a[..|acc|] == acc &&
              forall i :: |acc| <= i < |a| ==> AssignmentAt(toks, pos + 4 * (i - |acc|), a[i], i == |a| - 1)
    decreases |toks| - pos
  {
    var r := Assignments(toks, pos, acc);
    if r.Ok? {
      var a := r.value.value;
      var more := acc + [A.Assignment(toks[pos].lexeme, Expression(toks, pos + 2).value.value)];
      if Check(toks, pos + 3, Comma) {
        AssignmentsInOrder(toks, pos + 4, more);
        assert a[..|more|] == more;
        assert a[..|acc|] == more[..|acc|];
        forall i | |acc| <= i < |a|
          ensures AssignmentAt(toks, pos + 4 * (i - |acc|), a[i], i == |a| - 1)
        {
          if i > |acc| {
            assert pos + 4 * (i - |acc|) == pos + 4 + 4 * (i - |more|);
          } else {
            assert a[i] == more[i];
          }
        }
      } else {
        assert a == more;
      }
    }
  }

  /** `UPDATE t SET c1 = v1, …, cn = vn [WHERE cond]`: the table named by
      the identifier after UPDATE, the assignments in source order from
      `pos + 3`, and the WHERE clause exactly when WHERE follows them. */
  lemma UpdateReadsItsParts(toks: seq<Token>, pos: nat)
    requires Cursor(toks, pos)
    ensures UpdateStatement(toks, pos).Ok? ==>
              var r := UpdateStatement(toks, pos).value;
              r.value.Update? && Check(toks, pos, Update) &&
              var u := r.value.update;
              var n := |u.assignments|;
              Check(toks, pos + 1, Identifier) && u.table == toks[pos + 1].lexeme && Check(toks, pos + 2, Set) &&
              n > 0 &&
              (forall i :: 0 <= i < n ==> AssignmentAt(toks, pos + 3 + 4 * i, u.assignments[i], i == n - 1)) &&
              WhereRead(toks, pos + 4 * n + 2, u.whereClause, r.pos)
  {
    if UpdateStatement(toks, pos).Ok? {
      AssignmentsInOrder(toks, pos + 3, []);
      var a := Assignments(toks, pos + 3, []).value;
      var n := |a.value|;
      assert a.pos == pos + 4 * n + 2;
      forall i | 0 <= i < n
        ensures AssignmentAt(toks, pos + 3 + 4 * i, a.value[i], i == n - 1)
      {
        assert pos + 3 + 4 * (i - 0) == pos + 3 + 4 * i;
      }
      OptionalWhereRead(toks, a.pos);
    }
  }

  // ---------------------------------------------------------------------
  // DELETE

  /** `DELETE FROM t [WHERE cond]` succeeds exactly when DELETE, FROM and
      an identifier come first and any WHERE after them is followed by a
      condition; the table is that identifier, and the WHERE clause is read
      exactly when WHERE follows it. */
  lemma DeleteForms(toks: seq<Token>, pos: nat)
    requires Cursor(toks, pos)
    ensures DeleteStatement(toks, pos).Ok? <==>
              Check(toks, pos, Delete) && Check(toks, pos + 1, From) && Check(toks, pos + 2, Identifier) &&
              (Check(toks, pos + 3, Where) ==> WhereClause(toks, pos + 4).Ok?)
    ensures DeleteStatement(toks, pos).Ok? ==>
              var r := DeleteStatement(toks, pos).value;
              r.value.Delete? && r.value.delete.table == toks[pos + 2].lexeme &&
              WhereRead(toks, pos + 3, r.value.delete.whereClause, r.pos)
  {
  }

  // ---------------------------------------------------------------------
  // CREATE

  /** `columns` are the definitions read from `at` on: each what
      `ColumnDefinition` reads at its place, separated by commas, the last
      ending at `end` with no comma after it. */
  predicate DefinitionsFrom(toks: seq<Token>, at: nat, columns: seq<A.ColumnDefinition>, end: nat)
    decreases |columns|
  {
    Cursor(toks, at) && |columns| > 0 &&
    var d := ColumnDefinition(toks, at);
    d.Ok? && d.value.value == columns[0] &&
    if |columns| == 1 then end == d.value.pos && !Check(toks, end, Comma)
    else Check(toks, d.value.pos, Comma) && DefinitionsFrom(toks, d.value.pos + 1, columns[1..], end)
  }

  /** What the column loop reads is the definitions already read followed
      by comma-separated definitions in source order. */
  lemma {:induction false} ColumnDefinitionsRead(toks: seq<Token>, at: nat, acc: seq<A.ColumnDefinition>)
    requires Cursor(toks, at)
    ensures var r := ColumnDefinitions(toks, at, acc);
            r.Ok? ==> r.value.value[..|acc|] == acc && DefinitionsFrom(toks, at, r.value.value[|acc|..], r.value.pos)
    decreases |toks| - at
  {
    var r := ColumnDefinitions(toks, at, acc);
    if r.Ok? {
      var d := ColumnDefinition(toks, at).value;
      var more := acc + [d.value];
      var cols := r.value.value;
      DefinitionStep(toks, at, acc);
      if Check(toks, d.pos, Comma) {
        ColumnDefinitionsRead(toks, d.pos + 1, more);
        assert cols[..|more|] == more;
        assert cols[..|acc|] == more[..|acc|];
        assert cols[|acc|..] == [d.value] + cols[|more|..];
        DefinitionsFromCons(toks, at, cols[|more|..], r.value.pos);
      } else {
        assert cols == more;
        assert cols[|acc|..] == [d.value];
        DefinitionsFromOne(toks, at);
      }
    }
  }

  /** A definition with no comma after it is a whole list. */
  lemma DefinitionsFromOne(toks: seq<Token>, at: nat)
    requires Cursor(toks, at) && ColumnDefinition(toks, at).Ok?
    requires !Check(toks, ColumnDefinition(toks, at).value.pos, Comma)
    ensures var d := ColumnDefinition(toks, at).value;
            DefinitionsFrom(toks, at, [d.value], d.pos)
  {
  }

  /** A definition, a comma and a list after it make a list. */
  lemma DefinitionsFromCons(toks: seq<Token>, at: nat, rest: seq<A.ColumnDefinition>, end: nat)
    requires Cursor(toks, at) && ColumnDefinition(toks, at).Ok?
    requires Check(toks, ColumnDefinition(toks, at).value.pos, Comma)
    requires DefinitionsFrom(toks, ColumnDefinition(toks, at).value.pos + 1, rest, end)
    ensures DefinitionsFrom(toks, at, [ColumnDefinition(toks, at).value.value] + rest, end)
  {
    var cols := [ColumnDefinition(toks, at).value.value] + rest;
    assert cols[1..] == rest;
  }

  /** One round of the column loop, once its definition is read. */
  lemma DefinitionStep(toks: seq<Token>, at: nat, acc: seq<A.ColumnDefinition>)
    requires Cursor(toks, at) && ColumnDefinition(toks, at).Ok?
    ensures var d := ColumnDefinition(toks, at).value;
            ColumnDefinitions(toks, at, acc)
            == if Check(toks, d.pos, Comma) then ColumnDefinitions(toks, d.pos + 1, acc + [d.value])
               else Ok(Parsed(acc + [d.value], d.pos))
  {
  }

  /** One round of the column loop, given the definition it reads. */
  lemma DefinitionStepAt(toks: seq<Token>, at: nat, acc: seq<A.ColumnDefinition>, c: A.ColumnDefinition, next: nat)
    requires Cursor(toks, at) && ColumnDefinition(toks, at) == Ok(Parsed(c, next))
    ensures Check(toks, next, Comma) ==> ColumnDefinitions(toks, at, acc) == ColumnDefinitions(toks, next + 1, acc + [c])
    ensures !Check(toks, next, Comma) ==> ColumnDefinitions(toks, at, acc) == Ok(Parsed(acc + [c], next))
  {
    DefinitionStep(toks, at, acc);
  }

  /** `CREATE TABLE t (d1, …, dn)`: the table named by the identifier after
      TABLE, and the column definitions in source order from `pos + 4`, the
      statement ending after the `)` that follows them. */
  lemma CreateReadsItsParts(toks: seq<Token>, pos: nat)
    requires Cursor(toks, pos)
    ensures CreateStatement(toks, pos).Ok? ==>
              var r := CreateStatement(toks, pos).value;
              r.value.Create? && Check(toks, pos, Create) && Check(toks, pos + 1, Table) &&
              Check(toks, pos + 2, Identifier) && r.value.create.table == toks[pos + 2].lexeme &&
              Check(toks, pos + 3, LeftParen) &&
              r.pos > 0 && DefinitionsFrom(toks, pos + 4, r.value.create.columns, r.pos - 1) &&
              Check(toks, r.pos - 1, RightParen)
  {
    if CreateStatement(toks, pos).Ok? {
      ColumnDefinitionsRead(toks, pos + 4, []);
      var c := ColumnDefinitions(toks, pos + 4, []).value;
      var r := CreateStatement(toks, pos).value;
      assert r.value.create.columns == c.value && r.pos == c.pos + 1;
      assert c.value[0..] == c.value;
    }
  }
}
