/** What the parser's UPDATE and CREATE statements read, for every token
    list (src/parser_v2/parser.rs): the table each names, the SET
    assignments and the column definitions in source order, and when a
    WHERE clause is read. */
module SqlStatementFacts {
  import opened Wrappers
  import opened SqlTokens
  import A = SqlAst
  import opened SqlParseBase
  import opened SqlParse

  /** The optional WHERE at `at`: read exactly when WHERE is there, as the
      condition after it, ending at `end`; otherwise none, and the statement
      ends at `at`. */
  predicate WhereRead(toks: seq<Token>, at: nat, w: Option<A.WhereClause>, end: nat)
    requires at <= |toks|
  {
    (Check(toks, at, Where) ==>
       HandleWhere(toks, at + 1).Ok? && w == Some(A.WhereClause(HandleWhere(toks, at + 1).value.value)) &&
       end == HandleWhere(toks, at + 1).value.pos) &&
    (!Check(toks, at, Where) ==> w == None && end == at)
  }

  lemma OptionalWhereRead(toks: seq<Token>, at: nat)
    requires at <= |toks| && OptionalWhere(toks, at, None).Ok?
    ensures var w := OptionalWhere(toks, at, None).value;
            WhereRead(toks, at, w.value, w.pos)
  {
  }

  // ---------------------------------------------------------------------
  // UPDATE

  /** The assignment read from `column = value` at `at`, followed by a
      comma exactly when more assignments follow. */
  predicate AssignmentAt(toks: seq<Token>, at: int, a: A.Assignment, last: bool) {
    0 <= at && at + 2 < |toks| &&
    toks[at].tokenType == Identifier && a.column == toks[at].lexeme &&
    toks[at + 1].tokenType == EqualTo &&
    ParseExpression(toks, at + 2) == Ok(Parsed(a.value, at + 3)) &&
    (Check(toks, at + 3, Comma) <==> !last)
  }

  /** The assignments already read, then one per four tokens from `pos`
      on, in source order, separated by commas. */
  lemma {:induction false} AssignmentsInOrder(toks: seq<Token>, pos: nat, acc: seq<A.Assignment>)
    requires pos <= |toks|
    ensures Assignments(toks, pos, acc).Ok? ==>
              var a := Assignments(toks, pos, acc).value.value;
              Assignments(toks, pos, acc).value.pos == pos + 4 * (|a| - |acc|) - 1 &&
              a[..|acc|] == acc &&
              forall i :: |acc| <= i < |a| ==> AssignmentAt(toks, pos + 4 * (i - |acc|), a[i], i == |a| - 1)
    decreases |toks| - pos
  {
    var r := Assignments(toks, pos, acc);
    if r.Ok? {
      var a := r.value.value;
      var one := Assignment(toks, pos).value;
      var more := acc + [one.value];
      if Check(toks, pos + 3, Comma) {
        AssignmentsInOrder(toks, pos + 4, more);
        assert a[..|more|] == more;
        assert a[..|acc|] == more[..|acc|];
        forall i | |acc| <= i < |a|
          ensures AssignmentAt(toks, pos + 4 * (i - |acc|), a[i], i == |a| - 1)
        {
          if i > |acc| {
            assert pos + 4 * (i - |acc|) == pos + 4 + 4 * (i - |more|);
          } else {
            assert a[i] == more[i];
          }
        }
      } else {
        assert a == more;
      }
    }
  }

  /** `UPDATE t SET c1 = v1, …, cn = vn [WHERE cond]`: the table named by
      the identifier after UPDATE, the assignments in source order from
      `pos + 3`, and the WHERE clause exactly when WHERE follows them. */
  lemma UpdateReadsItsParts(toks: seq<Token>, pos: nat)
    requires pos <= |toks|
    ensures UpdateStatement(toks, pos).Ok? ==>
              var r := UpdateStatement(toks, pos).value;
              var u := r.value;
              var n := |u.assignments|;
              Check(toks, pos, Update) && Check(toks, pos + 1, Identifier) && u.table == toks[pos + 1].lexeme &&
              Check(toks, pos + 2, Set) && n > 0 &&
              (forall i :: 0 <= i < n ==> AssignmentAt(toks, pos + 3 + 4 * i, u.assignments[i], i == n - 1)) &&
              pos + 4 * n + 2 <= |toks| &&
              WhereRead(toks, pos + 4 * n + 2, u.whereClause, r.pos)
  {
    if UpdateStatement(toks, pos).Ok? {
      AssignmentsInOrder(toks, pos + 3, []);
      var a := Assignments(toks, pos + 3, []).value;
      var n := |a.value|;
      assert a.pos == pos + 4 * n + 2;
      forall i | 0 <= i < n
        ensures AssignmentAt(toks, pos + 3 + 4 * i, a.value[i], i == n - 1)
      {
        assert pos + 3 + 4 * (i - 0) == pos + 3 + 4 * i;
      }
      OptionalWhereRead(toks, a.pos);
    }
  }

  // ---------------------------------------------------------------------
  // CREATE

  /** `columns` are the definitions read from `at` on: each what
      `ColumnDefinition` reads at its place, separated by commas, the last
      ending at `end` with no comma after it. */
  predicate DefinitionsFrom(toks: seq<Token>, at: nat, columns: seq<A.ColumnDefinition>, end: nat)
    decreases |columns|
  {
    at <= |toks| && |columns| > 0 &&
    var d := ColumnDefinition(toks, at);
    d.Ok? && d.value.value == columns[0] &&
    if |columns| == 1 then end == d.value.pos && !Check(toks, end, Comma)
    else Check(toks, d.value.pos, Comma) && DefinitionsFrom(toks, d.value.pos + 1, columns[1..], end)
  }

  /** One round of the column loop, once its definition is read. */
  lemma DefinitionStep(toks: seq<Token>, at: nat, acc: seq<A.ColumnDefinition>)
    requires at <= |toks| && ColumnDefinition(toks, at).Ok?
    ensures var d := ColumnDefinition(toks, at).value;
            ColumnDefinitions(toks, at, acc)
            == if Check(toks, d.pos, Comma) then ColumnDefinitions(toks, d.pos + 1, acc + [d.value])
               else Ok(Parsed(acc + [d.value], d.pos))
  {
  }

  /** A definition with no comma after it is a whole list. */
  lemma DefinitionsFromOne(toks: seq<Token>, at: nat)
    requires at <= |toks| && ColumnDefinition(toks, at).Ok?
    requires !Check(toks, ColumnDefinition(toks, at).value.pos, Comma)
    ensures var d := ColumnDefinition(toks, at).value;
            DefinitionsFrom(toks, at, [d.value], d.pos)
  {
  }

  /** A definition, a comma and a list after it make a list. */
  lemma DefinitionsFromCons(toks: seq<Token>, at: nat, rest: seq<A.ColumnDefinition>, end: nat)
    requires at <= |toks| && ColumnDefinition(toks, at).Ok?
    requires Check(toks, ColumnDefinition(toks, at).value.pos, Comma)
    requires DefinitionsFrom(toks, ColumnDefinition(toks, at).value.pos + 1, rest, end)
    ensures DefinitionsFrom(toks, at, [ColumnDefinition(toks, at).value.value] + rest, end)
  {
    var cols := [ColumnDefinition(toks, at).value.value] + rest;
    assert cols[1..] == rest;
  }

  /** What the column loop reads is the definitions already read followed
      by comma-separated definitions in source order. */
  lemma {:induction false} ColumnDefinitionsRead(toks: seq<Token>, at: nat, acc: seq<A.ColumnDefinition>)
    requires at <= |toks|
    ensures var r := ColumnDefinitions(toks, at, acc);
            r.Ok? ==> |r.value.value| > |acc| && r.value.value[..|acc|] == acc &&
                      DefinitionsFrom(toks, at, r.value.value[|acc|..], r.value.pos)
    decreases |toks| - at
  {
    var r := ColumnDefinitions(toks, at, acc);
    if r.Ok? {
      var d := ColumnDefinition(toks, at).value;
      var more := acc + [d.value];
      var cols := r.value.value;
      DefinitionStep(toks, at, acc);
      if Check(toks, d.pos, Comma) {
        assert r == ColumnDefinitions(toks, d.pos + 1, more);
        ColumnDefinitionsRead(toks, d.pos + 1, more);
        assert cols[..|more|] == more;
        assert cols[..|acc|] == more[..|acc|];
        assert cols[|acc|..] == [d.value] + cols[|more|..];
        DefinitionsFromCons(toks, at, cols[|more|..], r.value.pos);
      } else {
        assert r == Ok(Parsed(more, d.pos));
        assert cols[|acc|..] == [d.value];
        DefinitionsFromOne(toks, at);
      }
    }
  }

  /** Past the first definition, the rest are read after its comma. */
  lemma DefinitionsFromTail(toks: seq<Token>, at: nat, columns: seq<A.ColumnDefinition>, end: nat)
    requires DefinitionsFrom(toks, at, columns, end) && |columns| > 1
    ensures var d := ColumnDefinition(toks, at).value;
            Check(toks, d.pos, Comma) && DefinitionsFrom(toks, d.pos + 1, columns[1..], end)
  {
  }

  /** Conversely, comma-separated definitions in source order are what the
      column loop reads, after whatever it had already read. */
  lemma {:induction false} DefinitionsParse(toks: seq<Token>, at: nat, acc: seq<A.ColumnDefinition>,
                                            columns: seq<A.ColumnDefinition>, end: nat)
    requires DefinitionsFrom(toks, at, columns, end)
    ensures ColumnDefinitions(toks, at, acc) == Ok(Parsed(acc + columns, end))
    decreases |columns|
  {
    var d := ColumnDefinition(toks, at).value;
    DefinitionStep(toks, at, acc);
    if |columns| == 1 {
      assert columns == [d.value];
    } else {
      var more := acc + [d.value];
      var rest := columns[1..];
      DefinitionsFromTail(toks, at, columns, end);
      DefinitionsParse(toks, d.pos + 1, more, rest, end);
      assert columns == [d.value] + rest;
      assert more + rest == acc + columns;
    }
  }

  /** `CREATE TABLE t (d1, …, dn)`: the table named by the identifier after
      TABLE, and the column definitions in source order from `pos + 4`, the
      statement ending after the `)` that follows them. */
  lemma CreateReadsItsParts(toks: seq<Token>, pos: nat)
    requires pos <= |toks|
    ensures CreateStatement(toks, pos).Ok? ==>
              var r := CreateStatement(toks, pos).value;
              Check(toks, pos, Create) && Check(toks, pos + 1, Table) &&
              Check(toks, pos + 2, Identifier) && r.value.table == toks[pos + 2].lexeme &&
              Check(toks, pos + 3, OpenParen) &&
              r.pos > 0 && DefinitionsFrom(toks, pos + 4, r.value.columns, r.pos - 1) &&
              Check(toks, r.pos - 1, CloseParen)
  {
    if CreateStatement(toks, pos).Ok? {
      ColumnDefinitionsRead(toks, pos + 4, []);
      var c := ColumnDefinitions(toks, pos + 4, []).value;
      var r := CreateStatement(toks, pos).value;
      assert r.value.columns == c.value && r.pos == c.pos + 1;
      assert c.value[0..] == c.value;
    }
  }

  /** Conversely, `CREATE TABLE t (` followed by comma-separated
      definitions and `)` is read as that table and those columns. */
  lemma CreateOfParts(toks: seq<Token>, pos: nat, columns: seq<A.ColumnDefinition>, end: nat)
    requires pos <= |toks| && Check(toks, pos, Create) && Check(toks, pos + 1, Table)
    requires Check(toks, pos + 2, Identifier) && Check(toks, pos + 3, OpenParen)
    requires DefinitionsFrom(toks, pos + 4, columns, end) && Check(toks, end, CloseParen)
    ensures CreateStatement(toks, pos) == Ok(Parsed(A.CreateStatement(toks[pos + 2].lexeme, columns), end + 1))
  {
    DefinitionsParse(toks, pos + 4, [], columns, end);
    assert [] + columns == columns;
  }
}
