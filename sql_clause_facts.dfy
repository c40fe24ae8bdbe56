/** What the newer parser (src/parser_v2/parser.rs) reads in the clauses
    that follow a statement's table, for every token list: the ORDER BY
    items in source order, the WHERE and ORDER BY clauses of SELECT, the
    WHERE clause of DELETE, and the values of an IN list. */
module SqlClauseFacts {
  import opened Wrappers
  import opened SqlTokens
  import A = SqlAst
  import opened SqlParseBase
  import opened SqlParse
  import opened SqlStatementFacts

  // ---------------------------------------------------------------------
  // ORDER BY

  /** `items` are the ORDER BY items read from `at` on: each what
      `OrderByItem` reads at its place, separated by commas, the last ending
      at `end` with no comma after it. */
  predicate ItemsFrom(toks: seq<Token>, at: nat, items: seq<A.OrderByClause>, end: nat)
    decreases |items|
  {
    |items| > 0 &&
    var d := OrderByItem(toks, at);
    d.Ok? && d.value.value == items[0] &&
    if |items| == 1 then end == d.value.pos && !Check(toks, end, Comma)
    else Check(toks, d.value.pos, Comma) && ItemsFrom(toks, d.value.pos + 1, items[1..], end)
  }

  /** One round of the ORDER BY loop, once its item is read. */
  lemma ItemStep(toks: seq<Token>, at: nat, acc: seq<A.OrderByClause>)
    requires at <= |toks| && OrderByItem(toks, at).Ok?
    ensures var d := OrderByItem(toks, at).value;
            OrderByItems(toks, at, acc)
            == if Check(toks, d.pos, Comma) then OrderByItems(toks, d.pos + 1, acc + [d.value])
               else Ok(Parsed(acc + [d.value], d.pos))
  {
  }

  /** The ORDER BY loop keeps the items already read, then reads
      comma-separated items in source order, each a column with its
      direction, ending after the last. */
  lemma {:induction false} OrderByItemsInOrder(toks: seq<Token>, at: nat, acc: seq<A.OrderByClause>)
    requires at <= |toks|
    ensures var r := OrderByItems(toks, at, acc);
            r.Ok? ==> |r.value.value| > |acc| && r.value.value[..|acc|] == acc &&
                      ItemsFrom(toks, at, r.value.value[|acc|..], r.value.pos)
    decreases |toks| - at
  {
    var r := OrderByItems(toks, at, acc);
    if r.Ok? {
      var d := OrderByItem(toks, at).value;
      var more := acc + [d.value];
      var items := r.value.value;
      ItemStep(toks, at, acc);
      if Check(toks, d.pos, Comma) {
        OrderByItemsInOrder(toks, d.pos + 1, more);
        assert items[..|more|] == more;
        assert items[..|acc|] == more[..|acc|];
        var rest := items[|more|..];
        assert items[|acc|..] == [d.value] + rest;
        assert ([d.value] + rest)[1..] == rest;
      } else {
        assert items == more;
        assert items[|acc|..] == [d.value];
      }
    }
  }

  /** Conversely, comma-separated items in source order are what the
      ORDER BY loop reads, after whatever it had already read. */
  lemma {:induction false} ItemsParse(toks: seq<Token>, at: nat, acc: seq<A.OrderByClause>,
                                      items: seq<A.OrderByClause>, end: nat)
    requires at <= |toks| && ItemsFrom(toks, at, items, end)
    ensures OrderByItems(toks, at, acc) == Ok(Parsed(acc + items, end))
    decreases |items|
  {
    var d := OrderByItem(toks, at).value;
    ItemStep(toks, at, acc);
    if |items| == 1 {
      assert items == [d.value];
    } else {
      var more := acc + [d.value];
      var rest := items[1..];
      ItemsParse(toks, d.pos + 1, more, rest, end);
      assert items == [d.value] + rest;
      assert more + rest == acc + items;
    }
  }

  // ---------------------------------------------------------------------
  // SELECT: the clauses after the table

  /** A round of the tail loop that finds neither WHERE nor ORDER BY, or
      the end of the tokens, ends the loop with the clauses read so far. */
  lemma SelectTailStops(toks: seq<Token>, at: nat, w: Option<A.WhereClause>, o: Option<seq<A.OrderByClause>>)
    requires at <= |toks| && !Check(toks, at, Where) && !Check(toks, at, OrderBy)
    ensures SelectTail(toks, at, w, o) == Ok(Parsed((w, o), at))
  {
  }

  /** A WHERE clause at `at` is the condition after it; the tail then ends
      at the end of the tokens, or reads the ORDER BY items that follow and
      ends after them when neither WHERE nor ORDER BY comes next. */
  lemma SelectTailWhere(toks: seq<Token>, at: nat, w: Option<A.WhereClause>, o: Option<seq<A.OrderByClause>>)
    requires at <= |toks| && Check(toks, at, Where) && HandleWhere(toks, at + 1).Ok?
    ensures var c := HandleWhere(toks, at + 1).value;
            var clause := Some(A.WhereClause(c.value));
            (c.pos == |toks| ==> SelectTail(toks, at, w, o) == Ok(Parsed((clause, o), c.pos))) &&
            (Check(toks, c.pos, OrderBy) && OrderByItems(toks, c.pos + 1, []).Ok? ==>
               var items := OrderByItems(toks, c.pos + 1, []).value;
               !Check(toks, items.pos, Where) && !Check(toks, items.pos, OrderBy) ==>
                 SelectTail(toks, at, w, o) == Ok(Parsed((clause, Some(items.value)), items.pos)))
  {
    var c := HandleWhere(toks, at + 1).value;
    var clause := Some(A.WhereClause(c.value));
    assert OptionalWhere(toks, at, w) == Ok(Parsed(clause, c.pos));
    if c.pos == |toks| {
      assert OptionalOrderBy(toks, c.pos, o) == Ok(Parsed(o, c.pos));
    }
    if Check(toks, c.pos, OrderBy) && OrderByItems(toks, c.pos + 1, []).Ok? {
      var items := OrderByItems(toks, c.pos + 1, []).value;
      assert OptionalOrderBy(toks, c.pos, o) == Ok(Parsed(Some(items.value), items.pos));
      if !Check(toks, items.pos, Where) && !Check(toks, items.pos, OrderBy) {
        SelectTailStops(toks, items.pos, clause, Some(items.value));
      }
    }
  }

  /** An ORDER BY clause at `at` with no WHERE before it gives the items
      after it and keeps the WHERE clause read so far; the tail ends after
      them when neither WHERE nor ORDER BY comes next. */
  lemma SelectTailOrderBy(toks: seq<Token>, at: nat, w: Option<A.WhereClause>, o: Option<seq<A.OrderByClause>>)
    requires at <= |toks| && Check(toks, at, OrderBy) && OrderByItems(toks, at + 1, []).Ok?
    ensures var items := OrderByItems(toks, at + 1, []).value;
            !Check(toks, items.pos, Where) && !Check(toks, items.pos, OrderBy) ==>
              SelectTail(toks, at, w, o) == Ok(Parsed((w, Some(items.value)), items.pos))
  {
    var items := OrderByItems(toks, at + 1, []).value;
    assert OptionalWhere(toks, at, w) == Ok(Parsed(w, at));
    assert OptionalOrderBy(toks, at, o) == Ok(Parsed(Some(items.value), items.pos));
    if !Check(toks, items.pos, Where) && !Check(toks, items.pos, OrderBy) {
      SelectTailStops(toks, items.pos, w, Some(items.value));
    }
  }

  /** A successful SELECT takes its WHERE and ORDER BY clauses from the
      tail loop started right after the table with neither clause, and ends
      where that loop ends. */
  lemma SelectClausesFromTail(toks: seq<Token>, pos: nat)
    requires pos <= |toks| && SelectStatement(toks, pos).Ok?
    ensures var c := SelectColumns(toks, pos + 1, []).value;
            var s := SelectStatement(toks, pos).value;
            c.pos + 2 <= |toks| && SelectTail(toks, c.pos + 2, None, None).Ok? &&
            SelectTail(toks, c.pos + 2, None, None).value
              == Parsed((s.value.whereClause, s.value.orderBy), s.pos)
  {
  }

  /** `SELECT … FROM t` followed by neither WHERE nor ORDER BY has neither
      clause and ends right after the table. */
  lemma SelectWithoutClauses(toks: seq<Token>, pos: nat)
    requires pos <= |toks| && SelectStatement(toks, pos).Ok?
    requires var t := SelectColumns(toks, pos + 1, []).value.pos + 2;
             !Check(toks, t, Where) && !Check(toks, t, OrderBy)
    ensures var s := SelectStatement(toks, pos).value;
            s.value.whereClause == None && s.value.orderBy == None &&
            s.pos == SelectColumns(toks, pos + 1, []).value.pos + 2
  {
    SelectClausesFromTail(toks, pos);
    var t := SelectColumns(toks, pos + 1, []).value.pos + 2;
    SelectTailStops(toks, t, None, None);
  }

  /** `SELECT … FROM t WHERE c [ORDER BY items]`, with neither WHERE nor
      ORDER BY after the items: the WHERE clause is the condition after
      WHERE, and the ORDER BY clause is the items when ORDER BY follows the
      condition, none when the condition runs to the end. */
  lemma SelectWithWhere(toks: seq<Token>, pos: nat)
    requires pos <= |toks| && SelectStatement(toks, pos).Ok?
    requires Check(toks, SelectColumns(toks, pos + 1, []).value.pos + 2, Where)
    ensures var t := SelectColumns(toks, pos + 1, []).value.pos + 2;
            var s := SelectStatement(toks, pos).value.value;
            HandleWhere(toks, t + 1).Ok? &&
            var c := HandleWhere(toks, t + 1).value;
            (c.pos == |toks| ==> s.whereClause == Some(A.WhereClause(c.value)) && s.orderBy == None) &&
            (c.pos < |toks| ==> Check(toks, c.pos, OrderBy) && OrderByItems(toks, c.pos + 1, []).Ok?) &&
            (c.pos < |toks| && OrderByItemsEnd(toks, c.pos + 1) ==>
               s.whereClause == Some(A.WhereClause(c.value)) &&
               s.orderBy == Some(OrderByItems(toks, c.pos + 1, []).value.value))
  {
    SelectClausesFromTail(toks, pos);
    var t := SelectColumns(toks, pos + 1, []).value.pos + 2;
    var tail := SelectTail(toks, t, None, None);
    assert tail.Ok?;
    assert OptionalWhere(toks, t, None).Ok?;
    var c := HandleWhere(toks, t + 1).value;
    assert OptionalWhere(toks, t, None).value == Parsed(Some(A.WhereClause(c.value)), c.pos);
    SelectTailWhere(toks, t, None, None);
    if c.pos < |toks| {
      assert Check(toks, c.pos, OrderBy);
      assert OptionalOrderBy(toks, c.pos, None).Ok?;
      if OrderByItemsEnd(toks, c.pos + 1) {
        var items := OrderByItems(toks, c.pos + 1, []).value;
        assert tail == Ok(Parsed((Some(A.WhereClause(c.value)), Some(items.value)), items.pos));
      }
    }
  }

  /** The ORDER BY list after `at` reads, and neither WHERE nor ORDER BY
      comes after it. */
  predicate OrderByItemsEnd(toks: seq<Token>, at: nat) {
    at <= |toks| && OrderByItems(toks, at, []).Ok? &&
    !Check(toks, OrderByItems(toks, at, []).value.pos, Where) &&
    !Check(toks, OrderByItems(toks, at, []).value.pos, OrderBy)
  }

  /** `SELECT … FROM t ORDER BY items`, with neither WHERE nor ORDER BY
      after the items: no WHERE clause, and the ORDER BY clause is the
      items. */
  lemma SelectWithOrderBy(toks: seq<Token>, pos: nat)
    requires pos <= |toks| && SelectStatement(toks, pos).Ok?
    requires Check(toks, SelectColumns(toks, pos + 1, []).value.pos + 2, OrderBy)
    ensures var t := SelectColumns(toks, pos + 1, []).value.pos + 2;
            var s := SelectStatement(toks, pos).value.value;
            OrderByItems(toks, t + 1, []).Ok? &&
            var items := OrderByItems(toks, t + 1, []).value;
            !Check(toks, items.pos, Where) && !Check(toks, items.pos, OrderBy) ==>
              s.whereClause == None && s.orderBy == Some(items.value)
  {
    SelectClausesFromTail(toks, pos);
    var t := SelectColumns(toks, pos + 1, []).value.pos + 2;
    assert OptionalWhere(toks, t, None) == Ok(Parsed(None, t));
    assert OptionalOrderBy(toks, t, None).Ok?;
    SelectTailOrderBy(toks, t, None, None);
  }

  // ---------------------------------------------------------------------
  // DELETE

  /** `DELETE FROM t [WHERE cond]` succeeds exactly when DELETE, FROM and
      an identifier come first and a WHERE after them has a condition; it
      names the table after FROM and has a WHERE clause exactly when WHERE
      follows the table, as the condition after it. */
  lemma DeleteReadsItsParts(toks: seq<Token>, pos: nat)
    requires pos <= |toks|
    ensures DeleteStatement(toks, pos).Ok? <==>
              Check(toks, pos, Delete) && Check(toks, pos + 1, From) && Check(toks, pos + 2, Identifier) &&
              OptionalWhere(toks, pos + 3, None).Ok?
    ensures DeleteStatement(toks, pos).Ok? ==>
              var r := DeleteStatement(toks, pos).value;
              r.value.table == toks[pos + 2].lexeme &&
              WhereRead(toks, pos + 3, r.value.whereClause, r.pos)
  {
    if DeleteStatement(toks, pos).Ok? {
      OptionalWhereRead(toks, pos + 3);
    }
  }

  // ---------------------------------------------------------------------
  // IN lists

  /** The values an IN list of `kind` items names, in source order: one
      per token of that type, read as `parse_expression` reads it; commas
      are skipped. The first other token, or a literal with no value, is an
      error. */
  function ListValues(ts: seq<Token>, kind: TokenType): (r: Result<seq<A.Expression>, ParseError>)
    ensures r.Ok? ==> |r.value| <= |ts|
  {
    if ts == [] then Ok([])
    else if ts[0].tokenType == kind then
      var e :- ExpressionForInput(ts[0]);
      var rest :- ListValues(ts[1..], kind);
      Ok([e] + rest)
    else if ts[0].tokenType == Comma then ListValues(ts[1..], kind)
    else Err(MixedInputList)
  }

  /** Every token in `toks[from..to]` is an item of `kind` or a comma. */
  predicate ItemsOrCommas(toks: seq<Token>, from: nat, to: nat, kind: TokenType)
    requires from <= to <= |toks|
  {
    forall j :: from <= j < to ==> toks[j].tokenType == kind || toks[j].tokenType == Comma
  }

  /** The IN loop keeps the values already read; it ends just after the
      first `)`, every token before it being an item of `kind` or a comma,
      and the values it adds are exactly those the items name, in source
      order. */
  lemma {:induction false} InListReads(toks: seq<Token>, at: nat, kind: TokenType, acc: seq<A.Expression>)
    requires at <= |toks| && (kind == Identifier || kind == Literal)
    ensures var r := InList(toks, at, kind, acc);
            r.Ok? ==> at < r.value.pos && Check(toks, r.value.pos - 1, CloseParen) &&
                      ItemsOrCommas(toks, at, r.value.pos - 1, kind) &&
                      |r.value.value| >= |acc| && r.value.value[..|acc|] == acc &&
                      ListValues(toks[at..r.value.pos - 1], kind) == Ok(r.value.value[|acc|..])
    decreases |toks| - at
  {
    var r := InList(toks, at, kind, acc);
    if r.Ok? {
      var end := r.value.pos;
      var vs := r.value.value;
      if Check(toks, at, kind) {
        var e := ParseExpression(toks, at).value;
        var more := acc + [e.value];
        InListReads(toks, at + 1, kind, more);
        assert vs[..|more|] == more;
        assert vs[..|acc|] == more[..|acc|];
        assert toks[at..end - 1][1..] == toks[at + 1..end - 1];
        assert vs[|acc|..] == [e.value] + vs[|more|..];
      } else if Check(toks, at, Comma) {
        InListReads(toks, at + 1, kind, acc);
        assert toks[at..end - 1][1..] == toks[at + 1..end - 1];
      } else {
        assert end == at + 1 && vs == acc;
        assert toks[at..end - 1] == [];
      }
    }
  }

  /** Conversely, items of `kind` and commas up to a `)` whose items all
      name a value are read by the IN loop as exactly those values, ending
      after the `)`. */
  lemma {:induction false} InListOfParts(toks: seq<Token>, at: nat, close: nat, kind: TokenType, acc: seq<A.Expression>)
    requires at <= close < |toks| && (kind == Identifier || kind == Literal)
    requires ItemsOrCommas(toks, at, close, kind) && toks[close].tokenType == CloseParen
    requires ListValues(toks[at..close], kind).Ok?
    ensures InList(toks, at, kind, acc) == Ok(Parsed(acc + ListValues(toks[at..close], kind).value, close + 1))
    decreases close - at
  {
    var vs := ListValues(toks[at..close], kind);
    if at == close {
      assert vs == Ok([]);
      assert acc + [] == acc;
    } else {
      assert toks[at..close][1..] == toks[at + 1..close];
      assert toks[at..close][0] == toks[at];
      if toks[at].tokenType == kind {
        var e := ExpressionForInput(toks[at]).value;
        assert ParseExpression(toks, at) == Ok(Parsed(e, at + 1));
        InListOfParts(toks, at + 1, close, kind, acc + [e]);
        assert acc + [e] + ListValues(toks[at + 1..close], kind).value == acc + vs.value;
      } else {
        InListOfParts(toks, at + 1, close, kind, acc);
      }
    }
  }

  /** After `IN (`: a list exactly when an identifier or a literal comes
      first, whose values are those of the items of that first token's type
      up to the `)`; a subquery exactly when SELECT comes first. */
  lemma InValuesForms(toks: seq<Token>, at: nat)
    requires at <= |toks|
    ensures var r := InValues(toks, at);
            r.Ok? ==>
              ((r.value.value.List? <==> Check(toks, at, Identifier) || Check(toks, at, Literal)) &&
               (r.value.value.List? ==>
                  r.value.value.items.Some? &&
                  Check(toks, r.value.pos - 1, CloseParen) &&
                  ItemsOrCommas(toks, at, r.value.pos - 1, toks[at].tokenType) &&
                  ListValues(toks[at..r.value.pos - 1], toks[at].tokenType) == Ok(r.value.value.items.value)) &&
               (r.value.value.Subquery? ==>
                  Check(toks, at, Select) && r.value.value.query.Some? &&
                  SelectStatement(toks, at) == Ok(Parsed(r.value.value.query.value, r.value.pos))))
  {
    var r := InValues(toks, at);
    if r.Ok? && (Check(toks, at, Identifier) || Check(toks, at, Literal)) {
      var kind := toks[at].tokenType;
      InListReads(toks, at, kind, []);
      var l := InList(toks, at, kind, []).value;
      assert l.value[0..] == l.value;
    }
  }
}
