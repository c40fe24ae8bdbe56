/** The older parser's constraint loop as written (src/parser/mod.rs),
    where it differs from the corrected `LegacyParse.Constraints` that the
    rest of the model uses, with an input that shows the difference. */
module LegacyParseFindings {
  import opened Wrappers
  import opened LegacyTokens
  import A = LegacyAst
  import opened LegacyParse

  /** `parse_column_constraints` as written: its UNIQUE arm, after
      `match_token` has already taken the UNIQUE, consumes a second UNIQUE. */
  function ConstraintsAsWritten(toks: seq<Token>, pos: nat, acc: seq<A.ColumnConstraint>)
    : (r: Result<Parsed<seq<A.ColumnConstraint>>, Message>)
    requires Cursor(toks, pos)
    ensures Stays(toks, pos, r)
    ensures r.Ok? ==> |r.value.value| >= |acc| && r.value.value[..|acc|] == acc
    decreases |toks| - pos
  {
    if Check(toks, pos, Primary) then
      var k :- Consume(toks, pos + 1, Key, "Expect KEY after PRIMARY");
      ConstraintsAsWrittenFrom(toks, k.pos, acc, A.PrimaryKey)
    else if Check(toks, pos, Not) then
      var k :- Consume(toks, pos + 1, Null, "Expect NULL after NOT");
      ConstraintsAsWrittenFrom(toks, k.pos, acc, A.NotNull)
    else if Check(toks, pos, Unique) then
      var u :- Consume(toks, pos + 1, Unique, "Expected Unique constraints");
      ConstraintsAsWrittenFrom(toks, u.pos, acc, A.Unique)
    else Ok(Parsed(acc, pos))
  }

  /** The next round of the loop as written, after constraint `c`. */
  function ConstraintsAsWrittenFrom(toks: seq<Token>, pos: nat, acc: seq<A.ColumnConstraint>, c: A.ColumnConstraint)
    : (r: Result<Parsed<seq<A.ColumnConstraint>>, Message>)
    requires Cursor(toks, pos)
    ensures Stays(toks, pos, r)
    ensures r.Ok? ==> |r.value.value| > |acc| && r.value.value[..|acc|] == acc && r.value.value[|acc|] == c
    decreases |toks| - pos + 1
  {
    var more := acc + [c];
    var r := ConstraintsAsWritten(toks, pos, more);
    assert r.Ok? ==> r.value.value[..|acc|] == r.value.value[..|more|][..|acc|];
    assert r.Ok? ==> r.value.value[|acc|] == r.value.value[..|more|][|acc|];
    r
  }

  /** `id INTEGER UNIQUE)`, from the constraint on. */
  function UniqueThenParen(): seq<Token> {
    [Tok(Unique, "UNIQUE"), Tok(RightParen, ")"), Token(Eof, "", None)]
  }

  /** As written a lone UNIQUE is an error; corrected it is the UNIQUE
      constraint. */
  lemma LoneUniqueRejected()
    ensures ConstraintsAsWritten(UniqueThenParen(), 0, []) == Err("Expected Unique constraints")
    ensures Constraints(UniqueThenParen(), 0, []) == Ok(Parsed([A.Unique], 1))
  {
    var toks := UniqueThenParen();
    assert [] + [A.Unique] == [A.Unique];
    assert Constraints(toks, 1, [A.Unique]) == Ok(Parsed([A.Unique], 1));
  }

  /** As written `UNIQUE UNIQUE` is what gives one UNIQUE constraint. */
  lemma DoubleUniqueAccepted()
    ensures var toks := [Tok(Unique, "UNIQUE"), Tok(Unique, "UNIQUE"), Tok(RightParen, ")"), Token(Eof, "", None)];
            ConstraintsAsWritten(toks, 0, []) == Ok(Parsed([A.Unique], 2))
  {
    var toks := [Tok(Unique, "UNIQUE"), Tok(Unique, "UNIQUE"), Tok(RightParen, ")"), Token(Eof, "", None)];
    assert [] + [A.Unique] == [A.Unique];
    assert ConstraintsAsWritten(toks, 2, [A.Unique]) == Ok(Parsed([A.Unique], 2));
  }

  /** Corrected, UNIQUE is one word: the constraint list goes on right
      after it. */
  lemma UniqueIsOneWord(toks: seq<Token>, pos: nat, acc: seq<A.ColumnConstraint>)
    requires Cursor(toks, pos) && Check(toks, pos, Unique)
    ensures Constraints(toks, pos, acc) == Constraints(toks, pos + 1, acc + [A.Unique])
  {
  }

  /** Where no UNIQUE follows, the corrected loop reads exactly what the
      loop as written reads: the correction changes nothing else. */
  lemma {:induction false} SameWithoutUnique(toks: seq<Token>, pos: nat, acc: seq<A.ColumnConstraint>)
    requires Cursor(toks, pos)
    requires forall i :: pos <= i < |toks| ==> toks[i].tokenType != Unique
    ensures ConstraintsAsWritten(toks, pos, acc) == Constraints(toks, pos, acc)
    decreases |toks| - pos
  {
    if Check(toks, pos, Primary) || Check(toks, pos, Not) {
      var next := ConstraintAt(toks, pos);
      if next.Ok? {
        SameWithoutUnique(toks, next.value.pos, acc + [next.value.value]);
      }
    }
  }
}
