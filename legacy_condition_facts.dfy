/** The older parser's conditions for every token list
    (src/parser/mod.rs:193-222): a WHERE condition is the primary
    conditions read flat, in groups separated by OR whose members are
    separated by AND; the tree `parse_or_condition` builds is the left OR-fold
    of the left AND-folds of those groups. So AND binds tighter than OR, and
    both group to the left. */
module LegacyConditionFacts {
  import opened Wrappers
  import opened LegacyTokens
  import A = LegacyAst
  import opened LegacyParse

  // ---------------------------------------------------------------------
  // The reference: operands read flat, then folded

  /** `first op c1 op c2 …`, grouped to the left. */
  function Fold(first: A.Condition, op: A.LogicalOperator, rest: seq<A.Condition>): A.Condition
    decreases |rest|
  {
    if rest == [] then first else Fold(A.Logical(first, op, rest[0]), op, rest[1..])
  }

  /** The AND of a non-empty group of operands. */
  function Conjunction(group: seq<A.Condition>): A.Condition
    requires |group| > 0
  {
    Fold(group[0], A.And, group[1..])
  }

  /** The conjunction of each group, in order. */
  function Conjunctions(groups: seq<seq<A.Condition>>): (r: seq<A.Condition>)
    requires forall i :: 0 <= i < |groups| ==> |groups[i]| > 0
    ensures |r| == |groups|
  {
    if groups == [] then [] else [Conjunction(groups[0])] + Conjunctions(groups[1..])
  }

  /** The OR of the conjunctions of the groups. */
  function OrOfAnds(groups: seq<seq<A.Condition>>): A.Condition
    requires |groups| > 0 && forall i :: 0 <= i < |groups| ==> |groups[i]| > 0
  {
    var cs := Conjunctions(groups);
    Fold(cs[0], A.Or, cs[1..])
  }

  /** The `AND primary` pairs from `pos` on: the operands, in source order,
      and the position of the first token that is not AND. */
  function AndTail(toks: seq<Token>, pos: nat): (r: Result<Parsed<seq<A.Condition>>, Message>)
    requires Cursor(toks, pos)
    ensures Stays(toks, pos, r)
    ensures r.Ok? ==> !Check(toks, r.value.pos, And)
    ensures r.Ok? && r.value.value == [] ==> r.value.pos == pos
    decreases |toks| - pos
  {
    if Check(toks, pos, And) then
      var right :- PrimaryCondition(toks, pos + 1);
      var rest :- AndTail(toks, right.pos);
      Ok(Parsed([right.value] + rest.value, rest.pos))
    else Ok(Parsed([], pos))
  }

  /** A group: primary conditions separated by AND. */
  function AndGroup(toks: seq<Token>, pos: nat): (r: Result<Parsed<seq<A.Condition>>, Message>)
    requires Cursor(toks, pos)
    ensures Moves(toks, pos, r)
    ensures r.Ok? ==> |r.value.value| > 0 && !Check(toks, r.value.pos, And)
  {
    var first :- PrimaryCondition(toks, pos);
    var rest :- AndTail(toks, first.pos);
    Ok(Parsed([first.value] + rest.value, rest.pos))
  }

  /** The `OR group` pairs from `pos` on: the groups, in source order, and
      the position of the first token that is neither AND nor OR. */
  function OrTail(toks: seq<Token>, pos: nat): (r: Result<Parsed<seq<seq<A.Condition>>>, Message>)
    requires Cursor(toks, pos)
    ensures Stays(toks, pos, r)
    ensures r.Ok? ==> !Check(toks, r.value.pos, Or)
    ensures r.Ok? ==> forall i :: 0 <= i < |r.value.value| ==> |r.value.value[i]| > 0
    ensures r.Ok? && r.value.value == [] ==> r.value.pos == pos
    ensures r.Ok? && r.value.value != [] ==> !Check(toks, r.value.pos, And)
    decreases |toks| - pos
  {
    if Check(toks, pos, Or) then
      var group :- AndGroup(toks, pos + 1);
      var rest :- OrTail(toks, group.pos);
      Ok(Parsed([group.value] + rest.value, rest.pos))
    else Ok(Parsed([], pos))
  }

  /** A whole condition read flat: groups separated by OR. */
  function OrGroups(toks: seq<Token>, pos: nat): (r: Result<Parsed<seq<seq<A.Condition>>>, Message>)
    requires Cursor(toks, pos)
    ensures Moves(toks, pos, r)
    ensures r.Ok? ==> |r.value.value| > 0 && forall i :: 0 <= i < |r.value.value| ==> |r.value.value[i]| > 0
    ensures r.Ok? ==> !Check(toks, r.value.pos, And) && !Check(toks, r.value.pos, Or)
  {
    var first :- AndGroup(toks, pos);
    var rest :- OrTail(toks, first.pos);
    assert rest.value == [] ==> rest.pos == first.pos;
    Ok(Parsed([first.value] + rest.value, rest.pos))
  }

  // ---------------------------------------------------------------------
  // The parser is the fold of the reference

  /** Appending an operand puts the whole fold so far on its left: the
      chains group to the left. */
  lemma {:induction false} FoldGroupsLeft(first: A.Condition, op: A.LogicalOperator, rest: seq<A.Condition>, c: A.Condition)
    ensures Fold(first, op, rest + [c]) == A.Logical(Fold(first, op, rest), op, c)
    decreases |rest|
  {
    if rest != [] {
      assert (rest + [c])[1..] == rest[1..] + [c];
      FoldGroupsLeft(A.Logical(first, op, rest[0]), op, rest[1..], c);
    }
  }

  /** The AND loop, started with `left`, folds `left` with the operands
      AndTail reads and stops where AndTail stops; it fails exactly when
      AndTail does, with the same message. */
  lemma {:induction false} AndChainFolds(toks: seq<Token>, pos: nat, left: A.Condition)
    requires Cursor(toks, pos)
    ensures var t := AndTail(toks, pos);
            AndChain(toks, pos, left)
            == if t.Ok? then Ok(Parsed(Fold(left, A.And, t.value.value), t.value.pos)) else Err(t.error)
    decreases |toks| - pos
  {
    if Check(toks, pos, And) {
      var right := PrimaryCondition(toks, pos + 1);
      if right.Ok? {
        var next := A.Logical(left, A.And, right.value.value);
        AndChainFolds(toks, right.value.pos, next);
        var rest := AndTail(toks, right.value.pos);
        if rest.Ok? {
          var ops := [right.value.value] + rest.value.value;
          assert ops[0] == right.value.value && ops[1..] == rest.value.value;
          assert Fold(left, A.And, ops) == Fold(next, A.And, rest.value.value);
        }
      }
    }
  }

  /** `parse_and_condition` is the conjunction of the group it reads. */
  lemma AndConditionIsConjunction(toks: seq<Token>, pos: nat)
    requires Cursor(toks, pos)
    ensures var g := AndGroup(toks, pos);
            AndCondition(toks, pos)
            == if g.Ok? then Ok(Parsed(Conjunction(g.value.value), g.value.pos)) else Err(g.error)
  {
    var first := PrimaryCondition(toks, pos);
    if first.Ok? {
      AndChainFolds(toks, first.value.pos, first.value.value);
      var rest := AndTail(toks, first.value.pos);
      if rest.Ok? {
        var group := [first.value.value] + rest.value.value;
        assert group[0] == first.value.value && group[1..] == rest.value.value;
      }
    }
  }

  /** The OR loop, started with `left`, folds `left` with the conjunctions
      of the groups OrTail reads and stops where OrTail stops; it fails
      exactly when OrTail does, with the same message. */
  lemma {:induction false} OrChainFolds(toks: seq<Token>, pos: nat, left: A.Condition)
    requires Cursor(toks, pos)
    ensures var t := OrTail(toks, pos);
            OrChain(toks, pos, left)
            == if t.Ok? then Ok(Parsed(Fold(left, A.Or, Conjunctions(t.value.value)), t.value.pos)) else Err(t.error)
    decreases |toks| - pos
  {
    if Check(toks, pos, Or) {
      AndConditionIsConjunction(toks, pos + 1);
      var group := AndGroup(toks, pos + 1);
      if group.Ok? {
        var right := Conjunction(group.value.value);
        var next := A.Logical(left, A.Or, right);
        OrChainFolds(toks, group.value.pos, next);
        var rest := OrTail(toks, group.value.pos);
        if rest.Ok? {
          var groups := [group.value.value] + rest.value.value;
          assert groups[0] == group.value.value && groups[1..] == rest.value.value;
          var cs := Conjunctions(groups);
          assert cs == [right] + Conjunctions(rest.value.value);
          assert cs[0] == right && cs[1..] == Conjunctions(rest.value.value);
          assert Fold(left, A.Or, cs) == Fold(next, A.Or, Conjunctions(rest.value.value));
        }
      }
    }
  }

  /** `parse_or_condition`, for every token list: the OR of the
      conjunctions of the groups read flat, ending where the flat reading
      ends, and failing exactly when it fails, with the same message. */
  lemma OrConditionIsOrOfAnds(toks: seq<Token>, pos: nat)
    requires Cursor(toks, pos)
    ensures var g := OrGroups(toks, pos);
            OrCondition(toks, pos)
            == if g.Ok? then Ok(Parsed(OrOfAnds(g.value.value), g.value.pos)) else Err(g.error)
  {
    AndConditionIsConjunction(toks, pos);
    var first := AndGroup(toks, pos);
    if first.Ok? {
      var left := Conjunction(first.value.value);
      OrChainFolds(toks, first.value.pos, left);
      var rest := OrTail(toks, first.value.pos);
      if rest.Ok? {
        var groups := [first.value.value] + rest.value.value;
        assert groups[0] == first.value.value && groups[1..] == rest.value.value;
        var cs := Conjunctions(groups);
        assert cs == [left] + Conjunctions(rest.value.value);
        assert cs[0] == left && cs[1..] == Conjunctions(rest.value.value);
      }
    }
  }

  /** The right operand of every OR the parser adds is a whole AND-group:
      reading `c OR` after a condition, the right side is the conjunction
      of the group that follows, and the left side is everything before. */
  lemma OrTakesWholeGroup(toks: seq<Token>, pos: nat, left: A.Condition)
    requires Cursor(toks, pos) && Check(toks, pos, Or)
    requires AndGroup(toks, pos + 1).Ok?
    ensures var g := AndGroup(toks, pos + 1).value;
            OrChain(toks, pos, left) == OrChain(toks, g.pos, A.Logical(left, A.Or, Conjunction(g.value)))
            && !Check(toks, g.pos, And)
  {
    AndConditionIsConjunction(toks, pos + 1);
  }
}
