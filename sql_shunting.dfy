/** The shunting-yard bookkeeping of `handle_where_clause`
    (src/parser_v2/parser.rs:154-253): an operator stack holding AND, OR and
    open parentheses, and an output queue of conditions whose back is popped
    as a stack. Each reduction pops the right operand, then the left one, and
    pushes their logical combination. */
module SqlShunting {
  import opened Wrappers
  import opened SqlTokens
  import A = SqlAst
  import opened SqlParseBase

  /** The tokens the WHERE loop ever pushes on its operator stack. */
  predicate StackToken(t: TokenType) {
    t == OpenParen || t == And || t == Or
  }

  predicate Operators(stack: seq<TokenType>) {
    forall i :: 0 <= i < |stack| ==> StackToken(stack[i])
  }

  /** `operator_precedence`: AND binds tighter than OR; every other token
      has the lowest precedence. */
  function Precedence(t: TokenType): (r: int)
    ensures 0 <= r <= 2
    ensures r == 2 <==> t == And
    ensures r == 1 <==> t == Or
  {
    if t == And then 2
    else if t == Or then 1
    else 0
  }

  /** `match_sql_token_to_operator` with its error as a parse error. */
  function LogicalOf(t: TokenType): (r: Result<A.LogicalOperator, ParseError>)
    ensures r.Ok? <==> t == And || t == Or
    ensures t == And ==> r == Ok(A.And)
    ensures t == Or ==> r == Ok(A.Or)
    ensures r.Err? ==> r.error == NotALogicalOperator(t)
  {
    match A.MatchSqlTokenToOperator(t)
    case Ok(op) => Ok(op)
    case Err(x) => Err(NotALogicalOperator(x))
  }

  /** The two conditions at the back of the output replaced by their
      combination, the older one on the left. */
  function Combine(output: seq<A.Condition>, op: A.LogicalOperator): (r: seq<A.Condition>)
    requires |output| >= 2
    ensures |r| == |output| - 1
    ensures r[..|r| - 1] == output[..|output| - 2]
    ensures r[|r| - 1] == A.Logical(output[|output| - 2], op, output[|output| - 1])
  {
    output[..|output| - 2] + [A.Logical(output[|output| - 2], op, output[|output| - 1])]
  }

  /** One reduction as the closing-parenthesis and final loops do it: pop
      the right operand, pop the left one, then map the operator. */
  function Reduce(op: TokenType, output: seq<A.Condition>): (r: Result<seq<A.Condition>, ParseError>)
    ensures r.Ok? <==> |output| >= 2 && (op == And || op == Or)
    ensures |output| < 2 ==> r == Err(InvalidWhereClause)
    ensures r.Ok? ==> r.value == Combine(output, LogicalOf(op).value)
  {
    if |output| < 2 then Err(InvalidWhereClause)
    else
      var l :- LogicalOf(op);
      Ok(Combine(output, l))
  }

  /** One reduction as the AND / OR loop does it: the operator is mapped
      before the operands are popped. */
  function ReduceMappedFirst(op: TokenType, output: seq<A.Condition>): (r: Result<seq<A.Condition>, ParseError>)
    ensures r.Ok? <==> |output| >= 2 && (op == And || op == Or)
    ensures op != And && op != Or ==> r == Err(NotALogicalOperator(op))
    ensures r.Ok? ==> r.value == Combine(output, LogicalOf(op).value)
  {
    var l :- LogicalOf(op);
    if |output| < 2 then Err(InvalidWhereClause) else Ok(Combine(output, l))
  }

  /** The CloseParen arm: pop and reduce until an OpenParen is popped (and
      dropped) or the stack is empty. */
  function ReduceToParen(stack: seq<TokenType>, output: seq<A.Condition>): (r: Result<(seq<TokenType>, seq<A.Condition>), ParseError>)
    ensures r.Ok? ==> |r.value.0| <= |stack| && r.value.0 == stack[..|r.value.0|]
    ensures r.Ok? ==> |r.value.1| + |stack| == |output| + |r.value.0| + (if |r.value.0| < |stack| && stack[|r.value.0|] == OpenParen then 1 else 0)
    decreases |stack|
  {
    if |stack| == 0 then Ok((stack, output))
    else
      var op := stack[|stack| - 1];
      if op == OpenParen then Ok((stack[..|stack| - 1], output))
      else
        var out :- Reduce(op, output);
        ReduceToParen(stack[..|stack| - 1], out)
  }

  /** The AND / OR arm before the new operator is pushed: reduce while the
      top of the stack is an operator that binds at least as tightly as
      `t`. */
  function ReduceForOperator(t: TokenType, stack: seq<TokenType>, output: seq<A.Condition>): (r: Result<(seq<TokenType>, seq<A.Condition>), ParseError>)
    ensures r.Ok? ==> |r.value.0| <= |stack| && r.value.0 == stack[..|r.value.0|]
    ensures r.Ok? ==> |r.value.1| + |stack| == |output| + |r.value.0|
    ensures r.Ok? && |r.value.0| > 0 ==>
              var top := r.value.0[|r.value.0| - 1];
              top == OpenParen || Precedence(t) > Precedence(top)
    decreases |stack|
  {
    if |stack| == 0 then Ok((stack, output))
    else
      var top := stack[|stack| - 1];
      if top == OpenParen || Precedence(t) > Precedence(top) then Ok((stack, output))
      else
        var out :- ReduceMappedFirst(top, output);
        ReduceForOperator(t, stack[..|stack| - 1], out)
  }

  /** The loop after the last token: reduce with every operator left on the
      stack. An OpenParen left there is an error. */
  function Drain(stack: seq<TokenType>, output: seq<A.Condition>): (r: Result<seq<A.Condition>, ParseError>)
    ensures r.Ok? ==> |r.value| + |stack| == |output|
    ensures r.Ok? ==> OpenParen !in stack
    decreases |stack|
  {
    if |stack| == 0 then Ok(output)
    else
      var out :- Reduce(stack[|stack| - 1], output);
      assert stack == stack[..|stack| - 1] + [stack[|stack| - 1]];
      Drain(stack[..|stack| - 1], out)
  }

  /** The end of `handle_where_clause`: drain the stack, then the condition
      at the back of the output is the result; whatever is in front of it is
      dropped. */
  function FinishWhere(stack: seq<TokenType>, output: seq<A.Condition>): (r: Result<A.Condition, ParseError>)
    ensures r.Ok? ==> |output| > |stack| && OpenParen !in stack
    ensures r.Ok? ==> Drain(stack, output).Ok? && r.value == Drain(stack, output).value[|output| - |stack| - 1]
    ensures stack == [] && output != [] ==> r == Ok(output[|output| - 1])
    ensures Drain(stack, output).Ok? && |output| == |stack| ==> r == Err(EmptyWhereClause)
  {
    var out :- Drain(stack, output);
    if |out| == 0 then Err(EmptyWhereClause) else Ok(out[|out| - 1])
  }
}
