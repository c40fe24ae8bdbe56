/** The syntax tree built by the newer SQL parser (src/parser_v2/ast.rs). */
module SqlAst {
  import opened Wrappers
  import T = SqlTokens

  datatype SqlStatement =
    | Select(select: SelectStatement)
    | Insert(insert: InsertStatement)
    | Update(update: UpdateStatement)
    | Delete(delete: DeleteStatement)
    | Create(create: CreateStatement)
    | Drop(drop: DropStatement)

  datatype InsertStatement = InsertStatement(table: string, columns: seq<string>, values: seq<Expression>)

  datatype UpdateStatement = UpdateStatement(table: string, assignments: seq<Assignment>, whereClause: Option<WhereClause>)

  datatype Assignment = Assignment(column: string, value: Expression)

  datatype DeleteStatement = DeleteStatement(table: string, whereClause: Option<WhereClause>)

  datatype CreateStatement = CreateStatement(table: string, columns: seq<ColumnDefinition>)

  datatype ColumnDefinition = ColumnDefinition(name: string, dataType: DataType, constraints: seq<ColumnConstraint>)

  datatype DataType = Integer | Decimal | Text | Boolean

  datatype ColumnConstraint = PrimaryKey | NotNull | UniqueKey

  datatype DropStatement = DropStatement(table: string)

  /** `limit` and `offset` are `Option<i64>` in the source. */
  datatype SelectStatement = SelectStatement(
    columns: seq<SelectColumn>,
    from: string,
    whereClause: Option<WhereClause>,
    orderBy: Option<seq<OrderByClause>>,
    limit: Option<int>,
    offset: Option<int>)

  datatype OrderByClause = OrderByClause(columnName: string, isAsc: bool)

  datatype SelectColumn = All | Column(name: string)

  datatype WhereClause = WhereClause(condition: Condition)

  datatype Condition =
    | Comparison(operator: ComparisonOperator, left: Expression, right: Expression)
    | Logical(lhs: Condition, logical: LogicalOperator, rhs: Condition)
    | Not(negated: Condition)
    | NullCheck(check: NullCheckCondition)
    | In(inLeft: Expression, values: InValues)

  datatype InValues =
    | List(items: Option<seq<Expression>>)
    | Subquery(query: Option<SelectStatement>)

  datatype NullCheckCondition = IsNull(identifier: string) | IsNotNull(identifier: string)

  datatype ComparisonOperator =
    | EqualTo | NotEqual | GreaterThan | LessThan | GreaterThanOrEqual | LessThanOrEqual

  datatype LogicalOperator = And | Or

  datatype Expression = Identifier(name: string) | Literal(literal: Literal)

  /** The `f64` of `Decimal` is kept as its digit string. */
  datatype Literal =
    | String(text: string)
    | Number(number: int)
    | Decimal(digits: string)
    | Boolean(boolean: bool)

  /** `LogicalOperator::match_sql_token_to_operator`: only the AND and OR
      tokens name a logical operator; any other token is handed back as the
      error. */
  function MatchSqlTokenToOperator(t: T.TokenType): (r: Result<LogicalOperator, T.TokenType>)
    ensures r == Ok(And) <==> t == T.And
    ensures r == Ok(Or) <==> t == T.Or
    ensures r.Err? <==> t != T.And && t != T.Or
    ensures r.Err? ==> r.error == t
  {
    if t == T.And then Ok(And)
    else if t == T.Or then Ok(Or)
    else Err(t)
  }
}
