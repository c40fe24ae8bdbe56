/** The syntax tree built by the older SQL parser (src/parser/ast.rs). */
module LegacyAst {
  import opened Wrappers

  datatype SqlStatement =
    | Select(select: SelectStatement)
    | Insert(insert: InsertStatement)
    | Update(update: UpdateStatement)
    | Delete(delete: DeleteStatement)
    | Create(create: CreateStatement)
    | Drop(drop: DropStatement)

  datatype InsertStatement = InsertStatement(table: string, columns: seq<string>, values: seq<Expression>)

  datatype UpdateStatement = UpdateStatement(table: string, assignments: seq<Assignment>, whereClause: Option<WhereClause>)

  datatype Assignment = Assignment(column: string, value: Expression)

  datatype DeleteStatement = DeleteStatement(table: string, whereClause: Option<WhereClause>)

  datatype CreateStatement = CreateStatement(table: string, columns: seq<ColumnDefinition>)

  datatype ColumnDefinition = ColumnDefinition(name: string, dataType: DataType, constraints: seq<ColumnConstraint>)

  /** `Varchar(Option<usize>)`: the size is below 2^64. */
  datatype DataType = Integer | Float | Varchar(size: Option<nat>) | Boolean

  datatype ColumnConstraint = PrimaryKey | NotNull | Unique

  datatype DropStatement = DropStatement(table: string)

  datatype SelectStatement = SelectStatement(columns: seq<SelectColumn>, from: Option<string>, whereClause: Option<WhereClause>)

  datatype SelectColumn = All | Column(name: string)

  datatype WhereClause = WhereClause(condition: Condition)

  /** `ComparisonCondition` and `LogicalCondition` are written inline as
      the fields of their variants. */
  datatype Condition =
    | Comparison(operator: ComparisonOperator, left: Expression, right: Expression)
    | Logical(lhs: Condition, logical: LogicalOperator, rhs: Condition)
    | Not(negated: Condition)
    | NullCheck(check: NullCheckCondition)

  datatype NullCheckCondition = IsNull(identifier: string) | IsNotNull(identifier: string)

  datatype ComparisonOperator =
    | Equal | NotEqual | GreaterThan | LessThan | GreaterThanOrEqual | LessThanOrEqual

  datatype LogicalOperator = And | Or

  datatype Expression = Identifier(name: string) | Literal(literal: Literal)

  /** The `f64` of `Number` is kept as the digit text it was read from. */
  datatype Literal = String(text: string) | Number(digits: string) | Boolean(boolean: bool)
}
