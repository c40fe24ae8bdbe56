/** The UPDATE, DELETE and CREATE statements of the older parser's tests
    (src/parser/mod.rs:537-580), on their tokens written out by hand: the
    table, the assignments, the WHERE clause and the column definitions
    each test looks for. */
module LegacyStatementExamples {
  import opened Wrappers
  import opened LegacyTokens
  import opened LegacyNumbers
  import A = LegacyAst
  import opened LegacyParse
  import opened LegacyParseFacts
  import opened LegacyStatementFacts

  /** A WHERE condition that is one comparison of three tokens, followed by
      neither AND nor OR, is that comparison. */
  lemma SingleComparisonWhere(toks: seq<Token>, pos: nat, c: A.Condition)
    requires Cursor(toks, pos) && !Check(toks, pos, Not) && !Check(toks, pos, LeftParen)
    requires ComparisonCondition(toks, pos) == Ok(Parsed(c, pos + 3))
    requires !Check(toks, pos + 3, And) && !Check(toks, pos + 3, Or)
    ensures WhereClause(toks, pos) == Ok(Parsed(A.WhereClause(c), pos + 3))
  {
    assert PrimaryCondition(toks, pos) == Ok(Parsed(c, pos + 3));
    assert AndChain(toks, pos + 3, c) == Ok(Parsed(c, pos + 3));
    assert AndCondition(toks, pos) == Ok(Parsed(c, pos + 3));
    assert OrChain(toks, pos + 3, c) == Ok(Parsed(c, pos + 3));
    assert OrCondition(toks, pos) == Ok(Parsed(c, pos + 3));
  }

  /** A number token whose text `f64::from_str` reads. */
  function NumberToken(digits: string): Token {
    Token(Number, digits, Some(NumberValue(digits)))
  }

  // ---------------------------------------------------------------------
  // DELETE

  /** The tokens of `DELETE FROM users WHERE age < 18`. */
  function DeleteUsers(): seq<Token> {
    [Tok(Delete, "DELETE"), Tok(From, "FROM"), Id("users"), Tok(Where, "WHERE"),
     Id("age"), Tok(Lesser, "<"), NumberToken("18"), EofToken]
  }

  /** The DELETE test: table `users` and a WHERE clause, `age < 18`. */
  lemma DeleteExample()
    ensures Parse(DeleteUsers())
            == Ok(A.Delete(A.DeleteStatement("users", Some(A.WhereClause(AgeUnder18())))))
  {
    var toks := DeleteUsers();
    DeleteExampleWhere();
    DeleteForms(toks, 0);
    assert toks[0].tokenType == Delete;
  }

  function AgeUnder18(): A.Condition {
    A.Comparison(A.LessThan, A.Identifier("age"), A.Literal(A.Number("18")))
  }

  lemma DeleteExampleWhere()
    ensures Cursor(DeleteUsers(), 4)
    ensures WhereClause(DeleteUsers(), 4) == Ok(Parsed(A.WhereClause(AgeUnder18()), 7))
  {
    assert AllDigits("18");
    NumberComparisonWhere(DeleteUsers(), 4, "18");
  }

  /** `identifier op expression` with one of the five operators. */
  lemma ComparisonOfParts(toks: seq<Token>, pos: nat)
    requires Cursor(toks, pos) && Check(toks, pos, Identifier) && IsComparisonToken(toks, pos + 1)
    requires Expression(toks, pos + 2).Ok?
    ensures ComparisonOf(toks[pos + 1].tokenType).Some?
    ensures ComparisonCondition(toks, pos)
            == Ok(Parsed(A.Comparison(ComparisonOf(toks[pos + 1].tokenType).value, A.Identifier(toks[pos].lexeme),
                                      Expression(toks, pos + 2).value.value), Expression(toks, pos + 2).value.pos))
  {
  }

  /** A number token of digits is a number literal. */
  lemma NumberLiteral(toks: seq<Token>, pos: nat, digits: string)
    requires Cursor(toks, pos) && toks[pos] == NumberToken(digits) && |digits| > 0 && AllDigits(digits)
    ensures Expression(toks, pos) == Ok(Parsed(A.Literal(A.Number(digits)), pos + 1))
  {
    ScannedNumberIsFloat(digits, "");
  }

  /** `name op digits` as the whole WHERE condition. */
  lemma NumberComparisonWhere(toks: seq<Token>, pos: nat, digits: string)
    requires Cursor(toks, pos) && Check(toks, pos, Identifier) && IsComparisonToken(toks, pos + 1)
    requires pos + 2 < |toks| && toks[pos + 2] == NumberToken(digits) && |digits| > 0 && AllDigits(digits)
    requires !Check(toks, pos + 3, And) && !Check(toks, pos + 3, Or)
    ensures ComparisonOf(toks[pos + 1].tokenType).Some?
    ensures WhereClause(toks, pos)
            == Ok(Parsed(A.WhereClause(A.Comparison(ComparisonOf(toks[pos + 1].tokenType).value,
                                                    A.Identifier(toks[pos].lexeme), A.Literal(A.Number(digits)))), pos + 3))
  {
    NumberLiteral(toks, pos + 2, digits);
    ComparisonOfParts(toks, pos);
    SingleComparisonWhere(toks, pos, A.Comparison(ComparisonOf(toks[pos + 1].tokenType).value,
                                                  A.Identifier(toks[pos].lexeme), A.Literal(A.Number(digits))));
  }

  // ---------------------------------------------------------------------
  // UPDATE

  /** The tokens of `UPDATE users SET age = 31 WHERE name = 'John Doe'`,
      written out one by one in the form `QuotedString` gives the quoted
      text: an identifier, quotes and all. */
  function UpdateUsers(): seq<Token> {
    [Tok(Update, "UPDATE"), Id("users"), Tok(Set, "SET"), Id("age"), Tok(Equal, "="), NumberToken("31"),
     Tok(Where, "WHERE"), Id("name"), Tok(Equal, "="),
     Token(Identifier, "'John Doe'", Some(StringValue("'John Doe'"))), EofToken]
  }

  function NameIsJohnDoe(): A.Condition {
    A.Comparison(A.Equal, A.Identifier("name"), A.Identifier("'John Doe'"))
  }

  /** The UPDATE test: table `users`, the one assignment `age = 31`, and a
      WHERE clause. */
  lemma UpdateExample()
    ensures Parse(UpdateUsers())
            == Ok(A.Update(A.UpdateStatement("users", [A.Assignment("age", A.Literal(A.Number("31")))],
                 Some(A.WhereClause(NameIsJohnDoe())))))
  {
    var toks := UpdateUsers();
    UpdateExampleStatement();
    assert toks[0].tokenType == Update;
  }

  lemma UpdateExampleStatement()
    ensures EofTerminated(UpdateUsers())
    ensures UpdateStatement(UpdateUsers(), 0)
            == Ok(Parsed(A.Update(A.UpdateStatement("users", [A.Assignment("age", A.Literal(A.Number("31")))],
                 Some(A.WhereClause(NameIsJohnDoe())))), 10))
  {
    var toks := UpdateUsers();
    UpdateExampleAssignments();
    UpdateExampleWhere();
    assert OptionalWhere(toks, 6) == Ok(Parsed(Some(A.WhereClause(NameIsJohnDoe())), 10));
    assert Consume(toks, 0, Update, "Expect UPDATE") == Ok(Parsed(toks[0], 1));
  }

  lemma UpdateExampleAssignments()
    ensures Cursor(UpdateUsers(), 3)
    ensures Assignments(UpdateUsers(), 3, []) == Ok(Parsed([A.Assignment("age", A.Literal(A.Number("31")))], 6))
  {
    assert AllDigits("31");
    LastNumberAssignment(UpdateUsers(), 3, [], "31");
  }

  /** `column = digits` with no comma after it ends the assignments. */
  lemma LastNumberAssignment(toks: seq<Token>, pos: nat, acc: seq<A.Assignment>, digits: string)
    requires Cursor(toks, pos) && Check(toks, pos, Identifier) && Check(toks, pos + 1, Equal)
    requires pos + 2 < |toks| && toks[pos + 2] == NumberToken(digits) && |digits| > 0 && AllDigits(digits)
    requires !Check(toks, pos + 3, Comma)
    ensures Assignments(toks, pos, acc)
            == Ok(Parsed(acc + [A.Assignment(toks[pos].lexeme, A.Literal(A.Number(digits)))], pos + 3))
  {
    NumberLiteral(toks, pos + 2, digits);
  }

  lemma UpdateExampleWhere()
    ensures Cursor(UpdateUsers(), 7)
    ensures WhereClause(UpdateUsers(), 7) == Ok(Parsed(A.WhereClause(NameIsJohnDoe()), 10))
  {
    UpdateExampleComparison();
    SingleComparisonWhere(UpdateUsers(), 7, NameIsJohnDoe());
  }

  lemma UpdateExampleComparison()
    ensures Cursor(UpdateUsers(), 7)
    ensures ComparisonCondition(UpdateUsers(), 7) == Ok(Parsed(NameIsJohnDoe(), 10))
  {
    var toks := UpdateUsers();
    assert Expression(toks, 9) == Ok(Parsed(A.Identifier("'John Doe'"), 10));
    ComparisonOfParts(toks, 7);
  }

  // ---------------------------------------------------------------------
  // CREATE

  /** The tokens of
      `CREATE TABLE products (id INTEGER PRIMARY KEY, name VARCHAR(100) NOT NULL, price FLOAT)`;
      written out one by one. The keyword table has no entry for the type
      names, so they are written as identifiers, the form `Word` gives
      them. */
  function CreateProducts(): (r: seq<Token>)
    ensures |r| == 21 && forall i :: 0 <= i < 21 ==> r[i] == CreateProductsAt(i)
  {
    seq(21, CreateProductsAt)
  }

  function CreateProductsAt(i: int): Token {
    if i == 0 then Tok(Create, "CREATE") else if i == 1 then Tok(Table, "TABLE")
    else if i == 2 then Id("products") else if i == 3 then Tok(LeftParen, "(")
    else if i == 4 then Id("id") else if i == 5 then Id("INTEGER")
    else if i == 6 then Tok(Primary, "PRIMARY") else if i == 7 then Tok(Key, "KEY")
    else if i == 8 then Tok(Comma, ",") else if i == 9 then Id("name")
    else if i == 10 then Id("VARCHAR") else if i == 11 then Tok(LeftParen, "(")
    else if i == 12 then NumberToken("100") else if i == 13 then Tok(RightParen, ")")
    else if i == 14 then Tok(Not, "NOT") else if i == 15 then Tok(Null, "NULL")
    else if i == 16 then Tok(Comma, ",") else if i == 17 then Id("price")
    else if i == 18 then Id("FLOAT") else if i == 19 then Tok(RightParen, ")")
    else EofToken
  }

  function ProductColumns(): seq<A.ColumnDefinition> {
    [A.ColumnDefinition("id", A.Integer, [A.PrimaryKey]),
     A.ColumnDefinition("name", A.Varchar(Some(100)), [A.NotNull]),
     A.ColumnDefinition("price", A.Float, [])]
  }

  /** The CREATE test: table `products` and its three columns, each with
      its type and constraints. */
  lemma CreateExample()
    ensures Parse(CreateProducts()) == Ok(A.Create(A.CreateStatement("products", ProductColumns())))
  {
    CreateExampleShape();
    CreateExampleColumns();
    CreateOfParts(CreateProducts(), ProductColumns(), 19);
  }

  /** The keywords and punctuation around the column list. */
  lemma CreateExampleShape()
    ensures Cursor(CreateProducts(), 0) && Check(CreateProducts(), 0, Create) && Check(CreateProducts(), 1, Table)
    ensures Check(CreateProducts(), 2, Identifier) && CreateProducts()[2].lexeme == "products"
    ensures Check(CreateProducts(), 3, LeftParen) && Check(CreateProducts(), 19, RightParen)
  {
    var toks := CreateProducts();
    assert toks[2] == Id("products");
  }

  /** `CREATE TABLE name (` and a column list closed by `)`, from the
      first token. */
  lemma CreateOfParts(toks: seq<Token>, cols: seq<A.ColumnDefinition>, end: nat)
    requires Cursor(toks, 0) && Check(toks, 0, Create) && Check(toks, 1, Table)
    requires Check(toks, 2, Identifier) && Check(toks, 3, LeftParen)
    requires ColumnDefinitions(toks, 4, []) == Ok(Parsed(cols, end)) && Check(toks, end, RightParen)
    ensures Parse(toks) == Ok(A.Create(A.CreateStatement(toks[2].lexeme, cols)))
  {
    assert CreateStatement(toks, 0) == Ok(Parsed(A.Create(A.CreateStatement(toks[2].lexeme, cols)), end + 1));
  }

  /** The column loop from the first definition: `id`, then the rest. */
  lemma CreateExampleColumns()
    ensures Cursor(CreateProducts(), 4)
    ensures ColumnDefinitions(CreateProducts(), 4, []) == Ok(Parsed(ProductColumns(), 19))
  {
    var cols := ProductColumns();
    FirstColumn();
    assert cols[..0] == [];
  }

  lemma FirstColumn()
    ensures Cursor(CreateProducts(), 4)
    ensures ColumnDefinitions(CreateProducts(), 4, ProductColumns()[..0]) == Ok(Parsed(ProductColumns(), 19))
  {
    var cols := ProductColumns();
    IdColumn();
    assert Check(CreateProducts(), 8, Comma);
    DefinitionStepAt(CreateProducts(), 4, cols[..0], cols[0], 8);
    LaterColumns();
    assert cols[..0] + [cols[0]] == cols[..1];
  }

  /** From the second definition: `name`, then `price`. */
  lemma LaterColumns()
    ensures Cursor(CreateProducts(), 9)
    ensures ColumnDefinitions(CreateProducts(), 9, ProductColumns()[..1]) == Ok(Parsed(ProductColumns(), 19))
  {
    var cols := ProductColumns();
    NameColumn();
    assert Check(CreateProducts(), 16, Comma);
    DefinitionStepAt(CreateProducts(), 9, cols[..1], cols[1], 16);
    LastColumn();
    assert cols[..1] + [cols[1]] == cols[..2];
  }

  /** From the third definition: `price`, with no comma after it. */
  lemma LastColumn()
    ensures Cursor(CreateProducts(), 17)
    ensures ColumnDefinitions(CreateProducts(), 17, ProductColumns()[..2]) == Ok(Parsed(ProductColumns(), 19))
  {
    var cols := ProductColumns();
    PriceColumn();
    assert !Check(CreateProducts(), 19, Comma);
    DefinitionStepAt(CreateProducts(), 17, cols[..2], cols[2], 19);
    assert cols[..2] + [cols[2]] == cols;
  }

  /** A column whose name, type and constraints are read in turn. */
  lemma ColumnOfParts(toks: seq<Token>, pos: nat, t: A.DataType, tEnd: nat, cs: seq<A.ColumnConstraint>, end: nat)
    requires Cursor(toks, pos) && Check(toks, pos, Identifier)
    requires DataType(toks, pos + 1) == Ok(Parsed(t, tEnd)) && tEnd < |toks|
    requires Constraints(toks, tEnd, []) == Ok(Parsed(cs, end))
    ensures ColumnDefinition(toks, pos) == Ok(Parsed(A.ColumnDefinition(toks[pos].lexeme, t, cs), end))
  {
  }

  /** A constraint at `pos` and none after it. */
  lemma OneConstraint(toks: seq<Token>, pos: nat, c: A.ColumnConstraint, end: nat)
    requires Cursor(toks, pos) && (Check(toks, pos, Primary) || Check(toks, pos, Not) || Check(toks, pos, Unique))
    requires ConstraintAt(toks, pos) == Ok(Parsed(c, end))
    requires !Check(toks, end, Primary) && !Check(toks, end, Not) && !Check(toks, end, Unique)
    ensures Constraints(toks, pos, []) == Ok(Parsed([c], end))
  {
    assert [] + [c] == [c];
  }

  /** `PRIMARY KEY` and no constraint after it. */
  lemma PrimaryKeyOnly(toks: seq<Token>, pos: nat)
    requires Cursor(toks, pos) && Check(toks, pos, Primary) && Check(toks, pos + 1, Key)
    requires !Check(toks, pos + 2, Primary) && !Check(toks, pos + 2, Not) && !Check(toks, pos + 2, Unique)
    ensures Constraints(toks, pos, []) == Ok(Parsed([A.PrimaryKey], pos + 2))
  {
    assert ConstraintAt(toks, pos) == Ok(Parsed(A.PrimaryKey, pos + 2));
    OneConstraint(toks, pos, A.PrimaryKey, pos + 2);
  }

  /** `NOT NULL` and no constraint after it. */
  lemma NotNullOnly(toks: seq<Token>, pos: nat)
    requires Cursor(toks, pos) && Check(toks, pos, Not) && Check(toks, pos + 1, Null)
    requires !Check(toks, pos + 2, Primary) && !Check(toks, pos + 2, Not) && !Check(toks, pos + 2, Unique)
    ensures Constraints(toks, pos, []) == Ok(Parsed([A.NotNull], pos + 2))
  {
    assert ConstraintAt(toks, pos) == Ok(Parsed(A.NotNull, pos + 2));
    OneConstraint(toks, pos, A.NotNull, pos + 2);
  }

  /** The type name INTEGER. */
  lemma IntegerType(toks: seq<Token>, pos: nat)
    requires Cursor(toks, pos) && Check(toks, pos, Identifier) && toks[pos].lexeme == "INTEGER"
    ensures DataType(toks, pos) == Ok(Parsed(A.Integer, pos + 1))
  {
    UpperUnchanged("INTEGER");
  }

  /** The type name FLOAT. */
  lemma FloatType(toks: seq<Token>, pos: nat)
    requires Cursor(toks, pos) && Check(toks, pos, Identifier) && toks[pos].lexeme == "FLOAT"
    ensures DataType(toks, pos) == Ok(Parsed(A.Float, pos + 1))
  {
    UpperUnchanged("FLOAT");
    assert "FLOAT" != "INTEGER";
  }

  /** `VARCHAR(100)`. */
  lemma VarcharHundred(toks: seq<Token>, pos: nat)
    requires Cursor(toks, pos) && Check(toks, pos, Identifier) && toks[pos].lexeme == "VARCHAR"
    requires Check(toks, pos + 1, LeftParen) && Check(toks, pos + 2, Number) && toks[pos + 2].lexeme == "100"
    requires Check(toks, pos + 3, RightParen)
    ensures DataType(toks, pos) == Ok(Parsed(A.Varchar(Some(100)), pos + 4))
  {
    TypeNamesUpper();
    HundredText();
    VarcharSize(toks, pos, 100);
  }

  /** `name INTEGER PRIMARY KEY`. */
  lemma IntegerKeyColumn(toks: seq<Token>, pos: nat)
    requires Cursor(toks, pos) && Check(toks, pos, Identifier)
    requires Check(toks, pos + 1, Identifier) && toks[pos + 1].lexeme == "INTEGER"
    requires Check(toks, pos + 2, Primary) && Check(toks, pos + 3, Key)
    requires !Check(toks, pos + 4, Primary) && !Check(toks, pos + 4, Not) && !Check(toks, pos + 4, Unique)
    ensures ColumnDefinition(toks, pos) == Ok(Parsed(A.ColumnDefinition(toks[pos].lexeme, A.Integer, [A.PrimaryKey]), pos + 4))
  {
    IntegerType(toks, pos + 1);
    PrimaryKeyOnly(toks, pos + 2);
    ColumnOfParts(toks, pos, A.Integer, pos + 2, [A.PrimaryKey], pos + 4);
  }

  /** `name VARCHAR(100) NOT NULL`. */
  lemma VarcharNotNullColumn(toks: seq<Token>, pos: nat)
    requires Cursor(toks, pos) && Check(toks, pos, Identifier)
    requires Check(toks, pos + 1, Identifier) && toks[pos + 1].lexeme == "VARCHAR"
    requires Check(toks, pos + 2, LeftParen) && Check(toks, pos + 3, Number) && toks[pos + 3].lexeme == "100"
    requires Check(toks, pos + 4, RightParen) && Check(toks, pos + 5, Not) && Check(toks, pos + 6, Null)
    requires !Check(toks, pos + 7, Primary) && !Check(toks, pos + 7, Not) && !Check(toks, pos + 7, Unique)
    ensures ColumnDefinition(toks, pos)
            == Ok(Parsed(A.ColumnDefinition(toks[pos].lexeme, A.Varchar(Some(100)), [A.NotNull]), pos + 7))
  {
    VarcharHundred(toks, pos + 1);
    NotNullOnly(toks, pos + 5);
    ColumnOfParts(toks, pos, A.Varchar(Some(100)), pos + 5, [A.NotNull], pos + 7);
  }

  /** `name FLOAT` with no constraint. */
  lemma FloatColumn(toks: seq<Token>, pos: nat)
    requires Cursor(toks, pos) && Check(toks, pos, Identifier)
    requires Check(toks, pos + 1, Identifier) && toks[pos + 1].lexeme == "FLOAT"
    requires !Check(toks, pos + 2, Primary) && !Check(toks, pos + 2, Not) && !Check(toks, pos + 2, Unique)
    ensures ColumnDefinition(toks, pos) == Ok(Parsed(A.ColumnDefinition(toks[pos].lexeme, A.Float, []), pos + 2))
  {
    FloatType(toks, pos + 1);
    assert Constraints(toks, pos + 2, []) == Ok(Parsed([], pos + 2));
    ColumnOfParts(toks, pos, A.Float, pos + 2, [], pos + 2);
  }

  lemma IdColumn()
    ensures Cursor(CreateProducts(), 4)
    ensures ColumnDefinition(CreateProducts(), 4) == Ok(Parsed(ProductColumns()[0], 8))
  {
    var toks := CreateProducts();
    assert toks[4] == Id("id") && toks[5] == Id("INTEGER");
    IntegerKeyColumn(toks, 4);
  }

  lemma NameColumn()
    ensures Cursor(CreateProducts(), 9)
    ensures ColumnDefinition(CreateProducts(), 9) == Ok(Parsed(ProductColumns()[1], 16))
  {
    var toks := CreateProducts();
    assert toks[9] == Id("name") && toks[10] == Id("VARCHAR") && toks[12] == NumberToken("100");
    VarcharNotNullColumn(toks, 9);
  }

  lemma PriceColumn()
    ensures Cursor(CreateProducts(), 17)
    ensures ColumnDefinition(CreateProducts(), 17) == Ok(Parsed(ProductColumns()[2], 19))
  {
    var toks := CreateProducts();
    assert toks[17] == Id("price") && toks[18] == Id("FLOAT");
    FloatColumn(toks, 17);
  }
}
