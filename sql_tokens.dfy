/** Tokens of the newer SQL front end (src/parser_v2/tokens.rs). */
module SqlTokens {
  import opened Wrappers

  /** `Types`: every kind of token the scanner can produce or the parser can
      ask for. A fieldless Rust enum, modelled by its discriminant: the
      variant's position in the declaration, one named constant per variant.
      Two token types are equal exactly when their discriminants are, as with
      the derived `PartialEq`. */
  newtype TokenType = x: int | 0 <= x < 62

  // data definition
  const Create: TokenType := 0
  const Drop: TokenType := 1
  const Alter: TokenType := 2
  const Rename: TokenType := 3
  const Table: TokenType := 4
  const Schema: TokenType := 5

  // queries
  const Select: TokenType := 6
  const Distinct: TokenType := 7
  const From: TokenType := 8
  const Where: TokenType := 9
  const OrderBy: TokenType := 10
  const LeftJoin: TokenType := 11
  const RightJoin: TokenType := 12
  const FullOuterJoin: TokenType := 13
  const On: TokenType := 14

  // data manipulation
  const Insert: TokenType := 15
  const Values: TokenType := 16
  const Into: TokenType := 17
  const Update: TokenType := 18
  const Set: TokenType := 19
  const Delete: TokenType := 20
  const Lock: TokenType := 21

  // transactions
  const BeginTransaction: TokenType := 22
  const RollBack: TokenType := 23
  const Commit: TokenType := 24

  // arithmetic operators
  const Addition: TokenType := 25
  const Subtraction: TokenType := 26
  const Division: TokenType := 27
  const Modulus: TokenType := 28

  // comparison operators
  const EqualTo: TokenType := 29
  const GreaterThan: TokenType := 30
  const LessThan: TokenType := 31
  const GreaterThanOrEqualTo: TokenType := 32
  const LessThanOrEqualTo: TokenType := 33
  const NotEqualTo: TokenType := 34

  // logical operators
  const And: TokenType := 35
  const Or: TokenType := 36
  const Not: TokenType := 37

  // special operators
  const In: TokenType := 38

  // data types
  const Integer: TokenType := 39
  const TextType: TokenType := 40      // `Types::Text`; `Text` is the literal below
  const DecimalType: TokenType := 41   // `Types::Decimal`; `Decimal` is the literal below
  const Boolean: TokenType := 42

  // table constraints
  const PrimaryKey: TokenType := 43
  const UniqueKey: TokenType := 44
  const ForeginKey: TokenType := 45

  // other keywords
  const Null: TokenType := 46
  const Constraint: TokenType := 47
  const Add: TokenType := 48
  const Truncate: TokenType := 49
  const Is: TokenType := 50

  // punctuation and values
  const Identifier: TokenType := 51
  const Literal: TokenType := 52
  const OpenParen: TokenType := 53
  const CloseParen: TokenType := 54
  const Comma: TokenType := 55
  const Semicolon: TokenType := 56
  const Eof: TokenType := 57
  const AllColumnsOrMultiplication: TokenType := 58
  const Invalid: TokenType := 59

  // ordering
  const AscendingOrder: TokenType := 60
  const DecendingOrder: TokenType := 61

  /** `ParsedLiteral`. The `f64` of `Decimal` is kept as the digit string it
      was read from; no floating-point value is computed. */
  datatype ParsedLiteral =
    | Text(text: string)
    | Number(number: int)
    | Decimal(digits: string)

  datatype Token = Token(
    tokenType: TokenType,
    lexeme: string,
    literal: Option<ParsedLiteral>,
    line: nat,
    column: nat)

  /** A token with the given type and text and no literal, for writing token
      lists out by hand; where it stood in the source text does not matter
      to the parser. */
  function Tok(t: TokenType, lexeme: string): (r: Token)
    ensures r.tokenType == t && r.lexeme == lexeme && r.literal.None?
  {
    Token(t, lexeme, None, 1, 0)
  }
}
