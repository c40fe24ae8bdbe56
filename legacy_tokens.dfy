/** Tokens of the older SQL front end (src/parser/sql_token_types.rs,
    src/parser/token.rs).

    The scanner names the variants in upper case (`LEFTPAREN`, `EOF`), as
    the enum declares them; the parser names them in camel case
    (`Leftparen`, `Eof`, `GreaterThanOrEqualTo`). Both spellings are taken
    to mean the one declared variant of the same name; the parser's
    `GreaterThanOrEqualTo` and `LesserThanOrEqualTo` are taken to be
    `GREATER_OR_EQUAL` and `LESSER_OR_EQUAL`, and its `String` and `Number`
    to be `STRING` and `NUMBER`. */
module LegacyTokens {
  import opened Wrappers

  /** `SQLTokenTypes`: a fieldless enum, modelled by its discriminant (the
      variant's position in the declaration), one named constant per
      variant. Two token types are equal exactly when their discriminants
      are, as with the derived `PartialEq`. */
  newtype TokenType = x: int | 0 <= x < 45

  // data manipulation
  const Select: TokenType := 0
  const Insert: TokenType := 1
  const Delete: TokenType := 2
  const Update: TokenType := 3

  // data definition
  const Create: TokenType := 4
  const Drop: TokenType := 5
  const Truncate: TokenType := 6
  const Rename: TokenType := 7
  const Alter: TokenType := 8

  // transactions
  const Commit: TokenType := 9
  const Rollback: TokenType := 10
  const Savepoint: TokenType := 11
  const TableIdentifier: TokenType := 12
  const Identifier: TokenType := 13
  const Number: TokenType := 14
  const Eof: TokenType := 15

  // punctuation
  const LeftParen: TokenType := 16
  const RightParen: TokenType := 17
  const Star: TokenType := 18
  const Comma: TokenType := 19
  const Semicolon: TokenType := 20
  const Newline: TokenType := 21

  // comparison
  const Greater: TokenType := 22
  const Lesser: TokenType := 23
  const Equal: TokenType := 24

  const Primary: TokenType := 25
  const Key: TokenType := 26
  const Not: TokenType := 27
  const Unique: TokenType := 28
  const Null: TokenType := 29

  const Into: TokenType := 30
  const Values: TokenType := 31

  const Set: TokenType := 32
  const Where: TokenType := 33
  const From: TokenType := 34

  const And: TokenType := 35
  const Or: TokenType := 36
  const GreaterEqual: TokenType := 37
  const LesserEqual: TokenType := 38
  const NotEqual: TokenType := 39
  const String: TokenType := 40
  const Table: TokenType := 41

  const Is: TokenType := 42
  const GreaterOrEqual: TokenType := 43
  const LesserOrEqual: TokenType := 44

  /** The boxed `dyn Any` literal of a token: the scanner boxes a `String`
      for a quoted string and an `f64` for a number. The `f64` is kept as
      the digit text it was read from. */
  datatype ScannedValue = StringValue(text: string) | NumberValue(digits: string)

  datatype Token = Token(tokenType: TokenType, lexeme: string, literal: Option<ScannedValue>)

  /** A token with no literal, for writing token lists out by hand. */
  function Tok(t: TokenType, lexeme: string): (r: Token)
    ensures r.tokenType == t && r.lexeme == lexeme && r.literal.None?
  {
    Token(t, lexeme, None)
  }
}
