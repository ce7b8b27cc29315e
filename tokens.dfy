/** Tokens and the keyword table of the jox lexer (jox/Parsing/Lexer.cs). */
module Tokens {
  import opened Values

  /**
   * The token kinds of the C# `enum TokenType`, as the enum's underlying
   * values: 0 to 38 in declaration order.
   */
  newtype TokenType = k: int | 0 <= k < 39

  // Single-character tokens.
  const LEFT_PAREN: TokenType := 0
  const RIGHT_PAREN: TokenType := 1
  const LEFT_BRACE: TokenType := 2
  const RIGHT_BRACE: TokenType := 3
  const COMMA: TokenType := 4
  const DOT: TokenType := 5
  const MINUS: TokenType := 6
  const PLUS: TokenType := 7
  const SEMICOLON: TokenType := 8
  const SLASH: TokenType := 9
  const STAR: TokenType := 10

  // One or two character tokens.
  const BANG: TokenType := 11
  const BANG_EQUAL: TokenType := 12
  const EQUAL: TokenType := 13
  const EQUAL_EQUAL: TokenType := 14
  const GREATER: TokenType := 15
  const GREATER_EQUAL: TokenType := 16
  const LESS: TokenType := 17
  const LESS_EQUAL: TokenType := 18

  // Literals.
  const IDENTIFIER: TokenType := 19
  const STRING: TokenType := 20
  const NUMBER: TokenType := 21

  // Keywords.
  const AND: TokenType := 22
  const CLASS: TokenType := 23
  const ELSE: TokenType := 24
  const FALSE: TokenType := 25
  const FUN: TokenType := 26
  const FOR: TokenType := 27
  const IF: TokenType := 28
  const NIL: TokenType := 29
  const OR: TokenType := 30
  const PRINT: TokenType := 31
  const RETURN: TokenType := 32
  const SUPER: TokenType := 33
  const THIS: TokenType := 34
  const TRUE: TokenType := 35
  const VAR: TokenType := 36
  const WHILE: TokenType := 37

  const EOF: TokenType := 38

  /** `literal` is `Nil` for every token but NUMBER and STRING, as the source's `null`. */
  datatype Token = Token(kind: TokenType, lexeme: string, literal: Value, line: nat)

  /** The reserved words, looked up after a whole identifier has been scanned. */
  const Keywords: map<string, TokenType> := map[
    "and" := AND,
    "class" := CLASS,
    "else" := ELSE,
    "false" := FALSE,
    "fun" := FUN,
    "for" := FOR,
    "if" := IF,
    "nil" := NIL,
    "or" := OR,
    "print" := PRINT,
    "return" := RETURN,
    "super" := SUPER,
    "this" := THIS,
    "true" := TRUE,
    "var" := VAR,
    "while" := WHILE
  ]

  /** The kind of a scanned identifier: its keyword, or IDENTIFIER. */
  function IdentifierKind(lexeme: string): (k: TokenType)
    ensures lexeme in Keywords ==> k == Keywords[lexeme]
    ensures lexeme !in Keywords ==> k == IDENTIFIER
    ensures k != EOF
  {
    if lexeme in Keywords then Keywords[lexeme] else IDENTIFIER
  }
}
