/** Tokens as the expression parser receives them from the lexer.

    The lexer itself is not part of this model: a token stream is given as a
    sequence of lexemes, each either a classified token with its byte range or
    a lexical error at some byte range.
 */
module Tokens {

  datatype Option<+T> = None | Some(value: T)

  /** A half-open byte range `[startByte, endByte)` of the source text. */
  datatype Location = Location(startByte: nat, endByte: nat)

  datatype Operator =
    | Plus | Minus | Star | Slash
    | Equal | EqualEqual | NotEqual
    | Less | LessEqual | Greater | GreaterEqual
    | And | Or | Bang
    | LeftParen | RightParen | LeftBrace | RightBrace
    | Comma | Colon | SemiColon | Dot

  /** Literal payloads are copied into the tree as they are; the float is
      carried as its bit pattern and never interpreted. */
  datatype Primitive =
    | Int(intValue: int, size: nat)
    | UInt(uintValue: nat, size: nat)
    | Float(floatBits: nat, size: nat)
    | Bool(boolValue: bool)

  datatype Value =
    | Ident(name: string)
    | Primitive(primitive: Primitive)
    | OtherValue(text: string)

  /** `Other` stands for every keyword the expression grammar does not use. */
  datatype Kind =
    | Value(value: Value)
    | Op(operator: Operator)
    | Var | Const | If | Else | Return
    | Other

  datatype Token = Token(kind: Kind, loc: Location)

  /** The binary operators of the lexer's `Kind::is_binary_op`. */
  predicate IsBinaryOp(op: Operator)
  {
    op in {Plus, Minus, Star, Slash, EqualEqual, NotEqual,
           Less, LessEqual, Greater, GreaterEqual, And, Or}
  }
}
