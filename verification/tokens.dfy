/** The tokens the parser consumes. The lexer that produces them is not part
    of this model; what the parser relies on is recorded in `WellFormed`. */
module Tokens {

  /** Lexical categories used by the parser, plus the identifier and `=`
      kinds that the `Assign` and `Variable` nodes are built from. */
  datatype TokenKind =
    | LeftParen | RightParen | Bang | BangEqual | Equal | EqualEqual
    | Greater | GreaterEqual | Less | LessEqual
    | Minus | Plus | Slash | Star | SemiColon
    | Identifier | String | Number
    | Class | False | Fun | For | If | Null | Output | Return | Set | True | While
    | Eof

  /** The literal value the lexer attached to a token. The parser never looks
      inside it, it only copies it into `Literal` nodes. */
  type Payload = string

  /** Payload of tokens that carry no literal value. */
  const NoPayload: Payload := ""

  datatype Token = Token(kind: TokenKind, literal: Payload)

  /** The lexer's guarantee: the sequence is terminated by an end-of-input
      token. Without it `peek` would read past the end. */
  predicate WellFormed(ts: seq<Token>)
  {
    |ts| > 0 && ts[|ts| - 1].kind == Eof
  }
}

/** Optional values, standing for Python's `None`. */
module Options {
  datatype Option<T> = None | Some(value: T)
}
