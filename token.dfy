/** The token model of src/token.rs. */
module Tokens {

  /**
   * One lexical unit.
   * `Int` carries no payload: src/token.rs declares `Int(i64)`, but the lexer
   * (src/lexer.rs) builds a bare `Token::Int` for every digit byte, and the
   * model follows the lexer. `Function` is declared but never produced.
   */
  datatype Token =
    | Illegal
    | Eof
    | Ident(text: string)
    | Int
    | Assign
    | Plus
    | Comma
    | Semicolon
    | LParen
    | RParen
    | LBrace
    | RBrace
    | Function
    | Let
  {
    /** A token made from a run of letters: the keyword `let` or an identifier. */
    predicate IsWord() {
      Ident? || Let?
    }
  }

  /** A token sequence read as a stream: the token at `k`, or `Eof` past the end. */
  function At(ts: seq<Token>, k: nat): Token {
    if k < |ts| then ts[k] else Eof
  }
}
