/** The syntax tree of src/ast.rs. */
module Ast {

  datatype Expression = Identifier(text: string)

  /** `Let` does not yet hold its bound value and `Return` holds nothing. */
  datatype Statement = Let(name: Expression) | Return

  datatype Program = Program(statements: seq<Statement>)
}
