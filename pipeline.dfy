/**
 * The parser fed by the lexer, as src/parser.rs wires them: `Parser::new`
 * takes a `Lexer` over the source text.
 */
module Pipeline {
  import opened Tokens
  import opened Ast
  import opened Wrappers
  import opened Lexing
  import opened Parsing

  /**
   * In what the lexer produces, `let` is never directly followed by an
   * identifier: `let` is a maximal run of letters, so the byte after it is
   * not a letter and cannot start one.
   */
  lemma LetNeverBeforeIdent(input: seq<byte>)
    ensures NoLetThenIdent(Lexed(input, 0), 0)
  {
    var ts := Lexed(input, 0);
    WordNeverFollowsWord(input, 0);
    forall i | 0 <= i < |ts| && ts[i] == Token.Let
      ensures !At(ts, i + 1).Ident?
    {
      assert ts[i].IsWord();
    }
  }

  /**
   * So a program parsed from lexed source text never holds a statement, and
   * the parse always returns: the source's own `test_let_statements`, which
   * spells its statements with spaces, gets none of the three it expects.
   */
  lemma LexedSourceHasNoStatements(input: seq<byte>)
    ensures ProgramFrom(Lexed(input, 0), 0) == Some([])
  {
    LetNeverBeforeIdent(input);
    NoLetIdentNoStatements(Lexed(input, 0), 0);
  }

  /** `Parser::new(Lexer::new(input))` followed by `parse_program`. */
  method ParseSource(input: seq<byte>) returns (program: Program)
    ensures program.statements == []
  {
    LexedSourceHasNoStatements(input);
    var parser := new Parser(Lexed(input, 0));
    program := parser.ParseProgram();
  }
}
