# Monkey front end: lexer and `let`-only parser

A Dafny model of the early lexer and parser of a Rust implementation of the
Monkey language, as the code stands:

- **Lexer** (module `Lexing`, `lexer.dfy`): a byte cursor (`position`,
  `readPosition`, `ch`) over an immutable input. Each `next_token` call returns
  one token: `= + , ; ( ) { }` map to their tokens, every digit byte is one
  `Int` token, a maximal run of ASCII letters and `_` is `Let` when it reads
  `let` and `Ident(text)` otherwise, the 0 sentinel (past the end, or a 0 byte
  inside the input) is `Eof`, and every other byte, whitespace included, is
  `Illegal`. The functions `RunEnd`, `Scan` and `Lexed` state what one call and
  a whole run of calls produce; the class `Lexer` is the cursor, and its
  methods are proved against those functions.
- **Parser** (module `Parsing`, `parser.dfy`): a two-token window (`currentToken`, `peekToken`)
  over the tokens its lexer hands out. `parse_program` loops until the current
  token is `Eof`, dispatching only `let`; a `let` needs an identifier in peek,
  takes its name and skips to the next `Semicolon` without checking for `=`;
  everything else is dropped. The lexer the parser owns is modelled as the
  sequence of tokens it hands out, read with `Eof` past the end (`Tokens.At`),
  plus the count of tokens pulled. `Lexing.LexedIsStream` proves that
  `Lexed(input, 0)` read this way is exactly what the real lexer returns, call
  by call, so the parser can be run over any token stream or over lexed text.
- **Composition** (module `Pipeline`, `pipeline.dfy`): because a `let` is a maximal run of
  letters, the lexer never puts an identifier right after it, so a program
  parsed from lexed source text never holds a statement
  (`Pipeline.LexedSourceHasNoStatements`). The repository's own
  `test_let_statements` (src/parser.rs:10-47) writes its statements with spaces
  and expects three of them; over the lexer as written it gets none. The model
  states that test over a token stream instead (`Parsing.LetStatementsParse`).

The complete Monkey front end has whitespace skipping, two-character
operators, seven keywords, multi-digit integers, `return` and expression
statements and an error list; this early revision of the code has none of
them, and the model follows the code. `Int` carries no value: src/token.rs:7
declares `Int(i64)`, but src/lexer.rs:97 builds a bare `Token::Int`, and the
model follows the lexer.

Files: `wrappers.dfy` (Option), `token.dfy`, `ast.dfy`, `lexer.dfy`,
`parser.dfy`, `pipeline.dfy`.

## Model

| member | source | states |
|---|---|---|
| Lexing.Text | src/lexer.rs:113-117 | an identifier's text has one character per input byte, with the same code |
| Lexing.RunEnd | src/lexer.rs:128-138 | the run of letters at the cursor is maximal: every byte before the end is an ASCII letter or `_`, the byte (or sentinel) at the end is not, and the end stays inside the input |
| Lexing.Scan | src/lexer.rs:95-126 | one `next_token` call always moves the cursor forward; from inside the input it stays inside it, and from the end of the input it moves exactly one byte |
| Lexing.ScanPastEnd | src/lexer.rs:86-124 | once the cursor is at or past the end, every call returns `Eof` and moves one byte: repeated `Eof` |
| Lexing.SingleByteTokens | src/lexer.rs:96-124 | a byte that is not a letter or `_` is one token and advances the cursor one byte; it is `Int` exactly for a digit, `Eof` exactly for 0, and `Illegal` exactly for any byte outside digits, 0 and `= + , ; ( ) { }` (space, tab, newline, `-`, `!`, non-ASCII) |
| Lexing.LetterStartsWord | src/lexer.rs:111-121 | a letter at the cursor gives a `let` or identifier token ending where the maximal letter run ends; it is `let` exactly when the run reads `let`, and otherwise an identifier with the run's text |
| Lexing.IdentIsMaximalRun | src/lexer.rs:112-119 | an `Ident` token's text is exactly the maximal letter run at the cursor, is never `let`, and the cursor stops on the first non-letter byte |
| Lexing.LexedIsStream | src/lexer.rs:95-126 | the n-th `next_token` result from a cursor position is the n-th token of `Lexed`, and `Eof` past its end |
| Lexing.AfterPastEnd | src/lexer.rs:85-93 | past the end of the input the cursor moves exactly one byte per call |
| Lexing.LexedEndsWithEof | src/lexer.rs:110 | the tokens scanned from any position inside the input end with `Eof` |
| Lexing.ScanCountsNul | src/lexer.rs:89-110 | one call inside the input returns `Eof` exactly when the byte it consumed is 0 |
| Lexing.EofCountsNulBytes | src/lexer.rs:86-110 | the scanned tokens hold one `Eof` per 0 byte inside the input plus one at its end, and no other |
| Lexing.WordNeverFollowsWord | src/lexer.rs:128-134 | a `let` or identifier token is never the last token and never directly followed by another one |
| Lexing.ScansPunctuation | src/lexer.rs:99-108 | `=+(){},;` scans to `Assign, Plus, LParen, RParen, LBrace, RBrace, Comma, Semicolon, Eof` |
| Lexing.DigitsAreSeparateTokens | src/lexer.rs:97 | `10` scans to `Int, Int, Eof` |
| Lexing.SpacesAreIllegal | src/lexer.rs:111-120 | `let x = 5;` scans with each space as `Illegal` |
| Lexing.EmbeddedNulIsEof | src/lexer.rs:85-110 | a 0 byte inside the input scans as `Eof`, and scanning continues after it |
| Lexing.Lexer.constructor | src/lexer.rs:73-83 | `new` leaves the cursor on byte 0 with the cursor invariant |
| Lexing.Lexer.ReadChar | src/lexer.rs:85-93 | `read_char` moves `position` to the old `readPosition`, bumps `readPosition`, and sets `ch` to the byte there or 0 past the end, from any state |
| Lexing.Lexer.NextToken | src/lexer.rs:95-126 | `next_token` returns the token `Scan` gives and leaves the cursor where `Scan` says, keeping the cursor invariant |
| Lexing.Lexer.ReadIdentifier | src/lexer.rs:128-134 | `read_identifier` leaves the cursor at the end of the maximal letter run and returns the bytes it passed |
| Parsing.SemicolonFrom | src/parser.rs:108-110 | the index the skip loop stops at holds a `Semicolon`, at or after the position it starts from and inside the stream |
| Parsing.SemicolonFromIsFirst | src/parser.rs:108-110 | that `Semicolon` is the first one from the start position, and the loop finds none only when no `Semicolon` is left |
| Parsing.LetStatementAt | src/parser.rs:95-113 | a `let` parse that returns leaves the current token at or after where it started, and inside the stream when it started inside it |
| Parsing.LetStatementMeaning | src/parser.rs:95-113 | with an identifier in peek, a `let` of that name that stops on the first `Semicolon` after it, or spins when there is none; otherwise nothing, with the window left alone; no `Assign` check |
| Parsing.StatementAt | src/parser.rs:88-93 | a statement parse that returns leaves the current token at or after where it started, and inside the stream when it started inside it |
| Parsing.StatementAtMeaning | src/parser.rs:88-93 | only a current `let` can yield a statement; any other token yields nothing and moves nothing |
| Parsing.ProgramStep | src/parser.rs:77-83 | one loop turn: the program from a non-`Eof` token is the statement parsed there, if any, followed by the program after the token that parse stopped on, and one returns exactly when the other does |
| Parsing.ProgramTurn | src/parser.rs:77-83 | the loop's invariant, statements so far followed by the rest of the program, is kept by one turn, and the turn moves forward inside the stream |
| Parsing.SemicolonFromShift | src/parser.rs:108-110 | the skip loop stops on the same `Semicolon` when tokens are put in front of the stream |
| Parsing.StatementAtShift | src/parser.rs:88-113 | a statement parse depends only on the tokens from the current one on |
| Parsing.ProgramFromShift | src/parser.rs:74-86 | the program parsed from a token depends only on the tokens from that one on |
| Parsing.LetSegmentParse | src/parser.rs:95-113 | the tokens of `let <name> = <digit>;` in front of a program that returns add one `let` of that name in front of its statements |
| Parsing.ProgramEndIsEof | src/parser.rs:77-85 | a `parse_program` that returns stops with an `Eof` token as current, and at the end of the stream when the stream holds no `Eof` token |
| Parsing.ProgramIsLets | src/parser.rs:74-86 | every parsed statement is a `let` whose name is an identifier token of the stream |
| Parsing.AtMostOneStatementPerLet | src/parser.rs:74-86 | there are no more statements than `let` tokens |
| Parsing.SpinsOnlyOnUnterminatedLet | src/parser.rs:108-110 | `parse_program` fails to return only when some `let` with an identifier after it has no later `Semicolon` |
| Parsing.UnterminatedLetSpins | src/parser.rs:77-110 | such a `let`, with no `Eof` token before it, does make `parse_program` spin |
| Parsing.NoLetIdentNoStatements | src/parser.rs:88-99 | a stream with no `let` directly followed by an identifier parses to no statements, and the parse returns |
| Parsing.LetStatementsParse | src/parser.rs:10-47 | `let x = 5; let y = 10; let foobar = 838383;` as tokens parses to `let` statements named `x`, `y`, `foobar`, in order |
| Parsing.LetStatementsTest | src/parser.rs:10-47 | the same test driven through the `Parser` class |
| Parsing.Parser.constructor | src/parser.rs:56-67 | after `new` the window holds the first and second tokens |
| Parsing.Parser.NextToken | src/parser.rs:69-72 | the current token becomes the old peek, the peek the next token pulled, and nothing else changes |
| Parsing.Parser.ParseProgram | src/parser.rs:74-86 | returns with the current token the `Eof` that `ProgramEnd` names, the window on it, and the statements of `ProgramFrom`, in the order parsed |
| Parsing.Parser.ParseStatement | src/parser.rs:88-93 | does what `StatementAt` says |
| Parsing.Parser.ParseLetStatement | src/parser.rs:95-113 | does what `LetStatementAt` says |
| Parsing.Parser.ParseIdentifier | src/parser.rs:115-120 | yields a name exactly when the current token is an identifier, and that identifier's name |
| Parsing.Parser.ExpectPeek | src/parser.rs:122-129 | returns true and shifts the window exactly when peek is the given token; otherwise changes nothing |
| Pipeline.LetNeverBeforeIdent | src/lexer.rs:112-134 | in lexed text, no `let` token is directly followed by an identifier |
| Pipeline.LexedSourceHasNoStatements | src/parser.rs:95-99 | parsing lexed source text always returns, with no statements |
| Pipeline.ParseSource | src/parser.rs:17-20 | `Parser::new(Lexer::new(input))` then `parse_program` yields an empty program |

`Lexing.IsLetter` (src/lexer.rs:136-138), `Lexing.ByteToken` (the match arms
at src/lexer.rs:96-110), `Lexing.Lexed` (the tokens of successive
`next_token` calls from a cursor position up to and including the first call
made from the end of the input, src/lexer.rs:95-126), `Lexing.After` (the
cursor position after `n` such calls), `Parsing.ProgramFrom` (the statements
of the loop at src/parser.rs:77-83) and `Parsing.ProgramEnd` (the index of the
`Eof` that loop stops on) are the definitions the rows above are stated with.

## Left out

- src/main.rs: the interactive read loop (stdin, prompt, printing) is I/O.
- src/lib.rs: module declarations and a trivial token equality test; nothing to model.
- The `Node` enum at src/ast.rs:1-4 is unused by the code.
- The test at src/lexer.rs:3-63 expects whitespace skipping, a `fn` keyword and placeholder identifiers that the code does not produce; no property is taken from it.
- `Token::Function` is declared but never produced; `Statement::Return` is declared but never built.
- The payload of `Token::Int(i64)`: the lexer never builds one.
- `usize` overflow of `read_position`: positions are unbounded naturals.
- UTF-8 concerns of `&str` slicing: the input is a byte sequence, and identifier runs are ASCII, so the slice taken by `read_identifier` never splits a character.
- The parser's lexer is a token sequence plus a pull count rather than a `Lexer` object; `Lexing.LexedIsStream` ties the two.
- Parsing.Parser.ParseProgram: requires that the loop returns (`ProgramFrom` is `Some`); the source spins forever otherwise, which `Parsing.UnterminatedLetSpins` characterises.
- Parsing.Parser.ParseStatement: requires that the statement parse returns, for the same reason.
- Parsing.Parser.ParseLetStatement: requires a `Semicolon` after an identifier in peek, for the same reason.
- Lexing.Lexer.ReadIdentifier: requires the cursor not past the end of the input, since the source's slice would panic there; `next_token` only calls it on a letter.
