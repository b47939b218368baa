/**
 * The parser of src/parser.rs: a two-token window (`currentToken`,
 * `peekToken`) over the tokens its lexer hands out, and the `let`-only
 * statement loop built on it.
 *
 * The lexer the parser owns is modelled by the sequence of tokens it would
 * hand out, read with `Eof` past the end (`At`), and by the count of tokens
 * pulled so far; `Lexing.LexedIsStream` shows that the sequence `Lexed`
 * reproduces the real lexer call by call. The functions `StatementAt` and
 * `ProgramFrom` say what one statement parse and the whole program parse
 * produce when the current token is the one at index `k`.
 */
module Parsing {
  import opened Wrappers
  import opened Tokens
  import opened Ast

  /** The first index at or after `k` that holds a `Semicolon`, if there is one. */
  function SemicolonFrom(ts: seq<Token>, k: nat): (r: Option<nat>)
    ensures r.Some? ==> k <= r.value < |ts| && ts[r.value] == Semicolon
    decreases |ts| - k
  {
    if k >= |ts| then None
    else if ts[k] == Semicolon then Some(k)
    else SemicolonFrom(ts, k + 1)
  }

  /** `SemicolonFrom` finds the first `Semicolon`, and finds none only when there is none. */
  lemma {:induction false} SemicolonFromIsFirst(ts: seq<Token>, k: nat)
    ensures var r := SemicolonFrom(ts, k);
      (r.Some? ==> forall j :: k <= j < r.value ==> ts[j] != Semicolon) &&
      (r.None? ==> forall j :: k <= j < |ts| ==> ts[j] != Semicolon)
    decreases |ts| - k
  {
    if k < |ts| && ts[k] != Semicolon {
      SemicolonFromIsFirst(ts, k + 1);
    }
  }

  /** What one statement parse does. */
  datatype Step =
      /** It returned `statement` and left the current token at index `cursor`. */
    | Parsed(statement: Option<Statement>, cursor: nat)
      /** It never returns: the skip loop of `parse_let_statement` finds no `Semicolon`. */
    | Spins

  /**
   * `parse_let_statement` with the current token at `k`: a `let` named by the
   * identifier in peek that stops on the next `Semicolon`, spinning when there
   * is none, or nothing when peek is not an identifier (`LetStatementMeaning`).
   */
  function LetStatementAt(ts: seq<Token>, k: nat): (s: Step)
    ensures s.Parsed? ==> k <= s.cursor && (k < |ts| ==> s.cursor < |ts|)
  {
    match At(ts, k + 1)
    case Ident(name) =>
      (match SemicolonFrom(ts, k + 1)
       case Some(j) => Parsed(Some(Statement.Let(Identifier(name))), j)
       case None => Spins)
    case _ => Parsed(None, k)
  }

  /**
   * With an identifier in peek, `parse_let_statement` yields a `let` of that
   * name and stops on the first `Semicolon` after it (there is no check for
   * `Assign`), or spins when there is none; otherwise it yields nothing and
   * leaves the window alone.
   */
  lemma LetStatementMeaning(ts: seq<Token>, k: nat)
    ensures var s := LetStatementAt(ts, k);
      (s.Spins? <==> At(ts, k + 1).Ident? && forall j :: k + 1 <= j < |ts| ==> ts[j] != Semicolon) &&
      (s.Parsed? && s.statement.None? ==> s.cursor == k && !At(ts, k + 1).Ident?) &&
      (s.Parsed? && s.statement.Some? ==>
        At(ts, k + 1).Ident? &&
        s.statement.value == Statement.Let(Identifier(At(ts, k + 1).text)) &&
        k + 1 < s.cursor < |ts| && ts[s.cursor] == Semicolon &&
        forall j :: k + 1 <= j < s.cursor ==> ts[j] != Semicolon)
  {
    SemicolonFromIsFirst(ts, k + 1);
  }

  /**
   * `parse_statement` with the current token at `k`: only `let` is
   * dispatched, and every other token yields nothing and moves nothing.
   */
  function StatementAt(ts: seq<Token>, k: nat): (s: Step)
    ensures s.Parsed? ==> k <= s.cursor && (k < |ts| ==> s.cursor < |ts|)
  {
    if At(ts, k) == Token.Let then LetStatementAt(ts, k) else Parsed(None, k)
  }

  /** Only a current `let` can yield a statement, and any other token yields nothing and moves nothing. */
  lemma StatementAtMeaning(ts: seq<Token>, k: nat)
    ensures var s := StatementAt(ts, k);
      (s.Parsed? && s.statement.Some? ==> At(ts, k) == Token.Let && s.statement.value.Let?) &&
      (At(ts, k) != Token.Let ==> s == Parsed(None, k))
  {
  }

  /**
   * `parse_program` with the current token at `k`: the statements it returns,
   * in order, or `None` when it never returns.
   */
  function ProgramFrom(ts: seq<Token>, k: nat): Option<seq<Statement>>
    decreases |ts| - k
  {
    if At(ts, k) == Eof then Some([])
    else
      match StatementAt(ts, k)
      case Spins => None
      case Parsed(statement, j) =>
        match ProgramFrom(ts, j + 1)
        case None => None
        case Some(rest) => Some(Emitted(statement) + rest)
  }

  /**
   * `parse_program` with the current token at `k`: the index of the `Eof` it
   * stops on (`k` itself when it never returns).
   */
  function ProgramEnd(ts: seq<Token>, k: nat): (e: nat)
    ensures k <= e
    decreases |ts| - k
  {
    if At(ts, k) == Eof then k
    else
      match StatementAt(ts, k)
      case Spins => k
      case Parsed(_, j) => ProgramEnd(ts, j + 1)
  }

  /**
   * When `parse_program` returns, it stops on the first `Eof` token it meets
   * as current token; that token is the end of the stream when the stream
   * holds no `Eof` of its own.
   */
  lemma {:induction false} ProgramEndIsEof(ts: seq<Token>, k: nat)
    requires ProgramFrom(ts, k).Some?
    ensures At(ts, ProgramEnd(ts, k)) == Eof
    ensures (forall i :: k <= i < |ts| ==> ts[i] != Eof) ==> ProgramEnd(ts, k) == if k < |ts| then |ts| else k
    decreases |ts| - k
  {
    if At(ts, k) != Eof {
      ProgramStep(ts, k);
      ProgramEndIsEof(ts, StatementAt(ts, k).cursor + 1);
    }
  }

  /** The statement list a parse step contributes: none or one. */
  function Emitted(statement: Option<Statement>): (r: seq<Statement>)
    ensures |r| <= 1
  {
    if statement.Some? then [statement.value] else []
  }

  /**
   * One turn of the `parse_program` loop: the program from `k` is what the
   * statement parse at `k` emits followed by the program after the token it
   * stopped on.
   */
  lemma ProgramStep(ts: seq<Token>, k: nat)
    requires At(ts, k) != Eof && StatementAt(ts, k).Parsed?
    ensures var j := StatementAt(ts, k).cursor;
      k < |ts| && j < |ts| &&
      (ProgramFrom(ts, k).Some? <==> ProgramFrom(ts, j + 1).Some?) &&
      (ProgramFrom(ts, k).Some? ==>
        ProgramFrom(ts, k).value == Emitted(StatementAt(ts, k).statement) + ProgramFrom(ts, j + 1).value)
  {
    var j := StatementAt(ts, k).cursor;
    if StatementAt(ts, k).statement.None? {
      var rest := ProgramFrom(ts, j + 1);
      if rest.Some? {
        assert Emitted(None) + rest.value == rest.value;
      }
    }
  }

  /**
   * One turn of the `parse_program` loop seen from its invariant: when the
   * statements so far followed by the program from `k` make up `total`, the
   * statement parse at `k` returns, and the statements so far with what it
   * emits, followed by the program after the token it stopped on, still
   * make up `total`.
   */
  lemma ProgramTurn(ts: seq<Token>, k: nat, statements: seq<Statement>, total: seq<Statement>)
    requires At(ts, k) != Eof && ProgramFrom(ts, k).Some?
    requires statements + ProgramFrom(ts, k).value == total
    ensures StatementAt(ts, k).Parsed?
    ensures var s := StatementAt(ts, k);
      k < s.cursor + 1 <= |ts| && ProgramFrom(ts, s.cursor + 1).Some? &&
      ProgramEnd(ts, s.cursor + 1) == ProgramEnd(ts, k) &&
      (statements + Emitted(s.statement)) + ProgramFrom(ts, s.cursor + 1).value == total
  {
    var s := StatementAt(ts, k);
    ProgramStep(ts, k);
    var rest := ProgramFrom(ts, s.cursor + 1).value;
    assert statements + (Emitted(s.statement) + rest) == (statements + Emitted(s.statement)) + rest;
  }

  /** Every statement of a program is a `let` named by an identifier token of the stream. */
  lemma {:induction false} ProgramIsLets(ts: seq<Token>, k: nat)
    requires k <= |ts| && ProgramFrom(ts, k).Some?
    ensures var statements := ProgramFrom(ts, k).value;
      forall i :: 0 <= i < |statements| ==>
        statements[i].Let? && Ident(statements[i].name.text) in ts[k..]
    decreases |ts| - k
  {
    if At(ts, k) != Eof {
      var statements := ProgramFrom(ts, k).value;
      match StatementAt(ts, k)
      case Parsed(statement, j) =>
        ProgramStep(ts, k);
        ProgramIsLets(ts, j + 1);
        var rest := ProgramFrom(ts, j + 1).value;
        assert ts[j + 1..] == ts[k..][j + 1 - k..];
        if statement.Some? {
          assert statements == [statement.value] + rest;
          assert ts[k + 1] == Ident(statement.value.name.text);
          assert ts[k + 1] == ts[k..][1];
        } else {
          assert statements == rest;
        }
    }
  }

  /** Each statement comes from its own `let` token: there are no more statements than `let` tokens. */
  lemma {:induction false} AtMostOneStatementPerLet(ts: seq<Token>, k: nat)
    requires k <= |ts| && ProgramFrom(ts, k).Some?
    ensures |ProgramFrom(ts, k).value| <= multiset(ts[k..])[Token.Let]
    decreases |ts| - k
  {
    if At(ts, k) != Eof {
      var s := StatementAt(ts, k);
      var j := s.cursor;
      ProgramStep(ts, k);
      var rest := ProgramFrom(ts, j + 1).value;
      assert ProgramFrom(ts, k).value == Emitted(s.statement) + rest;
      AtMostOneStatementPerLet(ts, j + 1);
      if s.statement.Some? {
        StatementAtMeaning(ts, k);
        LetsInSuffix(ts, k + 1, j + 1);
        assert ts[k..] == [ts[k]] + ts[k + 1..];
        assert multiset(ts[k..])[Token.Let] == multiset(ts[k + 1..])[Token.Let] + 1;
      } else {
        LetsInSuffix(ts, k, j + 1);
      }
    }
  }

  /** A suffix holds no more `let` tokens than a longer suffix. */
  lemma LetsInSuffix(ts: seq<Token>, a: nat, b: nat)
    requires a <= b <= |ts|
    ensures multiset(ts[b..])[Token.Let] <= multiset(ts[a..])[Token.Let]
  {
    assert ts[a..] == ts[a..b] + ts[b..];
  }

  /**
   * The loop is stuck at index `i`: a `let` with an identifier after it and no
   * `Semicolon` anywhere after the identifier.
   */
  predicate UnterminatedLet(ts: seq<Token>, k: nat, i: nat) {
    k <= i && i + 1 < |ts| && ts[i] == Token.Let && ts[i + 1].Ident? &&
    SemicolonFrom(ts, i + 1).None?
  }

  /** `parse_program` never returns only because of an unterminated `let`. */
  lemma {:induction false} SpinsOnlyOnUnterminatedLet(ts: seq<Token>, k: nat)
    requires ProgramFrom(ts, k).None?
    ensures exists i :: UnterminatedLet(ts, k, i)
    decreases |ts| - k
  {
    match StatementAt(ts, k)
    case Spins =>
      assert UnterminatedLet(ts, k, k);
    case Parsed(_, j) =>
      SpinsOnlyOnUnterminatedLet(ts, j + 1);
      var i :| UnterminatedLet(ts, j + 1, i);
      assert UnterminatedLet(ts, k, i);
  }

  /**
   * Conversely, an unterminated `let` with no `Eof` token before it makes
   * `parse_program` spin: the loop cannot stop early, and no statement
   * before it can skip past it.
   */
  lemma {:induction false} UnterminatedLetSpins(ts: seq<Token>, k: nat, i: nat)
    requires UnterminatedLet(ts, k, i)
    requires forall j :: k <= j < i ==> ts[j] != Eof
    ensures ProgramFrom(ts, k).None?
    decreases i - k
  {
    if k < i {
      match StatementAt(ts, k)
      case Spins =>
      case Parsed(_, j) =>
        SemicolonFromIsFirst(ts, i + 1);
        assert j < i;
        UnterminatedLetSpins(ts, j + 1, i);
    }
  }

  /**
   * A stream with no `let` directly followed by an identifier parses to an
   * empty program: every other statement start is dropped.
   */
  lemma {:induction false} NoLetIdentNoStatements(ts: seq<Token>, k: nat)
    requires NoLetThenIdent(ts, k)
    ensures ProgramFrom(ts, k) == Some([])
    decreases |ts| - k
  {
    if At(ts, k) != Eof {
      assert StatementAt(ts, k) == Parsed(None, k);
      ProgramStep(ts, k);
      NoLetIdentNoStatements(ts, k + 1);
      assert Emitted(None) + [] == [];
    }
  }

  /** From index `k` on, no `let` is directly followed by an identifier. */
  predicate NoLetThenIdent(ts: seq<Token>, k: nat) {
    forall i :: k <= i < |ts| && ts[i] == Token.Let ==> !At(ts, i + 1).Ident?
  }

  /** A first `Semicolon` index seen from `n` tokens further on. */
  function Shifted(r: Option<nat>, n: nat): Option<nat> {
    match r
    case None => None
    case Some(j) => Some(n + j)
  }

  /** The skip loop finds the same `Semicolon` in `ts` when more tokens come before it. */
  lemma {:induction false} SemicolonFromShift(p: seq<Token>, ts: seq<Token>, k: nat)
    ensures SemicolonFrom(p + ts, |p| + k) == Shifted(SemicolonFrom(ts, k), |p|)
    decreases |ts| - k
  {
    if k < |ts| {
      assert (p + ts)[|p| + k] == ts[k];
      if ts[k] != Semicolon {
        SemicolonFromShift(p, ts, k + 1);
      }
    }
  }

  /** One statement parse from the same token of `p + ts` does the same, `|p|` tokens further on. */
  lemma StatementAtShift(p: seq<Token>, ts: seq<Token>, k: nat)
    ensures StatementAt(p + ts, |p| + k) ==
      match StatementAt(ts, k)
      case Spins => Spins
      case Parsed(statement, j) => Parsed(statement, |p| + j)
  {
    assert At(p + ts, |p| + k) == At(ts, k);
    assert At(p + ts, |p| + k + 1) == At(ts, k + 1);
    SemicolonFromShift(p, ts, k + 1);
  }

  /**
   * Parsing depends only on the tokens from the cursor on: the program parsed
   * from index `k` of `ts` is the one parsed from the same token of `p + ts`.
   */
  lemma {:induction false} ProgramFromShift(p: seq<Token>, ts: seq<Token>, k: nat)
    ensures ProgramFrom(p + ts, |p| + k) == ProgramFrom(ts, k)
    decreases |ts| - k
  {
    assert At(p + ts, |p| + k) == At(ts, k);
    StatementAtShift(p, ts, k);
    if At(ts, k) != Eof {
      match StatementAt(ts, k)
      case Spins =>
      case Parsed(_, j) =>
        ProgramFromShift(p, ts, j + 1);
    }
  }

  /** The tokens of `let <name> = <digit>;`. */
  function LetSegment(name: string): seq<Token> {
    [Token.Let, Ident(name), Assign, Int, Semicolon]
  }

  /** A `let <name> = <digit>;` in front of a program adds its statement in front. */
  lemma LetSegmentParse(name: string, rest: seq<Token>)
    requires ProgramFrom(rest, 0).Some?
    ensures ProgramFrom(LetSegment(name) + rest, 0) ==
      Some([Statement.Let(Identifier(name))] + ProgramFrom(rest, 0).value)
  {
    var ts := LetSegment(name) + rest;
    assert ts[..5] == LetSegment(name);
    assert SemicolonFrom(ts, 4) == Some(4);
    assert SemicolonFrom(ts, 3) == Some(4);
    assert SemicolonFrom(ts, 2) == Some(4);
    assert SemicolonFrom(ts, 1) == Some(4);
    ProgramFromShift(LetSegment(name), rest, 0);
  }

  /**
   * The tokens the source's test means by `let x = 5; let y = 10; let foobar = 838383;`,
   * with `Eof` last: what a lexer that skips spaces and reads a whole number as
   * one `Int` would give. The lexer of `Lexing` gives an `Illegal` per space and
   * one `Int` per digit instead.
   */
  function LetStatementsStream(): seq<Token> {
    LetSegment("x") + (LetSegment("y") + (LetSegment("foobar") + [Eof]))
  }

  /** That stream parses to three `let` statements named `x`, `y` and `foobar`, in order. */
  lemma LetStatementsParse()
    ensures ProgramFrom(LetStatementsStream(), 0) == Some([
      Statement.Let(Identifier("x")), Statement.Let(Identifier("y")), Statement.Let(Identifier("foobar"))])
  {
    var x, y, foobar := Statement.Let(Identifier("x")), Statement.Let(Identifier("y")), Statement.Let(Identifier("foobar"));
    assert ProgramFrom([Eof], 0) == Some([]);
    LetSegmentParse("foobar", [Eof]);
    LetSegmentParse("y", LetSegment("foobar") + [Eof]);
    LetSegmentParse("x", LetSegment("y") + (LetSegment("foobar") + [Eof]));
    assert [x] + ([y] + ([foobar] + [])) == [x, y, foobar];
  }

  /**
   * The `Parser` of src/parser.rs. The lexer it owns is the sequence `tokens`
   * and the number `pulled` of tokens taken from it so far.
   */
  class Parser {
    const tokens: seq<Token>
    var pulled: nat
    var currentToken: Token
    var peekToken: Token

    /** The window holds the last two tokens pulled. */
    ghost predicate Valid()
      reads this
    {
      2 <= pulled && currentToken == At(tokens, pulled - 2) && peekToken == At(tokens, pulled - 1)
    }

    /** The index of the current token. */
    ghost function Cursor(): nat
      reads this
      requires Valid()
    {
      pulled - 2
    }

    /** `new`: the window holds the first two tokens of the lexer. */
    constructor (tokens: seq<Token>)
      ensures this.tokens == tokens && Valid() && Cursor() == 0
      ensures currentToken == At(tokens, 0) && peekToken == At(tokens, 1)
    {
      this.tokens := tokens;
      pulled, currentToken, peekToken := 0, Eof, Eof;
      new;
      NextToken();
      NextToken();
    }

    /** `next_token`: shift the window by one token pulled from the lexer. */
    method NextToken()
      modifies this
      ensures currentToken == old(peekToken)
      ensures peekToken == At(tokens, old(pulled)) && pulled == old(pulled) + 1
      ensures old(Valid()) ==> Valid() && Cursor() == old(Cursor()) + 1
    {
      currentToken := peekToken;
      peekToken := At(tokens, pulled);
      pulled := pulled + 1;
    }

    /**
     * `parse_program`: collect the statements up to the current token `Eof`.
     * The source spins when a `let` is never terminated, so the caller must
     * rule that out.
     */
    method ParseProgram() returns (program: Program)
      requires Valid() && ProgramFrom(tokens, Cursor()).Some?
      modifies this
      ensures Valid() && currentToken == Eof && Cursor() == ProgramEnd(tokens, old(Cursor()))
      ensures program.statements == ProgramFrom(tokens, old(Cursor())).value
    {
      var statements: seq<Statement> := [];
      ghost var end := ProgramEnd(tokens, Cursor());
      ghost var total := ProgramFrom(tokens, Cursor()).value;
      ghost var k := Cursor();
      while currentToken != Eof
        invariant Valid() && Cursor() == k && ProgramFrom(tokens, k).Some?
        invariant statements + ProgramFrom(tokens, k).value == total
        invariant ProgramEnd(tokens, k) == end
        decreases |tokens| - k
      {
        ProgramTurn(tokens, k, statements, total);
        ghost var step := StatementAt(tokens, k);
        ghost var before := statements;
        var statement := ParseStatement();
        if statement.Some? {
          statements := statements + [statement.value];
        }
        assert statements == before + Emitted(step.statement);
        NextToken();
        k := step.cursor + 1;
      }
      program := Program(statements);
    }

    /** `parse_statement`: dispatch on the current token. */
    method ParseStatement() returns (statement: Option<Statement>)
      requires Valid() && !StatementAt(tokens, Cursor()).Spins?
      modifies this
      ensures Valid() && StatementAt(tokens, old(Cursor())) == Parsed(statement, Cursor())
    {
      if currentToken == Token.Let {
        statement := ParseLetStatement();
      } else {
        statement := None;
      }
    }

    /**
     * `parse_let_statement`: with an identifier in peek, step onto it, take
     * its name and skip to the next `Semicolon`.
     */
    method ParseLetStatement() returns (statement: Option<Statement>)
      requires Valid() && !LetStatementAt(tokens, Cursor()).Spins?
      modifies this
      ensures Valid() && LetStatementAt(tokens, old(Cursor())) == Parsed(statement, Cursor())
    {
      if !peekToken.Ident? {
        return None;
      }
      ghost var semicolon := SemicolonFrom(tokens, Cursor() + 1).value;
      SemicolonFromIsFirst(tokens, Cursor() + 1);
      NextToken();
      // The `?` on `parse_identifier` cannot fail: the current token is the identifier.
      var name := ParseIdentifier().value;
      statement := Some(Statement.Let(Identifier(name)));
      while currentToken != Semicolon
        invariant Valid() && Cursor() <= semicolon
        invariant forall j :: old(Cursor()) + 1 <= j < Cursor() ==> tokens[j] != Semicolon
        decreases semicolon - Cursor()
      {
        NextToken();
      }
    }

    /** `parse_identifier`: the name in the current token, if it is an identifier. */
    function ParseIdentifier(): (name: Option<string>)
      reads this
      ensures name.Some? <==> currentToken.Ident?
      ensures name.Some? ==> currentToken == Ident(name.value)
    {
      match currentToken
      case Ident(n) => Some(n)
      case _ => None
    }

    /**
     * `expect_peek`: shift the window exactly when the peek token is `t`;
     * otherwise leave it as it is.
     */
    method ExpectPeek(t: Token) returns (ok: bool)
      modifies this
      ensures ok <==> old(peekToken) == t
      ensures ok ==>
        currentToken == old(peekToken) && peekToken == At(tokens, old(pulled)) && pulled == old(pulled) + 1
      ensures !ok ==> unchanged(this)
    {
      if peekToken == t {
        NextToken();
        return true;
      } else {
        return false;
      }
    }
  }

  /** `test_let_statements`, driven over the token stream. */
  method LetStatementsTest() returns (program: Program)
    ensures program.statements ==
      [Statement.Let(Identifier("x")), Statement.Let(Identifier("y")), Statement.Let(Identifier("foobar"))]
  {
    LetStatementsParse();
    var parser := new Parser(LetStatementsStream());
    program := parser.ParseProgram();
  }
}
