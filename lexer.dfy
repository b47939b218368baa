/**
 * The lexer of src/lexer.rs: a byte cursor over an immutable input that
 * hands out one token per call to `next_token`.
 *
 * The functions `RunEnd`, `Scan` and `Lexed` say what one call and a whole
 * run of calls produce; the class `Lexer` is the cursor itself, and each of
 * its methods is proved against those functions.
 */
module Lexing {
  import opened Tokens

  /** One input byte; the source reads `input.as_bytes()` into a `u8`. */
  newtype byte = b: int | 0 <= b < 256

  /** The byte the cursor sees at `i`: the input byte, or the 0 sentinel past the end. */
  function ByteAt(input: seq<byte>, i: nat): byte {
    if i < |input| then input[i] else 0
  }

  /** `is_letter`: an ASCII letter or `_`. */
  predicate IsLetter(c: byte) {
    ('a' as byte <= c <= 'z' as byte) || ('A' as byte <= c <= 'Z' as byte) || c == '_' as byte
  }

  predicate IsDigit(c: byte) {
    '0' as byte <= c <= '9' as byte
  }

  /** The text of a run of bytes, one character per byte. */
  function Text(bytes: seq<byte>): (s: string)
    ensures |s| == |bytes|
    ensures forall i :: 0 <= i < |bytes| ==> s[i] as int == bytes[i] as int
  {
    if bytes == [] then [] else [bytes[0] as int as char] + Text(bytes[1..])
  }

  /**
   * Where the run of letters that starts at `i` ends: the first position at
   * or after `i` whose byte (or sentinel) is not a letter.
   */
  function RunEnd(input: seq<byte>, i: nat): (e: nat)
    ensures i <= e
    ensures i < e ==> e <= |input|
    ensures forall k :: i <= k < e ==> IsLetter(input[k])
    ensures !IsLetter(ByteAt(input, e))
    decreases |input| - i
  {
    if IsLetter(ByteAt(input, i)) then
      assert i < |input|;
      RunEnd(input, i + 1)
    else
      i
  }

  /** The token for a byte that does not start a run of letters. */
  function ByteToken(c: byte): Token {
    if IsDigit(c) then Int
    else if c == '=' as byte then Assign
    else if c == '+' as byte then Plus
    else if c == ',' as byte then Comma
    else if c == ';' as byte then Semicolon
    else if c == '(' as byte then LParen
    else if c == ')' as byte then RParen
    else if c == '{' as byte then LBrace
    else if c == '}' as byte then RBrace
    else if c == 0 then Eof
    else Illegal
  }

  /**
   * One call of `next_token` with the cursor at `pos`: the token returned and
   * the cursor's new position. Every call moves the cursor forward, and a
   * call from inside the input (or from its end) stays within one byte past it.
   */
  function Scan(input: seq<byte>, pos: nat): (r: (Token, nat))
    ensures pos < r.1
    ensures pos < |input| ==> r.1 <= |input|
    ensures pos == |input| ==> r.1 == pos + 1
  {
    var c := ByteAt(input, pos);
    if IsLetter(c) then
      var e := RunEnd(input, pos);
      var literal := Text(input[pos..e]);
      (if literal == "let" then Let else Ident(literal), e)
    else
      (ByteToken(c), pos + 1)
  }

  /**
   * The tokens that calls of `next_token` return, starting with the cursor
   * at `pos`, until the cursor has moved past the end of the input.
   */
  function Lexed(input: seq<byte>, pos: nat): seq<Token>
    decreases |input| + 1 - pos
  {
    if pos > |input| then []
    else
      var (tok, next) := Scan(input, pos);
      [tok] + Lexed(input, next)
  }

  /** Where the cursor is after `n` calls of `next_token` from `pos`. */
  function After(input: seq<byte>, pos: nat, n: nat): nat
    decreases n
  {
    if n == 0 then pos else After(input, Scan(input, pos).1, n - 1)
  }

  /** Once the cursor is past the input, every call returns `Eof` and moves on by one. */
  lemma ScanPastEnd(input: seq<byte>, pos: nat)
    requires pos >= |input|
    ensures Scan(input, pos) == (Eof, pos + 1)
  {
  }

  /**
   * A byte that does not start a run of letters is one token on its own: the
   * cursor moves one byte; the token is `Int` exactly for a digit, `Eof`
   * exactly for 0, and `Illegal` exactly for a byte that is none of these and
   * not one of `= + , ; ( ) { }` (whitespace, `-`, `!`, non-ASCII bytes, ...).
   */
  lemma SingleByteTokens(input: seq<byte>, pos: nat)
    requires !IsLetter(ByteAt(input, pos))
    ensures var (tok, next) := Scan(input, pos); var c := ByteAt(input, pos);
      next == pos + 1 && !tok.IsWord() &&
      (tok == Int <==> IsDigit(c)) &&
      (tok == Eof <==> c == 0) &&
      (tok == Illegal <==> !IsDigit(c) && c != 0 && c !in PunctuationBytes)
  {
  }

  /** The bytes of `= + , ; ( ) { }`. */
  const PunctuationBytes: set<byte> :=
    {'=' as byte, '+' as byte, ',' as byte, ';' as byte, '(' as byte, ')' as byte, '{' as byte, '}' as byte}

  /**
   * A letter at the cursor starts a word token that ends where the maximal run
   * of letters ends; it is `let` exactly when the run reads `let`, and an
   * identifier of the run's text otherwise.
   */
  lemma LetterStartsWord(input: seq<byte>, pos: nat)
    requires IsLetter(ByteAt(input, pos))
    ensures var (tok, next) := Scan(input, pos);
      tok.IsWord() && next == RunEnd(input, pos) && pos < next <= |input| &&
      (tok.Let? <==> Text(input[pos..next]) == "let") &&
      (tok.Ident? ==> tok.text == Text(input[pos..next]))
  {
  }

  /**
   * An identifier's text is exactly the maximal run of letters at the cursor,
   * is never `let`, and the cursor stops on the first byte after the run.
   */
  lemma IdentIsMaximalRun(input: seq<byte>, pos: nat)
    requires Scan(input, pos).0.Ident?
    ensures var (tok, next) := Scan(input, pos);
      pos < next <= |input| &&
      tok.text == Text(input[pos..next]) && tok.text != "let" &&
      (forall k :: pos <= k < next ==> IsLetter(input[k])) &&
      !IsLetter(ByteAt(input, next))
  {
  }

  /**
   * Every token the lexer returns before it leaves the input is in the
   * sequence `Lexed` at the same index, and past its end it returns `Eof`:
   * `At(Lexed(input, pos), ·)` is exactly the stream of `next_token` results.
   */
  lemma {:induction false} LexedIsStream(input: seq<byte>, pos: nat, n: nat)
    ensures Scan(input, After(input, pos, n)).0 == At(Lexed(input, pos), n)
    decreases n
  {
    if pos > |input| {
      AfterPastEnd(input, pos, n);
      ScanPastEnd(input, After(input, pos, n));
    } else if n > 0 {
      LexedIsStream(input, Scan(input, pos).1, n - 1);
    }
  }

  /** Past the end of the input the cursor moves exactly one byte per call. */
  lemma {:induction false} AfterPastEnd(input: seq<byte>, pos: nat, n: nat)
    requires pos > |input|
    ensures After(input, pos, n) == pos + n
    decreases n
  {
    if n > 0 {
      ScanPastEnd(input, pos);
      AfterPastEnd(input, pos + 1, n - 1);
    }
  }

  /** The sequence of tokens from a position inside the input (or at its end) is closed by `Eof`. */
  lemma {:induction false} LexedEndsWithEof(input: seq<byte>, pos: nat)
    requires pos <= |input|
    ensures var ts := Lexed(input, pos); |ts| > 0 && ts[|ts| - 1] == Eof
    decreases |input| - pos
  {
    var next := Scan(input, pos).1;
    if next <= |input| {
      LexedEndsWithEof(input, next);
    } else {
      assert next == |input| + 1;
      assert pos == |input|;
    }
  }

  /**
   * `Eof` is returned once for every 0 byte inside the input and once more
   * at its end, and never otherwise.
   */
  lemma {:induction false} EofCountsNulBytes(input: seq<byte>, pos: nat)
    requires pos <= |input|
    ensures multiset(Lexed(input, pos))[Eof] == multiset(input[pos..])[0] + 1
    decreases |input| - pos
  {
    var (tok, next) := Scan(input, pos);
    if pos == |input| {
      assert Lexed(input, pos) == [Eof];
    } else {
      EofCountsNulBytes(input, next);
      assert Lexed(input, pos) == [tok] + Lexed(input, next);
      assert multiset(Lexed(input, pos))[Eof] == multiset([tok])[Eof] + multiset(Lexed(input, next))[Eof];
      assert input[pos..] == input[pos..next] + input[next..];
      assert multiset(input[pos..])[0] == multiset(input[pos..next])[0] + multiset(input[next..])[0];
      ScanCountsNul(input, pos);
    }
  }

  /** One call from inside the input returns `Eof` exactly when it consumed a 0 byte. */
  lemma ScanCountsNul(input: seq<byte>, pos: nat)
    requires pos < |input|
    ensures var (tok, next) := Scan(input, pos);
      multiset([tok])[Eof] == multiset(input[pos..next])[0]
  {
  }

  /** No word token is last, and none is directly followed by another word token. */
  predicate WordsSeparated(ts: seq<Token>) {
    forall i :: 0 <= i < |ts| && ts[i].IsWord() ==> i + 1 < |ts| && !ts[i + 1].IsWord()
  }

  /**
   * A word (`let` or an identifier) is never followed by another word, and
   * is never the last token: the run of letters is maximal, so the next
   * call starts on a byte that is not a letter.
   */
  lemma {:induction false} WordNeverFollowsWord(input: seq<byte>, pos: nat)
    ensures WordsSeparated(Lexed(input, pos))
    decreases |input| + 1 - pos
  {
    if pos <= |input| {
      var (tok, next) := Scan(input, pos);
      var ts := Lexed(input, pos);
      var rest := Lexed(input, next);
      assert ts == [tok] + rest;
      WordNeverFollowsWord(input, next);
      if tok.IsWord() {
        assert !IsLetter(ByteAt(input, next));
        assert next <= |input|;
        assert rest == [Scan(input, next).0] + Lexed(input, Scan(input, next).1);
        assert !rest[0].IsWord();
      }
      forall i | 0 <= i < |ts| && ts[i].IsWord()
        ensures i + 1 < |ts| && !ts[i + 1].IsWord()
      {
        if i > 0 {
          assert rest[i - 1].IsWord();
          assert ts[i + 1] == rest[i];
        }
      }
    }
  }

  /** `=+(){},;` scans to its eight punctuation tokens and `Eof`. */
  lemma ScansPunctuation()
    ensures Lexed([61, 43, 40, 41, 123, 125, 44, 59], 0) ==
      [Assign, Plus, LParen, RParen, LBrace, RBrace, Comma, Semicolon, Eof]
  {
    var b: seq<byte> := [61, 43, 40, 41, 123, 125, 44, 59];
    assert Lexed(b, 8) == [Eof];
    assert Lexed(b, 7) == [Semicolon, Eof];
    assert Lexed(b, 6) == [Comma, Semicolon, Eof];
    assert Lexed(b, 5) == [RBrace, Comma, Semicolon, Eof];
    assert Lexed(b, 4) == [LBrace, RBrace, Comma, Semicolon, Eof];
    assert Lexed(b, 3) == [RParen, LBrace, RBrace, Comma, Semicolon, Eof];
    assert Lexed(b, 2) == [LParen, RParen, LBrace, RBrace, Comma, Semicolon, Eof];
    assert Lexed(b, 1) == [Plus, LParen, RParen, LBrace, RBrace, Comma, Semicolon, Eof];
  }

  /** `10` scans as two `Int` tokens: digit runs are not grouped. */
  lemma DigitsAreSeparateTokens()
    ensures Lexed([49, 48], 0) == [Int, Int, Eof]
  {
  }

  /** `let x = 5;` scans with every space as `Illegal`: whitespace is not skipped. */
  lemma SpacesAreIllegal()
    ensures Lexed([108, 101, 116, 32, 120, 32, 61, 32, 53, 59], 0) ==
      [Let, Illegal, Ident("x"), Illegal, Assign, Illegal, Int, Semicolon, Eof]
  {
    var b: seq<byte> := [108, 101, 116, 32, 120, 32, 61, 32, 53, 59];
    assert Lexed(b, 10) == [Eof];
    assert Lexed(b, 9) == [Semicolon, Eof];
    assert Lexed(b, 8) == [Int, Semicolon, Eof];
    assert Lexed(b, 7) == [Illegal, Int, Semicolon, Eof];
    assert Lexed(b, 6) == [Assign, Illegal, Int, Semicolon, Eof];
    assert Lexed(b, 5) == [Illegal, Assign, Illegal, Int, Semicolon, Eof];
    assert RunEnd(b, 4) == 5;
    assert Text(b[4..5]) == "x";
    assert Lexed(b, 4) == [Ident("x"), Illegal, Assign, Illegal, Int, Semicolon, Eof];
    assert Lexed(b, 3) == [Illegal, Ident("x"), Illegal, Assign, Illegal, Int, Semicolon, Eof];
    assert RunEnd(b, 0) == 3;
    assert Text(b[0..3]) == "let";
  }

  /** `a`, a 0 byte, `+`: the 0 byte reads as `Eof`, and scanning goes on after it. */
  lemma EmbeddedNulIsEof()
    ensures Lexed([97, 0, 43], 0) == [Ident("a"), Eof, Plus, Eof]
  {
    var b: seq<byte> := [97, 0, 43];
    assert Lexed(b, 1) == [Eof, Plus, Eof];
    assert RunEnd(b, 0) == 1;
    assert Text(b[0..1]) == "a";
  }

  /**
   * The byte cursor of src/lexer.rs. `position` is the examined byte,
   * `readPosition` the next one to read and `ch` the examined byte itself
   * (0 past the end of the input).
   */
  class Lexer {
    const input: seq<byte>
    var position: nat
    var readPosition: nat
    var ch: byte

    /** The cursor invariant that `new` sets up and every `read_char` restores. */
    ghost predicate Valid()
      reads this
    {
      position + 1 == readPosition && ch == ByteAt(input, position)
    }

    /** `new`: the cursor on the first byte. */
    constructor (input: seq<byte>)
      ensures this.input == input
      ensures Valid() && position == 0
    {
      this.input := input;
      position, readPosition, ch := 0, 0, 0;
      new;
      ReadChar();
    }

    /** `read_char`: step onto the next byte, whatever the state before. */
    method ReadChar()
      modifies this
      ensures position == old(readPosition) && readPosition == old(readPosition) + 1
      ensures Valid()
    {
      if readPosition >= |input| {
        ch := 0;
      } else {
        ch := input[readPosition];
      }
      position := readPosition;
      readPosition := readPosition + 1;
    }

    /** `next_token`: return the token at the cursor and move past it. */
    method NextToken() returns (tok: Token)
      requires Valid()
      modifies this
      ensures Valid()
      ensures (tok, position) == Scan(input, old(position))
    {
      if IsDigit(ch) {
        tok := Int;
      } else if ch == '=' as byte {
        tok := Assign;
      } else if ch == '+' as byte {
        tok := Plus;
      } else if ch == ',' as byte {
        tok := Comma;
      } else if ch == ';' as byte {
        tok := Semicolon;
      } else if ch == '(' as byte {
        tok := LParen;
      } else if ch == ')' as byte {
        tok := RParen;
      } else if ch == '{' as byte {
        tok := LBrace;
      } else if ch == '}' as byte {
        tok := RBrace;
      } else if ch == 0 {
        tok := Eof;
      } else {
        if IsLetter(ch) {
          var literal := ReadIdentifier();
          var text := Text(literal);
          return if text == "let" then Let else Ident(text);
        }
        tok := Illegal;
      }
      ReadChar();
    }

    /**
     * `read_identifier`: consume the run of letters at the cursor and return
     * its bytes. The source slices the input with the run's bounds, so the
     * cursor must not be past the end of the input.
     */
    method ReadIdentifier() returns (literal: seq<byte>)
      requires Valid() && position <= |input|
      modifies this
      ensures Valid()
      ensures old(position) <= position <= |input|
      ensures position == RunEnd(input, old(position))
      ensures literal == input[old(position)..position]
    {
      var start := position;
      while IsLetter(ch)
        invariant Valid()
        invariant start <= position <= |input|
        invariant RunEnd(input, position) == RunEnd(input, start)
        decreases |input| - position
      {
        ReadChar();
      }
      literal := input[start..position];
    }
  }
}
