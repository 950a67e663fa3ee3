/**
 * The host's `TSLexer` as the scanner uses it: a cursor over the input's code
 * points, the token end set by `mark_end`, and the `result_symbol` slot.
 */
module Host {
  import opened Syms
  import opened Cursor

  class Lexer {
    const input: seq<int>
    var pos: nat
    var mark: Option<nat>
    var resultSymbol: Sym

    /** A lexer at `start` with no token end marked yet. */
    constructor (input: seq<int>, start: nat)
      ensures this.input == input && pos == start && mark == None
    {
      this.input := input;
      pos := start;
      mark := None;
      resultSymbol := FAIL;
    }

    /** `lookahead`: 0 at end of input. */
    function Lookahead(): int
      reads this
    {
      Peek(input, pos)
    }

    /** `eof`. */
    predicate IsEof()
      reads this
    {
      AtEof(input, pos)
    }

    /** `advance` (the skip flag only moves the token start, which is not modelled). */
    method Advance()
      modifies this`pos
      ensures pos == Adv(input, old(pos))
    {
      if pos < |input| {
        pos := pos + 1;
      }
    }

    /** `mark_end`. */
    method MarkEnd()
      modifies this`mark
      ensures mark == Some(pos)
    {
      mark := Some(pos);
    }
  }
}
