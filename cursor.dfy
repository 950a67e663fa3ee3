/**
 * The host lexer's cursor as pure functions of the input and a position:
 * lookahead, end of input, one-character advance, and the column.
 */
module Cursor {
  import opened Chars

  type U32 = x: int | 0 <= x < 0x1_0000_0000

  const U32_MOD: nat := 0x1_0000_0000

  /** `PEEK`: the code point under the cursor, 0 at end of input. */
  function Peek(input: seq<int>, p: nat): int {
    if p < |input| then input[p] else NUL
  }

  /** `is_eof`. */
  predicate AtEof(input: seq<int>, p: nat) {
    |input| <= p
  }

  /** The host's `advance`: one character forward; nothing happens at end of input. */
  function Adv(input: seq<int>, p: nat): (r: nat)
    ensures p <= r <= p + 1
    ensures p <= |input| ==> r <= |input|
  {
    if p < |input| then p + 1 else p
  }

  /** Index of the first character of the line holding position `p` (just after the last newline before it). */
  function LineStart(input: seq<int>, p: nat): (b: nat)
    requires p <= |input|
    ensures b <= p
    ensures b == 0 || input[b - 1] == LF
    ensures forall k :: b <= k < p ==> input[k] != LF
  {
    if p == 0 then 0
    else if input[p - 1] == LF then p
    else LineStart(input, p - 1)
  }

  /**
   * `column`: 0 at end of input, otherwise the host's column, taken here to be the number of
   * characters since the last newline, as the host's 32-bit counter.
   */
  function Column(input: seq<int>, p: nat): (c: U32)
    ensures AtEof(input, p) ==> c == 0
    ensures !AtEof(input, p) && p < U32_MOD ==>
      c <= p && (c == p || input[p - c - 1] == LF) && forall k :: p - c <= k < p ==> input[k] != LF
  {
    if AtEof(input, p) then 0 else (p - LineStart(input, p)) % U32_MOD
  }
}
