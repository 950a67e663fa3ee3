/**
 * Character classes of the scanner, over code points as the host lexer reports
 * them (the lookahead is 0 at end of input).
 */
module Chars {

  const NUL: int := 0
  const TAB: int := 9
  const LF: int := 10
  const VT: int := 11
  const FF: int := 12
  const CR: int := 13
  const SPACE: int := 32

  const MINUS: int := '-' as int
  const LBRACE: int := '{' as int
  const RBRACE: int := '}' as int
  const PERIOD: int := '.' as int
  const COMMA_CHAR: int := ',' as int
  const RPAREN: int := ')' as int
  const RBRACKET: int := ']' as int
  const BACKTICK: int := '`' as int

  /** The code points of a string literal of the scanner. */
  function Codes(s: string): seq<int> {
    seq(|s|, i requires 0 <= i < |s| => s[i] as int)
  }

  /** `isws`: space, form feed, newline, carriage return, tab or vertical tab. */
  function IsWs(c: int): (b: bool)
    ensures b ==> 0 < c <= SPACE
  {
    c == SPACE || c == FF || c == LF || c == CR || c == TAB || c == VT
  }

  /** `is_newline`: a line break is one of newline, carriage return and form feed. */
  function IsNewline(c: int): (b: bool)
    ensures b ==> IsWs(c)
    ensures b ==> c != NUL
  {
    c == LF || c == CR || c == FF
  }

  /** `token_end`: whitespace, the end-of-input 0, or a parenthesis or bracket ends a keyword. */
  function TokenEnd(c: int): (b: bool)
    ensures IsWs(c) ==> b
    ensures c == NUL ==> b
    ensures c == '(' as int || c == RPAREN || c == '[' as int || c == RBRACKET ==> b
  {
    IsWs(c) || c == NUL || c == '(' as int || c == RPAREN || c == '[' as int || c == RBRACKET
  }

  /** `symbolic`: the operator characters, `|` included. */
  function Symbolic(c: int): (b: bool)
    ensures b ==> !TokenEnd(c)
  {
    c == '!' as int || c == '#' as int || c == '$' as int || c == '%' as int || c == '&' as int
    || c == '*' as int || c == '+' as int || c == PERIOD || c == '/' as int || c == '<' as int
    || c == '>' as int || c == '?' as int || c == '^' as int || c == ':' as int || c == '=' as int
    || c == MINUS || c == '~' as int || c == '@' as int || c == '\\' as int || c == '|' as int
  }
}
