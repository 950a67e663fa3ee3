/**
 * The indentation stack as a value (innermost layout last) and the comparisons
 * of a column against its top.
 */
module Layout {
  import opened Cursor

  type U16 = x: int | 0 <= x < 0x1_0000

  const U16_MOD: nat := 0x1_0000

  /** `indent_exists`. */
  predicate IndentExists(st: seq<U16>) {
    |st| != 0
  }

  /** `VEC_BACK`: the innermost layout's column. */
  function Top(st: seq<U16>): (t: U16)
    requires |st| > 0
    ensures t in st
  {
    st[|st| - 1]
  }

  /** `keep_layout`: the indent (a 16-bit value) continues the current layout. */
  function KeepLayout(indent: U16, st: seq<U16>): (b: bool)
    ensures b ==> IndentExists(st)
  {
    IndentExists(st) && indent >= Top(st)
  }

  /** `same_indent`. */
  function SameIndent(indent: U32, st: seq<U16>): (b: bool)
    ensures b ==> IndentExists(st)
  {
    IndentExists(st) && indent == Top(st)
  }

  /** `smaller_indent`. */
  function SmallerIndent(indent: U32, st: seq<U16>): (b: bool)
    ensures b ==> IndentExists(st)
  {
    IndentExists(st) && indent < Top(st)
  }

  /** `indent_lesseq`. */
  function IndentLesseq(indent: U32, st: seq<U16>): (b: bool)
    ensures b ==> IndentExists(st)
  {
    IndentExists(st) && indent <= Top(st)
  }

  /** `push`: one more layout, the column given as 16 bits. */
  function PushIndent(st: seq<U16>, ind: U16): (r: seq<U16>)
    ensures |r| == |st| + 1 && r[..|st|] == st && Top(r) == ind
  {
    st + [ind]
  }

  /** `pop`: drops the innermost layout; nothing happens on an empty stack. */
  function PopIndent(st: seq<U16>): (r: seq<U16>)
    ensures |st| == 0 ==> r == st
    ensures |st| > 0 ==> |r| == |st| - 1 && r == st[..|st| - 1]
    ensures forall k :: 0 <= k < |r| ==> r[k] == st[k]
  {
    if IndentExists(st) then st[..|st| - 1] else st
  }
}
