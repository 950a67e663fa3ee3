/**
 * The scanner's recognizers as functions of a scan request (input and valid
 * symbols) and a state value (cursor, token end mark, indentation stack).
 * Each returns the C `Result` and the state after it. The imperative recognizers
 * in module Scanner are proved to compute exactly these functions.
 */
module ScanSpec {
  import opened Syms
  import opened Chars
  import opened Cursor
  import opened Layout

  /** What one call sees and never changes: the input and the host's valid-symbol flags. */
  datatype Request = Request(input: seq<int>, valid: ValidSymbols)

  /** What one call changes: the cursor, the token end set by `mark_end`, and the indentation stack. */
  datatype St = St(pos: nat, mark: Option<nat>, indents: seq<U16>)

  datatype Step = Step(res: Result, st: St)

  /** `SYM(t)`. */
  predicate Expects(q: Request, t: Sym) {
    Accepts(q.valid, t)
  }

  function Lookahead(q: Request, s: St): int {
    Peek(q.input, s.pos)
  }

  function Advance(q: Request, s: St): St {
    s.(pos := Adv(q.input, s.pos))
  }

  /** `MARK`: the token ends at the current position. */
  function MarkEnd(s: St): St {
    s.(mark := Some(s.pos))
  }

  function PopSt(s: St): St {
    s.(indents := PopIndent(s.indents))
  }

  // ------------------------------------------------------------------
  // What every recognizer guarantees
  // ------------------------------------------------------------------

  /**
   * The stack is unchanged, or one column was pushed and the result is START,
   * or the top was popped and the result is END or IN.
   */
  predicate StackDelta(before: seq<U16>, r: Step) {
    || r.st.indents == before
    || (r.res == ResFinish(START) && |r.st.indents| == |before| + 1 && r.st.indents[..|before|] == before)
    || ((r.res == ResFinish(END) || r.res == ResFinish(IN))
        && |before| > 0 && r.st.indents == before[..|before| - 1])
  }

  /** The cursor only moves forward and not past the input; a new mark lies in the consumed span. */
  predicate Forward(input: seq<int>, s: St, r: Step) {
    && s.pos <= r.st.pos
    && (s.pos <= |input| ==> r.st.pos <= |input|)
    && (r.st.mark == s.mark || (r.st.mark.Some? && s.pos <= r.st.mark.value <= r.st.pos))
  }

  predicate Sound(q: Request, s: St, r: Step) {
    StackDelta(s.indents, r) && Forward(q.input, s, r)
  }

  /** `Result res = ...; SHORT_SCANNER; return res_fail;` */
  function OrFail(r: Step): (o: Step)
    ensures o.res.finished && o.st == r.st
    ensures o.res != r.res ==> o.res == RES_FAIL
  {
    if r.res.finished then r else Step(RES_FAIL, r.st)
  }

  // ------------------------------------------------------------------
  // Cursor loops, on positions
  // ------------------------------------------------------------------

  /** `seq`: match a literal character by character; a mismatch leaves the cursor where it stopped. */
  function MatchSeq(input: seq<int>, lit: seq<int>, p: nat): (r: (bool, nat))
    ensures p <= r.1 <= p + |lit|
    ensures p <= |input| ==> r.1 <= |input|
    decreases |lit|
  {
    if lit == [] then (true, p)
    else if Peek(input, p) != lit[0] then (false, p)
    else MatchSeq(input, lit[1..], Adv(input, p))
  }

  /**
   * `seq` succeeds exactly when the input holds the literal at the cursor, and then
   * stands just after it; otherwise it stops on the first mismatching character,
   * having consumed the part of the literal that did match.
   */
  lemma {:induction false} MatchSeqResult(input: seq<int>, lit: seq<int>, p: nat)
    requires p <= |input|
    requires forall i :: 0 <= i < |lit| ==> lit[i] != NUL
    ensures MatchSeq(input, lit, p).0 <==> p + |lit| <= |input| && input[p..p + |lit|] == lit
    ensures MatchSeq(input, lit, p).0 ==> MatchSeq(input, lit, p).1 == p + |lit|
    ensures !MatchSeq(input, lit, p).0 ==>
      var e := MatchSeq(input, lit, p).1;
      e < p + |lit| && input[p..e] == lit[..e - p] && Peek(input, e) != lit[e - p]
    decreases |lit|
  {
    if lit != [] && Peek(input, p) == lit[0] {
      MatchSeqResult(input, lit[1..], p + 1);
      var e := MatchSeq(input, lit, p).1;
      if p + |lit| <= |input| {
        SliceCons(input, p, p + |lit|);
      }
      if !MatchSeq(input, lit, p).0 {
        SliceCons(input, p, e);
        PrefixCons(lit, e - p);
      }
    }
  }

  lemma SliceCons(xs: seq<int>, i: nat, j: nat)
    requires i < j <= |xs|
    ensures xs[i..j] == [xs[i]] + xs[i + 1..j]
  {
  }

  lemma PrefixCons(xs: seq<int>, k: nat)
    requires 0 < k <= |xs|
    ensures xs[..k] == [xs[0]] + xs[1..][..k - 1]
  {
  }

  /** `skipspace`: past spaces and tabs only. */
  function SkipSpaceFrom(input: seq<int>, p: nat): (r: nat)
    ensures p <= r
    ensures p <= |input| ==> r <= |input|
    ensures forall k :: p <= k < r ==> k < |input| && (input[k] == SPACE || input[k] == TAB)
    ensures Peek(input, r) != SPACE && Peek(input, r) != TAB
    decreases |input| - p
  {
    if Peek(input, p) == SPACE || Peek(input, p) == TAB then SkipSpaceFrom(input, Adv(input, p)) else p
  }

  /** A character `count_indent` consumes. */
  predicate IndentChar(c: int) {
    IsNewline(c) || c == SPACE || c == TAB
  }

  /**
   * `count_indent` from position `p` with the running 32-bit counter `indent`:
   * a newline resets it, a space adds 1, a tab adds 8; it stops at any other character.
   */
  function CountIndentFrom(input: seq<int>, p: nat, indent: U32): (r: (nat, U32))
    ensures p <= r.0
    ensures p <= |input| ==> r.0 <= |input|
    ensures forall k :: p <= k < r.0 ==> k < |input| && IndentChar(input[k])
    ensures !IndentChar(Peek(input, r.0))
    decreases |input| - p
  {
    var c := Peek(input, p);
    if IsNewline(c) then CountIndentFrom(input, Adv(input, p), 0)
    else if c == SPACE then CountIndentFrom(input, Adv(input, p), (indent + 1) % U32_MOD)
    else if c == TAB then CountIndentFrom(input, Adv(input, p), (indent + 8) % U32_MOD)
    else (p, indent)
  }

  /** The loop of `inline_comment`: up to a line break or a 0 (which end of input reads as). */
  function LineEndFrom(input: seq<int>, p: nat): (r: nat)
    ensures p <= r
    ensures p <= |input| ==> r <= |input|
    ensures forall k :: p <= k < r ==> k < |input| && !IsNewline(input[k]) && input[k] != NUL
    ensures IsNewline(Peek(input, r)) || Peek(input, r) == NUL
    decreases |input| - p
  {
    var c := Peek(input, p);
    if IsNewline(c) || c == NUL then p else LineEndFrom(input, Adv(input, p))
  }

  /**
   * The loop of `multiline_comment` with its 16-bit nesting `level`: `{-` opens, `-}` closes,
   * and `-}` at level 0 ends the comment. Returns whether it closed, and where it stopped:
   * just after the closing `-}`, or on the 0 it met.
   */
  function BlockScan(input: seq<int>, p: nat, level: U16): (r: (bool, nat))
    ensures p <= r.1
    ensures p <= |input| ==> r.1 <= |input|
    decreases |input| - p
  {
    var c := Peek(input, p);
    if c == LBRACE then
      var p1 := Adv(input, p);
      if Peek(input, p1) == MINUS then BlockScan(input, Adv(input, p1), (level + 1) % U16_MOD)
      else BlockScan(input, p1, level)
    else if c == MINUS then
      var p1 := Adv(input, p);
      if Peek(input, p1) == RBRACE then
        var p2 := Adv(input, p1);
        if level == 0 then (true, p2) else BlockScan(input, p2, level - 1)
      else BlockScan(input, p1, level)
    else if c == NUL then (false, p)
    else BlockScan(input, Adv(input, p), level)
  }

  /** `while (!is_eof(state)) S_ADVANCE;` */
  function ToEnd(input: seq<int>, p: nat): (r: nat)
    ensures AtEof(input, r)
    ensures p <= r
  {
    if p < |input| then |input| else p
  }

  // ------------------------------------------------------------------
  // Recognizers
  // ------------------------------------------------------------------

  /**
   * `token`: `seq` and then a token-ending lookahead. A keyword is recognized exactly when
   * it is in the input at the cursor and a token-ending character follows it; the cursor
   * then stands just after it, and otherwise where `seq` stopped.
   */
  function Token(q: Request, lit: seq<int>, s: St): (r: (bool, St))
    requires forall i :: 0 <= i < |lit| ==> lit[i] != NUL
    ensures s.pos <= |q.input| ==> (r.0 <==>
      s.pos + |lit| <= |q.input| && q.input[s.pos..s.pos + |lit|] == lit && TokenEnd(Peek(q.input, s.pos + |lit|)))
    ensures s.pos <= |q.input| && r.0 ==> r.1 == s.(pos := s.pos + |lit|)
    ensures r.1 == s.(pos := MatchSeq(q.input, lit, s.pos).1)
  {
    var (ok, p) := MatchSeq(q.input, lit, s.pos);
    assert s.pos <= |q.input| ==> (ok <==> s.pos + |lit| <= |q.input| && q.input[s.pos..s.pos + |lit|] == lit)
                                  && (ok ==> p == s.pos + |lit|) by {
      if s.pos <= |q.input| {
        MatchSeqResult(q.input, lit, s.pos);
      }
    }
    (ok && TokenEnd(Peek(q.input, p)), s.(pos := p))
  }

  /** `finish_if_valid`. */
  function FinishIfValid(q: Request, t: Sym, s: St): (r: Step)
    ensures r.st == s
    ensures r.res.finished <==> Expects(q, t)
  {
    if Expects(q, t) then Step(ResFinish(t), s) else Step(RES_CONT, s)
  }

  /** `layout_end`: if END is valid, pop and finish with END. */
  function LayoutEnd(q: Request, s: St): (r: Step)
    ensures Sound(q, s, r)
    ensures r.st.pos == s.pos && r.st.mark == s.mark
    ensures r.res.finished <==> Expects(q, END)
  {
    if Expects(q, END) then Step(ResFinish(END), PopSt(s)) else Step(RES_CONT, s)
  }

  /** `end_or_semicolon`. */
  function EndOrSemicolon(q: Request, s: St): (r: Step)
    ensures Sound(q, s, r)
    ensures r.st.pos == s.pos && r.st.mark == s.mark
  {
    var r1 := LayoutEnd(q, s);
    if r1.res.finished then r1 else FinishIfValid(q, SEMICOLON, r1.st)
  }

  /** `eof`: at end of input, EMPTY if valid, else END (with a pop) or SEMICOLON, else a definitive failure. */
  function Eof(q: Request, s: St): (r: Step)
    ensures Sound(q, s, r)
    ensures r.st.pos == s.pos && r.st.mark == s.mark
    ensures r.res.finished <==> AtEof(q.input, s.pos)
  {
    if AtEof(q.input, s.pos) then
      if Expects(q, EMPTY) then Step(ResFinish(EMPTY), s)
      else OrFail(EndOrSemicolon(q, s))
    else Step(RES_CONT, s)
  }

  /** `dot`: a `.` with DOT valid; VARSYM (unmarked) if VARSYM is valid and whitespace follows. */
  function Dot(q: Request, s: St): (r: Step)
    ensures Sound(q, s, r)
  {
    if Expects(q, DOT) && Lookahead(q, s) == PERIOD then
      var t := Advance(q, s);
      if Expects(q, VARSYM) && IsWs(Lookahead(q, t)) then Step(ResFinish(VARSYM), t)
      else Step(ResFinish(DOT), MarkEnd(t))
    else Step(RES_CONT, s)
  }

  /** `fold`: `---` consumes the rest of the input as FOLD. */
  function Fold(q: Request, s: St): (r: Step)
    ensures Sound(q, s, r)
  {
    var (ok, p) := MatchSeq(q.input, Codes("---"), s.pos);
    if ok then Step(ResFinish(FOLD), MarkEnd(s.(pos := ToEnd(q.input, p))))
    else Step(RES_CONT, s.(pos := p))
  }

  /**
   * `is_newline_where` (defined in the source but called nowhere): the next line starts with
   * `w` at an indent that keeps the layout, with SEMICOLON or END valid and WHERE not valid.
   */
  function IsNewlineWhere(q: Request, s: St, indent: U32): (b: bool)
    ensures b ==> IndentExists(s.indents) && Lookahead(q, s) == 'w' as int
    ensures b ==> !Expects(q, WHERE) && (Expects(q, SEMICOLON) || Expects(q, END))
  {
    KeepLayout(indent % U16_MOD, s.indents) && (Expects(q, SEMICOLON) || Expects(q, END))
    && !Expects(q, WHERE) && Lookahead(q, s) == 'w' as int
  }

  /** `dedent`. */
  function Dedent(q: Request, s: St, indent: U32): (r: Step)
    ensures Sound(q, s, r)
    ensures r.st.pos == s.pos && r.st.mark == s.mark
  {
    if SmallerIndent(indent, s.indents) then LayoutEnd(q, s) else Step(RES_CONT, s)
  }

  /** `newline_semicolon`. */
  function NewlineSemicolon(q: Request, s: St, indent: U32): (r: Step)
    ensures Sound(q, s, r)
    ensures r.st == s
  {
    if Expects(q, SEMICOLON) && SameIndent(indent, s.indents) then Step(ResFinish(SEMICOLON), s)
    else Step(RES_CONT, s)
  }

  /** `where`: WHERE if valid, otherwise the keyword may end the layout. */
  function Where(q: Request, s: St): (r: Step)
    ensures Sound(q, s, r)
  {
    var (ok, t) := Token(q, Codes("where"), s);
    if ok then
      if Expects(q, WHERE) then Step(ResFinish(WHERE), MarkEnd(t)) else LayoutEnd(q, t)
    else Step(RES_CONT, t)
  }

  /** `in`: the keyword pops the layout and is itself the IN token. */
  function In(q: Request, s: St): (r: Step)
    ensures Sound(q, s, r)
  {
    if Expects(q, IN) then
      var (ok, t) := Token(q, Codes("in"), s);
      if ok then Step(ResFinish(IN), PopSt(MarkEnd(t))) else Step(RES_CONT, t)
    else Step(RES_CONT, s)
  }

  /** `else_`. */
  function Else(q: Request, s: St): (r: Step)
    ensures Sound(q, s, r)
  {
    var (ok, t) := Token(q, Codes("else"), s);
    if ok then LayoutEnd(q, t) else Step(RES_CONT, t)
  }

  /** `inline_comment`. */
  function InlineComment(q: Request, s: St): (r: Step)
    ensures Sound(q, s, r)
    ensures r.st.indents == s.indents && r.st.mark == Some(r.st.pos)
  {
    Step(ResFinish(COMMENT), MarkEnd(s.(pos := LineEndFrom(q.input, s.pos))))
  }

  /** `minus`. */
  function Minus(q: Request, s: St): (r: Step)
    ensures Sound(q, s, r)
  {
    var (ok, p) := MatchSeq(q.input, Codes("--"), s.pos);
    var t := s.(pos := p);
    if !ok then Step(RES_CONT, t)
    else if Lookahead(q, t) == MINUS then
      var u := Advance(q, t);
      if AtEof(q.input, u.pos) || IsNewline(Lookahead(q, u)) then
        Step(ResFinish(FOLD), MarkEnd(u.(pos := ToEnd(q.input, u.pos))))
      else Step(RES_FAIL, u)
    else InlineComment(q, t)
  }

  /** `multiline_comment`, entered just after the opening `{-`. */
  function MultilineComment(q: Request, s: St): (r: Step)
    ensures Sound(q, s, r)
  {
    var (closed, p) := BlockScan(q.input, s.pos, 0);
    var t := s.(pos := p);
    if closed then Step(ResFinish(COMMENT), MarkEnd(t)) else OrFail(Eof(q, t))
  }

  /** `brace`. */
  function Brace(q: Request, s: St): (r: Step)
    ensures Sound(q, s, r)
  {
    if Lookahead(q, s) != LBRACE then Step(RES_FAIL, s)
    else
      var t := Advance(q, s);
      if Lookahead(q, t) != MINUS then Step(RES_FAIL, t)
      else MultilineComment(q, Advance(q, t))
  }

  /** `comment`. */
  function Comment(q: Request, s: St): (r: Step)
    ensures Sound(q, s, r)
  {
    var c := Lookahead(q, s);
    if c == MINUS then OrFail(Minus(q, s))
    else if c == LBRACE then OrFail(Brace(q, s))
    else Step(RES_CONT, s)
  }

  /** `close_layout_in_list`. */
  function CloseLayoutInList(q: Request, s: St): (r: Step)
    ensures Sound(q, s, r)
  {
    var c := Lookahead(q, s);
    if c == RBRACKET then
      if Expects(q, END) then Step(ResFinish(END), PopSt(s)) else Step(RES_CONT, s)
    else if c == COMMA_CHAR then
      var t := Advance(q, s);
      if Expects(q, COMMA) then Step(ResFinish(COMMA), MarkEnd(t)) else OrFail(LayoutEnd(q, t))
    else Step(RES_CONT, s)
  }

  /** `inline_tokens`. */
  function InlineTokens(q: Request, s: St): (r: Step)
    ensures Sound(q, s, r)
  {
    var c := Lookahead(q, s);
    if c == 'w' as int then OrFail(Where(q, s))
    else if c == 'i' as int then OrFail(In(q, s))
    else if c == 'e' as int then OrFail(Else(q, s))
    else if c == RPAREN then OrFail(LayoutEnd(q, s))
    else CloseLayoutInList(q, s)
  }

  /** `layout_start`: with START valid, push the column (cut to 16 bits) whatever comes next. */
  function LayoutStart(q: Request, s: St, column: U32): (r: Step)
    ensures Sound(q, s, r)
    ensures r.res.finished <==> Expects(q, START)
    ensures r.st.pos == s.pos && r.st.mark == s.mark
  {
    if Expects(q, START) then Step(ResFinish(START), s.(indents := PushIndent(s.indents, column % U16_MOD)))
    else Step(RES_CONT, s)
  }

  /** `post_end_semicolon`. */
  function PostEndSemicolon(q: Request, s: St, column: U32): (r: Step)
    ensures Sound(q, s, r)
    ensures r.st == s
  {
    if Expects(q, SEMICOLON) && IndentLesseq(column, s.indents) then Step(ResFinish(SEMICOLON), s)
    else Step(RES_CONT, s)
  }

  /** `repeat_end`. */
  function RepeatEnd(q: Request, s: St, column: U32): (r: Step)
    ensures Sound(q, s, r)
    ensures r.st.pos == s.pos && r.st.mark == s.mark
  {
    if Expects(q, END) && SmallerIndent(column, s.indents) then LayoutEnd(q, s) else Step(RES_CONT, s)
  }

  /** `newline_indent`. */
  function NewlineIndent(q: Request, s: St, indent: U32): (r: Step)
    ensures Sound(q, s, r)
  {
    var r1 := Dedent(q, s, indent);
    if r1.res.finished then r1
    else
      var r2 := CloseLayoutInList(q, r1.st);
      if r2.res.finished then r2 else NewlineSemicolon(q, r2.st, indent)
  }

  /** `newline_token` (its indent argument is unused in the source). */
  function NewlineToken(q: Request, s: St): (r: Step)
    ensures Sound(q, s, r)
  {
    var c := Lookahead(q, s);
    if c == MINUS then Minus(q, s)
    else if Symbolic(c) || c == BACKTICK then Step(RES_FAIL, s)
    else if c == 'i' as int then In(q, s)
    else Step(RES_CONT, s)
  }

  /** `newline`: after a line break, with the next line's indent. */
  function Newline(q: Request, s: St, indent: U32): (r: Step)
    ensures Sound(q, s, r)
  {
    var r1 := Eof(q, s);
    if r1.res.finished then r1
    else
      var r2 := Comment(q, r1.st);
      if r2.res.finished then r2
      else
        var r3 := NewlineToken(q, r2.st);
        if r3.res.finished then r3 else NewlineIndent(q, r3.st, indent)
  }

  /** `immediate`: the next character is on the current line, at `column`. */
  function Immediate(q: Request, s: St, column: U32): (r: Step)
    ensures Sound(q, s, r)
  {
    var r1 := LayoutStart(q, s, column);
    if r1.res.finished then r1
    else
      var r2 := PostEndSemicolon(q, r1.st, column);
      if r2.res.finished then r2
      else
        var r3 := RepeatEnd(q, r2.st, column);
        if r3.res.finished then r3 else InlineTokens(q, r3.st)
  }

  /** `init`: before whitespace is skipped. */
  function Init(q: Request, s: St): (r: Step)
    ensures Sound(q, s, r)
  {
    var r1 := Eof(q, s);
    if r1.res.finished then r1
    else if AllSyms(q.valid) then Step(RES_FAIL, r1.st)
    else
      var r2 := Dot(q, r1.st);
      if r2.res.finished then r2
      else if Expects(q, FOLD) then
        var r3 := Fold(q, r2.st);
        if r3.res.finished then r3 else Step(RES_CONT, r3.st)
      else Step(RES_CONT, r2.st)
  }

  /** `scan_main`: skip spaces, mark, then the newline or the same-line rules. */
  function ScanMain(q: Request, s: St): (r: Step)
    ensures Sound(q, s, r)
  {
    var t := s.(pos := SkipSpaceFrom(q.input, s.pos));
    var r1 := Eof(q, t);
    if r1.res.finished then r1
    else
      var m := MarkEnd(r1.st);
      if IsNewline(Lookahead(q, m)) then
        var (p, indent) := CountIndentFrom(q.input, Adv(q.input, m.pos), 0);
        Newline(q, m.(pos := p), indent)
      else Immediate(q, m, Column(q.input, m.pos))
  }

  /** `scan_all`: the entry point of one scan call. */
  function ScanAll(q: Request, s: St): (r: Step)
    ensures Sound(q, s, r)
  {
    var r1 := Init(q, s);
    if r1.res.finished then r1 else ScanMain(q, r1.st)
  }

  /** `eval`: the symbol reported to the host, if the scan finished with one. */
  function Outcome(r: Result): (o: Option<Sym>)
    ensures o.Some? ==> r.finished && o.value == r.sym && r.sym != FAIL
    ensures o.None? ==> !r.finished || r.sym == FAIL
  {
    if r.finished && r.sym != FAIL then Some(r.sym) else None
  }

  /**
   * The three kinds of result: `res_cont` reports nothing and lets the next recognizer try,
   * `res_fail` reports nothing and stops, `res_finish(t)` reports `t`.
   */
  lemma ResultKinds(t: Sym)
    ensures !RES_CONT.finished && Outcome(RES_CONT).None?
    ensures RES_FAIL.finished && Outcome(RES_FAIL).None?
    ensures ResFinish(t).finished
    ensures t != FAIL ==> Outcome(ResFinish(t)) == Some(t)
  {
  }
}
