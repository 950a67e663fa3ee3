/**
 * What the scanner promises, proved of the recognizer functions of ScanSpec:
 * literal matching, indentation widths, comments, end of input, the error
 * probe, and the layout rules that compare a column with the stack top.
 */
module ScanProps {
  import opened Syms
  import opened Chars
  import opened Cursor
  import opened Layout
  import opened ScanSpec

  // ------------------------------------------------------------------
  // count_indent
  // ------------------------------------------------------------------

  /**
   * The width of the indentation that a run of line breaks, spaces and tabs leaves:
   * what follows its last line break, a space counting 1 and a tab 8.
   */
  function Width(run: seq<int>): nat {
    if run == [] then 0
    else if IsNewline(run[|run| - 1]) then 0
    else Width(run[..|run| - 1]) + (if run[|run| - 1] == SPACE then 1 else 8)
  }

  /** A line break resets the width: only what follows the last one counts. */
  lemma {:induction false} WidthAfterBreak(a: seq<int>, c: int, b: seq<int>)
    requires IsNewline(c)
    ensures Width(a + [c] + b) == Width(b)
    decreases |b|
  {
    if b == [] {
      assert a + [c] + b == a + [c];
    } else {
      var n := |b| - 1;
      assert (a + [c] + b)[..|a + [c] + b| - 1] == a + [c] + b[..n];
      WidthAfterBreak(a, c, b[..n]);
    }
  }

  /** Without line breaks the width is the number of spaces plus eight per tab. */
  lemma {:induction false} WidthOfBlanks(b: seq<int>)
    requires forall k :: 0 <= k < |b| ==> b[k] == SPACE || b[k] == TAB
    ensures Width(b) == multiset(b)[SPACE] + 8 * multiset(b)[TAB]
    decreases |b|
  {
    if b != [] {
      var n := |b| - 1;
      assert b == b[..n] + [b[n]];
      assert multiset(b) == multiset(b[..n]) + multiset{b[n]};
      WidthOfBlanks(b[..n]);
    }
  }

  /** Adding one character to a run. */
  lemma WidthSnoc(a: seq<int>, c: int)
    ensures Width(a + [c]) == if IsNewline(c) then 0 else Width(a) + (if c == SPACE then 1 else 8)
  {
    assert (a + [c])[..|a|] == a;
  }

  /** One more space or tab on the 32-bit counter. */
  lemma CounterStep(w: nat, acc: U32, k: nat)
    requires acc == w % U32_MOD
    ensures (acc + k) % U32_MOD == (w + k) % U32_MOD
  {
  }

  /** Reading one character of the run keeps the counter equal to the width of what was read. */
  lemma CountIndentStep(input: seq<int>, p0: nat, p: nat, acc: U32) returns (next: U32)
    requires p0 <= p < |input| && IndentChar(input[p])
    requires acc == Width(input[p0..p]) % U32_MOD
    ensures next == Width(input[p0..p + 1]) % U32_MOD
    ensures CountIndentFrom(input, p, acc) == CountIndentFrom(input, p + 1, next)
  {
    var c := input[p];
    assert input[p0..p + 1] == input[p0..p] + [c];
    WidthSnoc(input[p0..p], c);
    if IsNewline(c) {
      next := 0;
    } else if c == SPACE {
      CounterStep(Width(input[p0..p]), acc, 1);
      next := (acc + 1) % U32_MOD;
    } else {
      CounterStep(Width(input[p0..p]), acc, 8);
      next := (acc + 8) % U32_MOD;
    }
  }

  lemma {:induction false} CountIndentFromWidth(input: seq<int>, p0: nat, p: nat, acc: U32)
    requires p0 <= p <= |input|
    requires acc == Width(input[p0..p]) % U32_MOD
    ensures CountIndentFrom(input, p, acc).1 == Width(input[p0..CountIndentFrom(input, p, acc).0]) % U32_MOD
    decreases |input| - p
  {
    if p < |input| && IndentChar(input[p]) {
      var next := CountIndentStep(input, p0, p, acc);
      CountIndentFromWidth(input, p0, p + 1, next);
    }
  }

  /**
   * `count_indent` consumes exactly the run of line breaks, spaces and tabs at the cursor
   * and returns the width after the run's last line break, as a 32-bit counter.
   */
  lemma CountIndentResult(input: seq<int>, p: nat)
    requires p <= |input|
    ensures var (e, indent) := CountIndentFrom(input, p, 0);
      && p <= e <= |input|
      && (forall k :: p <= k < e ==> IndentChar(input[k]))
      && !IndentChar(Peek(input, e))
      && indent == Width(input[p..e]) % U32_MOD
  {
    assert input[p..p] == [];
    CountIndentFromWidth(input, p, p, 0);
  }

  // ------------------------------------------------------------------
  // minus: line comments and folds
  // ------------------------------------------------------------------

  lemma DashCodes()
    ensures Codes("--") == [MINUS, MINUS]
    ensures Codes("---") == [MINUS, MINUS, MINUS]
  {
  }

  /** `--` not followed by a third `-` is a COMMENT up to the line break, a 0, or the end of input. */
  lemma MinusComment(q: Request, s: St)
    requires s.pos + 2 <= |q.input| && q.input[s.pos..s.pos + 2] == Codes("--")
    requires Peek(q.input, s.pos + 2) != MINUS
    ensures var r := Minus(q, s);
      && r.res == ResFinish(COMMENT)
      && r.st == St(LineEndFrom(q.input, s.pos + 2), Some(r.st.pos), s.indents)
      && (IsNewline(Peek(q.input, r.st.pos)) || Peek(q.input, r.st.pos) == NUL)
      && (forall k :: s.pos + 2 <= k < r.st.pos ==> !IsNewline(q.input[k]) && q.input[k] != NUL)
  {
    DashCodes();
    MatchSeqResult(q.input, Codes("--"), s.pos);
  }

  /** `---` followed by the end of input or a line break is a FOLD over the rest of the input. */
  lemma MinusFold(q: Request, s: St)
    requires s.pos + 3 <= |q.input| && q.input[s.pos..s.pos + 3] == Codes("---")
    requires AtEof(q.input, s.pos + 3) || IsNewline(q.input[s.pos + 3])
    ensures Minus(q, s) == Step(ResFinish(FOLD), St(|q.input|, Some(|q.input|), s.indents))
  {
    DashCodes();
    assert q.input[s.pos..s.pos + 2] == q.input[s.pos..s.pos + 3][..2];
    assert q.input[s.pos + 2] == q.input[s.pos..s.pos + 3][2] == MINUS;
    MatchSeqResult(q.input, Codes("--"), s.pos);
  }

  /** `---` followed by anything else fails the scan. */
  lemma MinusFails(q: Request, s: St)
    requires s.pos + 3 < |q.input| && q.input[s.pos..s.pos + 3] == Codes("---")
    requires !IsNewline(q.input[s.pos + 3])
    ensures Minus(q, s) == Step(RES_FAIL, s.(pos := s.pos + 3))
  {
    DashCodes();
    assert q.input[s.pos..s.pos + 2] == q.input[s.pos..s.pos + 3][..2];
    assert q.input[s.pos + 2] == q.input[s.pos..s.pos + 3][2] == MINUS;
    MatchSeqResult(q.input, Codes("--"), s.pos);
  }

  /** Without `--` at the cursor, `minus` does not finish and leaves the mark and the stack alone. */
  lemma MinusNoDashes(q: Request, s: St)
    requires s.pos <= |q.input|
    requires !(s.pos + 2 <= |q.input| && q.input[s.pos..s.pos + 2] == Codes("--"))
    ensures !Minus(q, s).res.finished
    ensures Minus(q, s).st == s.(pos := Minus(q, s).st.pos)
  {
    MatchSeqResult(q.input, Codes("--"), s.pos);
  }

  // ------------------------------------------------------------------
  // Block comments
  // ------------------------------------------------------------------

  /** A character `multiline_comment` steps over without looking further. */
  predicate CommentText(c: int) {
    c != LBRACE && c != MINUS && c != NUL
  }

  /** The scan of a block comment stops just after a `-}`, or on a 0 (which end of input reads as). */
  lemma {:induction false} BlockScanStops(input: seq<int>, p: nat, level: U16)
    requires p <= |input|
    ensures var (closed, e) := BlockScan(input, p, level);
      && (closed ==> p + 2 <= e <= |input| && input[e - 2] == MINUS && input[e - 1] == RBRACE)
      && (!closed ==> Peek(input, e) == NUL)
    decreases |input| - p
  {
    var c := Peek(input, p);
    if c == LBRACE {
      if Peek(input, p + 1) == MINUS {
        BlockScanStops(input, p + 2, (level + 1) % U16_MOD);
      } else {
        BlockScanStops(input, p + 1, level);
      }
    } else if c == MINUS {
      if Peek(input, p + 1) == RBRACE {
        if level != 0 {
          BlockScanStops(input, p + 2, level - 1);
        }
      } else {
        BlockScanStops(input, p + 1, level);
      }
    } else if c != NUL {
      BlockScanStops(input, p + 1, level);
    }
  }

  lemma {:induction false} BlockScanSkipsText(input: seq<int>, p: nat, n: nat, level: U16)
    requires p + n <= |input|
    requires forall k :: p <= k < p + n ==> CommentText(input[k])
    ensures BlockScan(input, p, level) == BlockScan(input, p + n, level)
    decreases n
  {
    if n > 0 {
      BlockScanSkipsText(input, p + 1, n - 1, level);
    }
  }

  /**
   * A comment that closes when scanned at depth `d` closes the same way at any deeper
   * depth, and the outer scan then carries on after it one level up: the level counts
   * the `{-` and `-}` pairs (as long as the 16-bit counter cannot wrap within the comment).
   */
  lemma {:induction false} NestedClose(input: seq<int>, p: nat, d: U16, l: U16)
    requires p <= |input|
    requires d + l + 1 + (BlockScan(input, p, d).1 - p) < U16_MOD
    requires BlockScan(input, p, d).0
    ensures BlockScan(input, p, d + l + 1) == BlockScan(input, BlockScan(input, p, d).1, l)
    decreases |input| - p, 1
  {
    var c := Peek(input, p);
    if c == LBRACE && Peek(input, p + 1) == MINUS {
      NestedCloseAtOpen(input, p, d, l);
    } else if c == MINUS && Peek(input, p + 1) == RBRACE {
      NestedCloseAtClose(input, p, d, l);
    } else if c == NUL {
      assert false;
    } else {
      NestedCloseAtText(input, p, d, l);
    }
  }

  /** `{-` one level deeper on both sides. */
  lemma {:induction false} NestedCloseAtOpen(input: seq<int>, p: nat, d: U16, l: U16)
    requires p <= |input|
    requires d + l + 1 + (BlockScan(input, p, d).1 - p) < U16_MOD
    requires BlockScan(input, p, d).0
    requires Peek(input, p) == LBRACE && Peek(input, p + 1) == MINUS
    ensures BlockScan(input, p, d + l + 1) == BlockScan(input, BlockScan(input, p, d).1, l)
    decreases |input| - p, 0
  {
    assert BlockScan(input, p, d) == BlockScan(input, p + 2, d + 1);
    assert BlockScan(input, p, d + l + 1) == BlockScan(input, p + 2, d + 1 + l + 1);
    NestedClose(input, p + 2, d + 1, l);
  }

  /** `-}`: the inner comment ends at depth 0, otherwise one level up on both sides. */
  lemma {:induction false} NestedCloseAtClose(input: seq<int>, p: nat, d: U16, l: U16)
    requires p <= |input|
    requires d + l + 1 + (BlockScan(input, p, d).1 - p) < U16_MOD
    requires BlockScan(input, p, d).0
    requires Peek(input, p) == MINUS && Peek(input, p + 1) == RBRACE
    ensures BlockScan(input, p, d + l + 1) == BlockScan(input, BlockScan(input, p, d).1, l)
    decreases |input| - p, 0
  {
    if d > 0 {
      assert BlockScan(input, p, d) == BlockScan(input, p + 2, d - 1);
      assert BlockScan(input, p, d + l + 1) == BlockScan(input, p + 2, d - 1 + l + 1);
      NestedClose(input, p + 2, d - 1, l);
    }
  }

  /** Any other character, including a lone `{` or `-`: one step on both sides. */
  lemma {:induction false} NestedCloseAtText(input: seq<int>, p: nat, d: U16, l: U16)
    requires p <= |input|
    requires d + l + 1 + (BlockScan(input, p, d).1 - p) < U16_MOD
    requires BlockScan(input, p, d).0
    requires Peek(input, p) != NUL
    requires !(Peek(input, p) == LBRACE && Peek(input, p + 1) == MINUS)
    requires !(Peek(input, p) == MINUS && Peek(input, p + 1) == RBRACE)
    ensures BlockScan(input, p, d + l + 1) == BlockScan(input, BlockScan(input, p, d).1, l)
    decreases |input| - p, 0
  {
    assert BlockScan(input, p, d) == BlockScan(input, p + 1, d);
    assert BlockScan(input, p, d + l + 1) == BlockScan(input, p + 1, d + l + 1);
    NestedClose(input, p + 1, d, l);
  }

  /** `-}` at depth 0 ends the comment just after it. */
  lemma ClosesAt(input: seq<int>, p: nat)
    requires p + 2 <= |input| && input[p] == MINUS && input[p + 1] == RBRACE
    ensures BlockScan(input, p, 0) == (true, p + 2)
  {
  }

  lemma BraceCodes()
    ensures Codes("{-") == [LBRACE, MINUS]
    ensures Codes("-}") == [MINUS, RBRACE]
  {
  }

  /** Inside one open comment, `b -} c -}` closes the inner comment and then the outer one. */
  lemma InnerThenOuter(input: seq<int>, pb: nat, lb: nat, lc: nat)
    requires pb + lb + 2 + lc + 2 <= |input|
    requires forall k :: pb <= k < pb + lb ==> CommentText(input[k])
    requires input[pb + lb] == MINUS && input[pb + lb + 1] == RBRACE
    requires forall k :: pb + lb + 2 <= k < pb + lb + 2 + lc ==> CommentText(input[k])
    requires input[pb + lb + 2 + lc] == MINUS && input[pb + lb + 2 + lc + 1] == RBRACE
    ensures BlockScan(input, pb, 1) == (true, pb + lb + 2 + lc + 2)
  {
    var pc := pb + lb + 2;
    BlockScanSkipsText(input, pb, lb, 1);
    assert BlockScan(input, pb + lb, 1) == BlockScan(input, pc, 0);
    BlockScanSkipsText(input, pc, lc, 0);
    ClosesAt(input, pc + lc);
  }

  /** The scan of `a {- b -} c -}` at depth 0, given where the three texts and the markers lie. */
  lemma NestedScan(input: seq<int>, pa: nat, la: nat, lb: nat, lc: nat)
    requires pa + la + 2 + lb + 2 + lc + 2 <= |input|
    requires forall k :: pa <= k < pa + la ==> CommentText(input[k])
    requires input[pa + la] == LBRACE && input[pa + la + 1] == MINUS
    requires forall k :: pa + la + 2 <= k < pa + la + 2 + lb ==> CommentText(input[k])
    requires input[pa + la + 2 + lb] == MINUS && input[pa + la + 2 + lb + 1] == RBRACE
    requires forall k :: pa + la + 2 + lb + 2 <= k < pa + la + 2 + lb + 2 + lc ==> CommentText(input[k])
    requires input[pa + la + 2 + lb + 2 + lc] == MINUS && input[pa + la + 2 + lb + 2 + lc + 1] == RBRACE
    ensures BlockScan(input, pa, 0) == (true, pa + la + 2 + lb + 2 + lc + 2)
  {
    BlockScanSkipsText(input, pa, la, 0);
    assert BlockScan(input, pa + la, 0) == BlockScan(input, pa + la + 2, 1);
    InnerThenOuter(input, pa + la + 2, lb, lc);
  }

  /**
   * `{- a {- b -} c -}` is one COMMENT, however long the plain texts a, b and c, wherever it
   * starts and whatever follows it.
   */
  lemma NestedCommentIsOne(q: Request, s: St, pre: seq<int>, a: seq<int>, b: seq<int>, c: seq<int>, post: seq<int>)
    requires forall k :: 0 <= k < |a| ==> CommentText(a[k])
    requires forall k :: 0 <= k < |b| ==> CommentText(b[k])
    requires forall k :: 0 <= k < |c| ==> CommentText(c[k])
    requires q.input == pre + Codes("{-") + a + Codes("{-") + b + Codes("-}") + c + Codes("-}") + post
    requires s.pos == |pre|
    ensures var e := |pre| + 8 + |a| + |b| + |c|;
      Brace(q, s) == Step(ResFinish(COMMENT), St(e, Some(e), s.indents))
  {
    var pa := |pre| + 2;
    CommentLayout(q.input, pre, a, b, c, post);
    NestedScan(q.input, pa, |a|, |b|, |c|);
  }

  /** Where the pieces of `pre {- a {- b -} c -} post` lie. */
  lemma CommentLayout(input: seq<int>, pre: seq<int>, a: seq<int>, b: seq<int>, c: seq<int>, post: seq<int>)
    requires forall k :: 0 <= k < |a| ==> CommentText(a[k])
    requires forall k :: 0 <= k < |b| ==> CommentText(b[k])
    requires forall k :: 0 <= k < |c| ==> CommentText(c[k])
    requires input == pre + Codes("{-") + a + Codes("{-") + b + Codes("-}") + c + Codes("-}") + post
    ensures var pa := |pre| + 2; var pb := pa + |a| + 2; var pc := pb + |b| + 2;
      && pc + |c| + 2 <= |input|
      && input[|pre|] == LBRACE && input[|pre| + 1] == MINUS
      && (forall k :: pa <= k < pa + |a| ==> CommentText(input[k]))
      && input[pa + |a|] == LBRACE && input[pa + |a| + 1] == MINUS
      && (forall k :: pb <= k < pb + |b| ==> CommentText(input[k]))
      && input[pb + |b|] == MINUS && input[pb + |b| + 1] == RBRACE
      && (forall k :: pc <= k < pc + |c| ==> CommentText(input[k]))
      && input[pc + |c|] == MINUS && input[pc + |c| + 1] == RBRACE
  {
    BraceCodes();
    var pa := |pre| + 2;
    var pb := pa + |a| + 2;
    var pc := pb + |b| + 2;
    assert forall k :: pa <= k < pa + |a| ==> input[k] == a[k - pa];
    assert forall k :: pb <= k < pb + |b| ==> input[k] == b[k - pb];
    assert forall k :: pc <= k < pc + |c| ==> input[k] == c[k - pc];
  }

  /** The example of the source's comments, character for character. */
  lemma NestedCommentExample(q: Request, s: St)
    requires q.input == Codes("{- a {- b -} c -}") && s.pos == 0
    ensures Brace(q, s) == Step(ResFinish(COMMENT), St(17, Some(17), s.indents))
  {
    var a, b, c := Codes(" a "), Codes(" b "), Codes(" c ");
    assert q.input == [] + Codes("{-") + a + Codes("{-") + b + Codes("-}") + c + Codes("-}") + [];
    NestedCommentIsOne(q, s, [], a, b, c, []);
  }

  /**
   * Every block comment, entered after its `{-`: when the scan closes it, COMMENT marked just
   * after the closing `-}`; otherwise the scan stops on a 0, which fails the scan before the
   * end of input and is left to `eof` at the end of input.
   */
  lemma MultilineCommentResult(q: Request, s: St)
    requires s.pos <= |q.input|
    ensures var (closed, e) := BlockScan(q.input, s.pos, 0);
      && s.pos <= e <= |q.input|
      && (closed ==>
            && s.pos + 2 <= e && q.input[e - 2] == MINUS && q.input[e - 1] == RBRACE
            && MultilineComment(q, s) == Step(ResFinish(COMMENT), St(e, Some(e), s.indents)))
      && (!closed && e < |q.input| ==>
            q.input[e] == NUL && MultilineComment(q, s) == Step(RES_FAIL, s.(pos := e)))
      && (!closed && e == |q.input| ==> MultilineComment(q, s) == OrFail(Eof(q, s.(pos := e))))
  {
    BlockScanStops(q.input, s.pos, 0);
  }

  /** A comment body with no `{` or `-` that meets a 0 before the end of input fails the scan there. */
  lemma UnclosedCommentAtNul(q: Request, s: St, k: nat)
    requires s.pos <= k < |q.input| && q.input[k] == NUL
    requires forall j :: s.pos <= j < k ==> CommentText(q.input[j])
    ensures MultilineComment(q, s) == Step(RES_FAIL, s.(pos := k))
  {
    BlockScanSkipsText(q.input, s.pos, k - s.pos, 0);
  }

  /**
   * A comment body with no `{` or `-` that runs to the end of input is left to `eof`: EMPTY
   * when it is valid, otherwise END or SEMICOLON, otherwise a failure.
   */
  lemma UnclosedCommentAtEnd(q: Request, s: St)
    requires s.pos <= |q.input|
    requires forall j :: s.pos <= j < |q.input| ==> CommentText(q.input[j])
    ensures MultilineComment(q, s) == OrFail(Eof(q, s.(pos := |q.input|)))
    ensures Expects(q, EMPTY) ==> MultilineComment(q, s).res == ResFinish(EMPTY)
  {
    BlockScanSkipsText(q.input, s.pos, |q.input| - s.pos, 0);
  }

  /** `brace` fails unless the input holds `{-` at the cursor. */
  lemma BraceNeedsOpening(q: Request, s: St)
    requires s.pos <= |q.input|
    requires !(s.pos + 2 <= |q.input| && q.input[s.pos] == LBRACE && q.input[s.pos + 1] == MINUS)
    ensures Brace(q, s).res == RES_FAIL
    ensures Brace(q, s).st.indents == s.indents && Brace(q, s).st.mark == s.mark
  {
  }

  /**
   * `comment` decides the scan exactly when it sees `-` or `{`, and otherwise changes
   * nothing: no comment lets a later rule of `newline` run.
   */
  lemma CommentDecides(q: Request, s: St)
    ensures Comment(q, s).res.finished <==> Lookahead(q, s) == MINUS || Lookahead(q, s) == LBRACE
    ensures !Comment(q, s).res.finished ==> Comment(q, s) == Step(RES_CONT, s)
  {
  }

  // ------------------------------------------------------------------
  // End of input and the error probe
  // ------------------------------------------------------------------

  /**
   * At end of input the scan is decided by `eof`: EMPTY if valid (whatever the stack),
   * else END with a pop, else SEMICOLON, else a definitive failure.
   */
  lemma ScanAtEnd(q: Request, s: St)
    requires AtEof(q.input, s.pos)
    ensures var r := ScanAll(q, s);
      && (Expects(q, EMPTY) ==> r == Step(ResFinish(EMPTY), s))
      && (!Expects(q, EMPTY) && Expects(q, END) ==> r == Step(ResFinish(END), PopSt(s)))
      && (!Expects(q, EMPTY) && !Expects(q, END) && Expects(q, SEMICOLON) ==> r == Step(ResFinish(SEMICOLON), s))
      && (!Expects(q, EMPTY) && !Expects(q, END) && !Expects(q, SEMICOLON) ==> r == Step(RES_FAIL, s))
  {
  }

  /** Only spaces and tabs left: the scan skips them and then answers as at end of input. */
  lemma ScanAtTrailingBlanks(q: Request, s: St)
    requires s.pos < |q.input|
    requires forall k :: s.pos <= k < |q.input| ==> q.input[k] == SPACE || q.input[k] == TAB
    requires !AllSyms(q.valid)
    ensures ScanAll(q, s) == Eof(q, s.(pos := |q.input|))
    ensures ScanAll(q, s).res.finished
  {
    InitPasses(q, s);
    assert SkipSpaceFrom(q.input, s.pos) == |q.input|;
  }

  /**
   * When every symbol from SEMICOLON to EMPTY is valid (the host's error recovery) and
   * input remains, the scan fails at once and changes nothing.
   */
  lemma ScanErrorProbe(q: Request, s: St)
    requires !AtEof(q.input, s.pos) && AllSyms(q.valid)
    ensures ScanAll(q, s) == Step(RES_FAIL, s)
    ensures Outcome(ScanAll(q, s).res).None?
  {
  }

  // ------------------------------------------------------------------
  // Layout rules after a line break
  // ------------------------------------------------------------------

  /**
   * A first character of a line that no rule of `comment`, `newline_token` or
   * `close_layout_in_list` takes; `i` is one when IN is not valid, since `in` then does nothing.
   */
  predicate OrdinaryAtLineStart(q: Request, c: int) {
    c != NUL && c != MINUS && c != LBRACE && !Symbolic(c) && c != BACKTICK
    && (c == 'i' as int ==> !Expects(q, IN))
    && c != RBRACKET && c != COMMA_CHAR
  }

  /**
   * After a line break the next line's indent is compared with the stack top: a smaller
   * indent with END valid pops and emits END, otherwise an equal indent with SEMICOLON
   * valid emits SEMICOLON. The token ends at the line break (the mark set before it), and
   * nothing fires on an empty stack.
   */
  lemma LineStartRules(q: Request, s: St, t: nat, e: nat, indent: U32)
    requires s.pos <= |q.input| && t == SkipSpaceFrom(q.input, s.pos)
    requires t < |q.input| && IsNewline(q.input[t])
    requires (e, indent) == CountIndentFrom(q.input, t + 1, 0)
    requires OrdinaryAtLineStart(q, Peek(q.input, e))
    ensures var r := ScanMain(q, s);
      && r.st.pos == e && r.st.mark == Some(t)
      && (Expects(q, END) && SmallerIndent(indent, s.indents) ==>
            r.res == ResFinish(END) && r.st.indents == PopIndent(s.indents))
      && (!(Expects(q, END) && SmallerIndent(indent, s.indents)) ==>
            r.st.indents == s.indents
            && (r.res.finished <==> Expects(q, SEMICOLON) && SameIndent(indent, s.indents))
            && (r.res.finished ==> r.res == ResFinish(SEMICOLON)))
      && (|s.indents| == 0 ==> !r.res.finished)
  {
    ScanMainAtBreak(q, s, t, e, indent);
    NewlineOrdinary(q, St(e, Some(t), s.indents), indent);
  }

  /** `scan_main` at a line break: mark before it, count the next line's indent, go to `newline`. */
  lemma ScanMainAtBreak(q: Request, s: St, t: nat, e: nat, indent: U32)
    requires s.pos <= |q.input| && t == SkipSpaceFrom(q.input, s.pos)
    requires t < |q.input| && IsNewline(q.input[t])
    requires (e, indent) == CountIndentFrom(q.input, t + 1, 0)
    ensures ScanMain(q, s) == Newline(q, St(e, Some(t), s.indents), indent)
  {
  }

  /** Before an ordinary character, `newline` comes down to `newline_indent`'s two comparisons. */
  lemma NewlineOrdinary(q: Request, s: St, indent: U32)
    requires s.pos < |q.input| && OrdinaryAtLineStart(q, q.input[s.pos])
    ensures Newline(q, s, indent) ==
      if Expects(q, END) && SmallerIndent(indent, s.indents) then Step(ResFinish(END), PopSt(s))
      else if Expects(q, SEMICOLON) && SameIndent(indent, s.indents) then Step(ResFinish(SEMICOLON), s)
      else Step(RES_CONT, s)
  {
  }

  /** In `newline`, `newline_token` never sees a `-`: `comment` has already finished on it. */
  lemma NewlineTokenDashUnreachable(q: Request, s: St)
    ensures !Comment(q, s).res.finished ==> Lookahead(q, Comment(q, s).st) != MINUS
  {
  }

  /** After a line break before `,`: the outcome `CommaAfterBreak`, at the line break's mark. */
  lemma LineStartComma(q: Request, s: St, t: nat, e: nat, indent: U32)
    requires s.pos <= |q.input| && t == SkipSpaceFrom(q.input, s.pos)
    requires t < |q.input| && IsNewline(q.input[t])
    requires (e, indent) == CountIndentFrom(q.input, t + 1, 0)
    requires e < |q.input| && q.input[e] == COMMA_CHAR
    ensures ScanMain(q, s) == CommaAfterBreak(q, St(e, Some(t), s.indents), indent)
  {
    ScanMainAtBreak(q, s, t, e, indent);
    NewlineAtComma(q, St(e, Some(t), s.indents), indent);
  }

  /**
   * After a line break before `]`: END with a pop (the mark left at the line break) whenever
   * END is valid, whatever the indent; otherwise the semicolon rule.
   */
  lemma LineStartBracket(q: Request, s: St, t: nat, e: nat, indent: U32)
    requires s.pos <= |q.input| && t == SkipSpaceFrom(q.input, s.pos)
    requires t < |q.input| && IsNewline(q.input[t])
    requires (e, indent) == CountIndentFrom(q.input, t + 1, 0)
    requires e < |q.input| && q.input[e] == RBRACKET
    ensures ScanMain(q, s) ==
      if Expects(q, END) then Step(ResFinish(END), St(e, Some(t), PopIndent(s.indents)))
      else if Expects(q, SEMICOLON) && SameIndent(indent, s.indents) then Step(ResFinish(SEMICOLON), St(e, Some(t), s.indents))
      else Step(RES_CONT, St(e, Some(t), s.indents))
  {
    ScanMainAtBreak(q, s, t, e, indent);
    NewlineAtBracket(q, St(e, Some(t), s.indents), indent);
  }

  /**
   * The outcome at a `,` that starts a line: a dedent with END valid comes first; otherwise
   * COMMA marked after the comma, else END with a pop (the comma consumed, the mark kept at
   * the line break), else a failure.
   */
  function CommaAfterBreak(q: Request, s: St, indent: U32): Step {
    if Expects(q, END) && SmallerIndent(indent, s.indents) then Step(ResFinish(END), PopSt(s))
    else if Expects(q, COMMA) then Step(ResFinish(COMMA), St(s.pos + 1, Some(s.pos + 1), s.indents))
    else if Expects(q, END) then Step(ResFinish(END), St(s.pos + 1, s.mark, PopIndent(s.indents)))
    else Step(RES_FAIL, s.(pos := s.pos + 1))
  }

  /** `newline` before `,`: the dedent first, then `close_layout_in_list`'s comma rule. */
  lemma NewlineAtComma(q: Request, s: St, indent: U32)
    requires s.pos < |q.input| && q.input[s.pos] == COMMA_CHAR
    ensures Newline(q, s, indent) == CommaAfterBreak(q, s, indent)
  {
  }

  /** `newline` before `]`: the dedent first, then END if valid, then the semicolon rule. */
  lemma NewlineAtBracket(q: Request, s: St, indent: U32)
    requires s.pos < |q.input| && q.input[s.pos] == RBRACKET
    ensures Newline(q, s, indent) ==
      if Expects(q, END) then Step(ResFinish(END), PopSt(s))
      else if Expects(q, SEMICOLON) && SameIndent(indent, s.indents) then Step(ResFinish(SEMICOLON), s)
      else Step(RES_CONT, s)
  {
  }

  /**
   * After a line break before an operator character other than `-`, or a backtick,
   * `newline_token` fails the scan: no dedent END and no SEMICOLON is emitted, whatever the
   * indent, and the stack is unchanged.
   */
  lemma OperatorAtLineStart(q: Request, s: St, t: nat, e: nat, indent: U32)
    requires s.pos <= |q.input| && t == SkipSpaceFrom(q.input, s.pos)
    requires t < |q.input| && IsNewline(q.input[t])
    requires (e, indent) == CountIndentFrom(q.input, t + 1, 0)
    requires (Symbolic(Peek(q.input, e)) && Peek(q.input, e) != MINUS) || Peek(q.input, e) == BACKTICK
    ensures ScanMain(q, s) == Step(RES_FAIL, St(e, Some(t), s.indents))
  {
    ScanMainAtBreak(q, s, t, e, indent);
  }

  /** A dedent before a `|` continuation line: the layout is not closed and the scan fails. */
  lemma DedentBeforeOperator(q: Request, s: St, t: nat, e: nat, indent: U32)
    requires s.pos <= |q.input| && t == SkipSpaceFrom(q.input, s.pos)
    requires t < |q.input| && IsNewline(q.input[t])
    requires (e, indent) == CountIndentFrom(q.input, t + 1, 0)
    requires Peek(q.input, e) == '|' as int
    requires Expects(q, END) && SmallerIndent(indent, s.indents)
    ensures ScanMain(q, s).res == RES_FAIL && ScanMain(q, s).st.indents == s.indents
  {
    OperatorAtLineStart(q, s, t, e, indent);
  }

  /**
   * After a line break, `in` with IN valid closes the layout as the IN token, marked after
   * the keyword, whatever the indent: `newline_token` runs before the indent is compared.
   */
  lemma LineStartIn(q: Request, s: St, t: nat, e: nat, indent: U32)
    requires s.pos <= |q.input| && t == SkipSpaceFrom(q.input, s.pos)
    requires t < |q.input| && IsNewline(q.input[t])
    requires (e, indent) == CountIndentFrom(q.input, t + 1, 0)
    requires Expects(q, IN)
    requires e + 2 <= |q.input| && q.input[e] == 'i' as int && q.input[e + 1] == 'n' as int
    requires TokenEnd(Peek(q.input, e + 2))
    ensures ScanMain(q, s) == Step(ResFinish(IN), St(e + 2, Some(e + 2), PopIndent(s.indents)))
  {
    NewlineAtIn(q, St(e, Some(t), s.indents), indent);
    ScanMainAtBreak(q, s, t, e, indent);
  }

  /** `newline` before the keyword `in` with IN valid: `newline_token` emits IN. */
  lemma NewlineAtIn(q: Request, s: St, indent: U32)
    requires Expects(q, IN)
    requires s.pos + 2 <= |q.input| && q.input[s.pos] == 'i' as int && q.input[s.pos + 1] == 'n' as int
    requires TokenEnd(Peek(q.input, s.pos + 2))
    ensures Newline(q, s, indent) == Step(ResFinish(IN), St(s.pos + 2, Some(s.pos + 2), PopIndent(s.indents)))
  {
    assert q.input[s.pos..s.pos + 2] == Codes("in");
  }

  // ------------------------------------------------------------------
  // Layout rules on the same line
  // ------------------------------------------------------------------

  /** A character that `inline_tokens` does not look at (`-` among them: no comment starts mid-line). */
  predicate OrdinaryMidLine(c: int) {
    c != 'w' as int && c != 'i' as int && c != 'e' as int && c != RPAREN && c != RBRACKET && c != COMMA_CHAR
  }

  /** With START valid, the scan opens a layout at the column of the next character, whatever it is. */
  lemma LayoutStartAlways(q: Request, s: St, t: nat)
    requires s.pos <= |q.input| && t == SkipSpaceFrom(q.input, s.pos)
    requires t < |q.input| && !IsNewline(q.input[t])
    requires Expects(q, START)
    ensures ScanMain(q, s) ==
      Step(ResFinish(START), St(t, Some(t), PushIndent(s.indents, Column(q.input, t) % U16_MOD)))
  {
  }

  /**
   * On the same line, a column at most the top with SEMICOLON valid emits SEMICOLON; otherwise
   * a column below the top with END valid pops and emits END. Nothing fires on an empty stack.
   */
  lemma SameLineRules(q: Request, s: St, t: nat)
    requires s.pos <= |q.input| && t == SkipSpaceFrom(q.input, s.pos)
    requires t < |q.input| && !IsNewline(q.input[t]) && OrdinaryMidLine(q.input[t])
    requires !Expects(q, START)
    ensures var col := Column(q.input, t); var r := ScanMain(q, s);
      && r.st.pos == t && r.st.mark == Some(t)
      && (Expects(q, SEMICOLON) && IndentLesseq(col, s.indents) ==>
            r.res == ResFinish(SEMICOLON) && r.st.indents == s.indents)
      && (!(Expects(q, SEMICOLON) && IndentLesseq(col, s.indents)) && Expects(q, END) && SmallerIndent(col, s.indents) ==>
            r.res == ResFinish(END) && r.st.indents == PopIndent(s.indents))
      && (!(Expects(q, SEMICOLON) && IndentLesseq(col, s.indents)) && !(Expects(q, END) && SmallerIndent(col, s.indents)) ==>
            r.res == RES_CONT && r.st.indents == s.indents)
      && (|s.indents| == 0 ==> !r.res.finished)
  {
  }

  // ------------------------------------------------------------------
  // Keywords and brackets on the same line
  // ------------------------------------------------------------------

  /** `in` with IN valid closes the layout and is itself the IN token, marked after the keyword. */
  lemma InKeyword(q: Request, s: St)
    requires Expects(q, IN)
    requires s.pos + 2 <= |q.input| && q.input[s.pos..s.pos + 2] == Codes("in")
    requires TokenEnd(Peek(q.input, s.pos + 2))
    ensures InlineTokens(q, s) == Step(ResFinish(IN), St(s.pos + 2, Some(s.pos + 2), PopIndent(s.indents)))
  {
    assert Codes("in")[0] == 'i' as int;
    assert q.input[s.pos] == q.input[s.pos..s.pos + 2][0];
  }

  /**
   * `else` with END valid ends the layout: the keyword is consumed but not marked, so the
   * END token ends where the mark already was.
   */
  lemma ElseEndsLayout(q: Request, s: St)
    requires Expects(q, END)
    requires s.pos + 4 <= |q.input| && q.input[s.pos..s.pos + 4] == Codes("else")
    requires TokenEnd(Peek(q.input, s.pos + 4))
    ensures InlineTokens(q, s) == Step(ResFinish(END), St(s.pos + 4, s.mark, PopIndent(s.indents)))
  {
    assert Codes("else")[0] == 'e' as int;
    assert q.input[s.pos] == q.input[s.pos..s.pos + 4][0];
  }

  /**
   * `where` is the WHERE token (marked after it) when valid; otherwise it may end the layout
   * (END, unmarked), and otherwise the scan fails.
   */
  lemma WhereKeyword(q: Request, s: St)
    requires s.pos + 5 <= |q.input| && q.input[s.pos..s.pos + 5] == Codes("where")
    requires TokenEnd(Peek(q.input, s.pos + 5))
    ensures var r := InlineTokens(q, s);
      && (Expects(q, WHERE) ==> r == Step(ResFinish(WHERE), St(s.pos + 5, Some(s.pos + 5), s.indents)))
      && (!Expects(q, WHERE) && Expects(q, END) ==> r == Step(ResFinish(END), St(s.pos + 5, s.mark, PopIndent(s.indents))))
      && (!Expects(q, WHERE) && !Expects(q, END) ==> r == Step(RES_FAIL, s.(pos := s.pos + 5)))
  {
    assert Codes("where")[0] == 'w' as int;
    assert q.input[s.pos] == q.input[s.pos..s.pos + 5][0];
  }

  /**
   * A word that starts like `where` or `else` but is not that keyword fails the scan, and
   * leaves the cursor after the part of the keyword it matched.
   */
  lemma LookalikeWordFails(q: Request, s: St, lit: seq<int>)
    requires s.pos < |q.input|
    requires lit == Codes("where") || lit == Codes("else")
    requires q.input[s.pos] == lit[0]
    requires !(s.pos + |lit| <= |q.input| && q.input[s.pos..s.pos + |lit|] == lit && TokenEnd(Peek(q.input, s.pos + |lit|)))
    ensures InlineTokens(q, s) == Step(RES_FAIL, s.(pos := MatchSeq(q.input, lit, s.pos).1))
  {
    assert !Token(q, lit, s).0;
    if lit == Codes("where") {
      assert Codes("where")[0] == 'w' as int;
    } else {
      assert Codes("else")[0] == 'e' as int;
    }
  }

  /** `)` with END valid ends the layout without consuming or marking anything; with END invalid the scan fails. */
  lemma CloseParenEndsLayout(q: Request, s: St)
    requires s.pos < |q.input| && q.input[s.pos] == RPAREN
    ensures Expects(q, END) ==> InlineTokens(q, s) == Step(ResFinish(END), PopSt(s))
    ensures !Expects(q, END) ==> InlineTokens(q, s) == Step(RES_FAIL, s)
  {
  }

  /**
   * `,` on the same line: COMMA marked after it when valid; otherwise END (the comma consumed
   * but not marked) with a pop when END is valid; otherwise the scan fails.
   */
  lemma CommaRule(q: Request, s: St)
    requires s.pos < |q.input| && q.input[s.pos] == COMMA_CHAR
    ensures var r := InlineTokens(q, s);
      && (Expects(q, COMMA) ==> r == Step(ResFinish(COMMA), St(s.pos + 1, Some(s.pos + 1), s.indents)))
      && (!Expects(q, COMMA) && Expects(q, END) ==> r == Step(ResFinish(END), St(s.pos + 1, s.mark, PopIndent(s.indents))))
      && (!Expects(q, COMMA) && !Expects(q, END) ==> r == Step(RES_FAIL, s.(pos := s.pos + 1)))
  {
  }

  /** `]` on the same line: END with a pop, nothing consumed, when END is valid; otherwise no token. */
  lemma BracketRule(q: Request, s: St)
    requires s.pos < |q.input| && q.input[s.pos] == RBRACKET
    ensures Expects(q, END) ==> InlineTokens(q, s) == Step(ResFinish(END), PopSt(s))
    ensures !Expects(q, END) ==> InlineTokens(q, s) == Step(RES_CONT, s)
  {
  }

  /** `close_layout_in_list` takes only `,` and `]`: before anything else it changes nothing. */
  lemma ListRulesPass(q: Request, s: St)
    requires Lookahead(q, s) != COMMA_CHAR && Lookahead(q, s) != RBRACKET
    ensures CloseLayoutInList(q, s) == Step(RES_CONT, s)
  {
  }

  /**
   * A `.` with DOT valid: VARSYM (nothing marked) when VARSYM is valid and whitespace
   * follows, otherwise DOT marked just after the dot.
   */
  lemma DotResult(q: Request, s: St)
    requires s.pos < |q.input| && q.input[s.pos] == PERIOD && Expects(q, DOT)
    ensures var r := Dot(q, s);
      && (Expects(q, VARSYM) && IsWs(Peek(q.input, s.pos + 1)) ==> r == Step(ResFinish(VARSYM), s.(pos := s.pos + 1)))
      && (!(Expects(q, VARSYM) && IsWs(Peek(q.input, s.pos + 1))) ==>
            r == Step(ResFinish(DOT), St(s.pos + 1, Some(s.pos + 1), s.indents)))
  {
  }

  // ------------------------------------------------------------------
  // Folds before any whitespace is skipped
  // ------------------------------------------------------------------

  /** With FOLD valid, `---` at the cursor folds the rest of the input. */
  lemma FoldAtCursor(q: Request, s: St)
    requires s.pos + 3 <= |q.input| && q.input[s.pos..s.pos + 3] == Codes("---")
    requires Expects(q, FOLD) && !AllSyms(q.valid)
    ensures ScanAll(q, s) == Step(ResFinish(FOLD), St(|q.input|, Some(|q.input|), s.indents))
  {
    DashCodes();
    MatchSeqResult(q.input, Codes("---"), s.pos);
  }

  /**
   * With FOLD valid, a failed `---` still consumes what matched: after `--` and another
   * character the scan goes on from two characters further.
   */
  lemma FoldMissAdvances(q: Request, s: St)
    requires s.pos + 2 < |q.input| && q.input[s.pos..s.pos + 2] == Codes("--") && q.input[s.pos + 2] != MINUS
    requires Expects(q, FOLD) && !AllSyms(q.valid)
    ensures ScanAll(q, s) == ScanMain(q, s.(pos := s.pos + 2))
  {
    DashCodes();
    MatchSeqResult(q.input, Codes("---"), s.pos);
    assert q.input[s.pos..s.pos + 3][..2] == q.input[s.pos..s.pos + 2];
  }

  // ------------------------------------------------------------------
  // Successive scans
  // ------------------------------------------------------------------

  /** Where the host starts the next scan: at the token end (the cursor when nothing was marked), unmarked. */
  function Resume(s: St): St {
    St(if s.mark.Some? then s.mark.value else s.pos, None, s.indents)
  }

  /** `init` lets the scan through to `scan_main` when no dot or dash is at the cursor. */
  lemma InitPasses(q: Request, s: St)
    requires s.pos < |q.input| && !AllSyms(q.valid)
    requires q.input[s.pos] != PERIOD && q.input[s.pos] != MINUS
    ensures Init(q, s) == Step(RES_CONT, s)
  {
    DashCodes();
  }

  /**
   * A first character of a line before which a smaller indent closes the layout: an ordinary
   * one, `,` or `]`. (A comment, an operator, a backtick, `i` with IN valid and the end of
   * input are decided by other rules first.)
   */
  predicate DedentsAtLineStart(q: Request, c: int) {
    OrdinaryAtLineStart(q, c) || c == COMMA_CHAR || c == RBRACKET
  }

  /** One scan from a line break before a smaller indent: END at the line break, one column popped. */
  lemma DedentOnce(q: Request, s: St, e: nat, indent: U32)
    requires s.pos < |q.input| && IsNewline(q.input[s.pos])
    requires (e, indent) == CountIndentFrom(q.input, s.pos + 1, 0)
    requires DedentsAtLineStart(q, Peek(q.input, e))
    requires Expects(q, END) && !AllSyms(q.valid)
    requires SmallerIndent(indent, s.indents)
    ensures ScanAll(q, s) == Step(ResFinish(END), St(e, Some(s.pos), s.indents[..|s.indents| - 1]))
  {
    NewlineDedent(q, St(e, Some(s.pos), s.indents), indent);
    InitPasses(q, s);
    ScanMainAtBreak(q, s, s.pos, e, indent);
  }

  /** `newline` before a smaller indent with END valid: END with a pop, unless another rule decides first. */
  lemma NewlineDedent(q: Request, s: St, indent: U32)
    requires DedentsAtLineStart(q, Peek(q.input, s.pos))
    requires Expects(q, END) && SmallerIndent(indent, s.indents)
    ensures Newline(q, s, indent) == Step(ResFinish(END), PopSt(s))
  {
    if Peek(q.input, s.pos) == COMMA_CHAR {
      NewlineAtComma(q, s, indent);
    } else if Peek(q.input, s.pos) == RBRACKET {
      NewlineAtBracket(q, s, indent);
    } else {
      NewlineOrdinary(q, s, indent);
    }
  }

  /** The start of the `i`-th scan of a cascade: the line break, with `i` columns closed. */
  function CascadeState(s: St, i: nat): St
    requires i <= |s.indents|
  {
    s.(indents := s.indents[..|s.indents| - i])
  }

  /**
   * A dedent closes several layouts one scan at a time: from a line break whose next line
   * is indented less than the top `n` columns of the stack, the `i`-th of `n` scans in a row
   * emits a zero-width END at the line break and pops one more column, and the host's next
   * scan starts exactly where the `i + 1`-th is stated.
   */
  lemma DedentCascade(q: Request, s: St, n: nat, e: nat, indent: U32)
    requires s.pos < |q.input| && IsNewline(q.input[s.pos]) && s.mark == None
    requires (e, indent) == CountIndentFrom(q.input, s.pos + 1, 0)
    requires DedentsAtLineStart(q, Peek(q.input, e))
    requires Expects(q, END) && !AllSyms(q.valid)
    requires n <= |s.indents|
    requires forall k :: |s.indents| - n <= k < |s.indents| ==> indent < s.indents[k]
    ensures forall i :: 0 <= i < n ==>
      ScanAll(q, CascadeState(s, i)) == Step(ResFinish(END), St(e, Some(s.pos), CascadeState(s, i + 1).indents))
    ensures forall i :: 0 <= i < n ==> Resume(ScanAll(q, CascadeState(s, i)).st) == CascadeState(s, i + 1)
  {
    var st := s.indents;
    forall i | 0 <= i < n
      ensures ScanAll(q, CascadeState(s, i)) == Step(ResFinish(END), St(e, Some(s.pos), CascadeState(s, i + 1).indents))
    {
      var cut := st[..|st| - i];
      assert cut[|cut| - 1] == st[|st| - i - 1];
      assert cut[..|cut| - 1] == st[..|st| - (i + 1)];
      DedentOnce(q, CascadeState(s, i), e, indent);
    }
  }
}
