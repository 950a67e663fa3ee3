/**
 * The scanner as the source runs it: recognizers that move the host lexer's
 * cursor step by step and push or pop the persistent indentation vector. Each
 * method is proved to compute the function of the same name in ScanSpec, so
 * everything proved there about results and states holds of these methods.
 */
module Scanner {
  import opened Syms
  import opened Chars
  import opened Cursor
  import opened Layout
  import opened IndentStack
  import opened Host
  import opened ScanSpec

  /** The per-call `State`: the host lexer, the valid-symbol flags, and the scanner's persistent stack. */
  class State {
    const lexer: Lexer
    const symbols: ValidSymbols
    const indents: IndentVec

    constructor (l: Lexer, vs: ValidSymbols, iv: IndentVec)
      ensures lexer == l && symbols == vs && indents == iv
    {
      lexer := l;
      symbols := vs;
      indents := iv;
    }

    ghost predicate Valid()
      reads indents
    {
      indents.Valid()
    }

    /** The state value the recognizers of ScanSpec work on. */
    ghost function Snap(): St
      reads lexer, indents
    {
      St(lexer.pos, lexer.mark, indents.data)
    }

    function Req(): Request {
      Request(lexer.input, symbols)
    }

    /** `column`. */
    function Column(): U32
      reads lexer
    {
      Cursor.Column(lexer.input, lexer.pos)
    }

    // ------------------------------------------------------------------
    // Cursor loops
    // ------------------------------------------------------------------

    /** `seq`. */
    method Seq(lit: seq<int>) returns (ok: bool)
      modifies lexer`pos
      ensures (ok, lexer.pos) == ScanSpec.MatchSeq(lexer.input, lit, old(lexer.pos))
    {
      var i := 0;
      while i < |lit|
        invariant 0 <= i <= |lit|
        invariant ScanSpec.MatchSeq(lexer.input, lit[i..], lexer.pos)
               == ScanSpec.MatchSeq(lexer.input, lit, old(lexer.pos))
      {
        if lexer.Lookahead() != lit[i] {
          return false;
        }
        lexer.Advance();
        i := i + 1;
      }
      return true;
    }

    /** `token`. */
    method Token(lit: seq<int>) returns (ok: bool)
      requires forall i :: 0 <= i < |lit| ==> lit[i] != NUL
      modifies lexer`pos
      ensures (ok, Snap()) == ScanSpec.Token(Req(), lit, old(Snap()))
    {
      ok := Seq(lit);
      ok := ok && TokenEnd(lexer.Lookahead());
    }

    /** `skipspace`. */
    method SkipSpace()
      modifies lexer`pos
      ensures lexer.pos == SkipSpaceFrom(lexer.input, old(lexer.pos))
    {
      while lexer.Lookahead() == SPACE || lexer.Lookahead() == TAB
        invariant SkipSpaceFrom(lexer.input, lexer.pos) == SkipSpaceFrom(lexer.input, old(lexer.pos))
        decreases |lexer.input| - lexer.pos
      {
        lexer.Advance();
      }
    }

    /** `count_indent`, with the counter as an unsigned 32-bit value. */
    method CountIndent() returns (indent: U32)
      modifies lexer`pos
      ensures (lexer.pos, indent) == CountIndentFrom(lexer.input, old(lexer.pos), 0)
    {
      indent := 0;
      while IndentChar(lexer.Lookahead())
        invariant CountIndentFrom(lexer.input, lexer.pos, indent) == CountIndentFrom(lexer.input, old(lexer.pos), 0)
        decreases |lexer.input| - lexer.pos
      {
        var c := lexer.Lookahead();
        lexer.Advance();
        if IsNewline(c) {
          indent := 0;
        } else if c == SPACE {
          indent := (indent + 1) % U32_MOD;
        } else {
          indent := (indent + 8) % U32_MOD;
        }
      }
    }

    /** `while (!is_eof(state)) S_ADVANCE;` in `fold` and `minus`. */
    method AdvanceToEof()
      modifies lexer`pos
      ensures lexer.pos == ToEnd(lexer.input, old(lexer.pos))
    {
      while !lexer.IsEof()
        invariant ToEnd(lexer.input, lexer.pos) == ToEnd(lexer.input, old(lexer.pos))
        decreases |lexer.input| - lexer.pos
      {
        lexer.Advance();
      }
    }

    // ------------------------------------------------------------------
    // Recognizers
    // ------------------------------------------------------------------

    /** `finish_if_valid`. */
    method FinishIfValid(t: Sym) returns (res: Result)
      ensures Step(res, Snap()) == ScanSpec.FinishIfValid(Req(), t, Snap())
    {
      res := if Accepts(symbols, t) then ResFinish(t) else RES_CONT;
    }

    /** `layout_end`. */
    method LayoutEnd() returns (res: Result)
      requires Valid()
      modifies indents
      ensures Valid()
      ensures Step(res, Snap()) == ScanSpec.LayoutEnd(Req(), old(Snap()))
    {
      if Accepts(symbols, END) {
        indents.Pop();
        return ResFinish(END);
      }
      return RES_CONT;
    }

    /** `end_or_semicolon`. */
    method EndOrSemicolon() returns (res: Result)
      requires Valid()
      modifies indents
      ensures Valid()
      ensures Step(res, Snap()) == ScanSpec.EndOrSemicolon(Req(), old(Snap()))
    {
      res := LayoutEnd();
      if res.finished {
        return;
      }
      res := FinishIfValid(SEMICOLON);
    }

    /** `eof`. */
    method Eof() returns (res: Result)
      requires Valid()
      modifies indents
      ensures Valid()
      ensures Step(res, Snap()) == ScanSpec.Eof(Req(), old(Snap()))
    {
      if lexer.IsEof() {
        if Accepts(symbols, EMPTY) {
          return ResFinish(EMPTY);
        }
        res := EndOrSemicolon();
        if res.finished {
          return;
        }
        return RES_FAIL;
      }
      return RES_CONT;
    }

    /** `dot`. */
    method Dot() returns (res: Result)
      modifies lexer`pos, lexer`mark
      ensures Step(res, Snap()) == ScanSpec.Dot(Req(), old(Snap()))
    {
      if Accepts(symbols, DOT) && lexer.Lookahead() == PERIOD {
        lexer.Advance();
        if Accepts(symbols, VARSYM) && IsWs(lexer.Lookahead()) {
          return ResFinish(VARSYM);
        }
        lexer.MarkEnd();
        return ResFinish(DOT);
      }
      return RES_CONT;
    }

    /** `fold`. */
    method Fold() returns (res: Result)
      modifies lexer`pos, lexer`mark
      ensures Step(res, Snap()) == ScanSpec.Fold(Req(), old(Snap()))
    {
      var ok := Seq(Codes("---"));
      if ok {
        AdvanceToEof();
        lexer.MarkEnd();
        return ResFinish(FOLD);
      }
      return RES_CONT;
    }

    /** `dedent`. */
    method Dedent(indent: U32) returns (res: Result)
      requires Valid()
      modifies indents
      ensures Valid()
      ensures Step(res, Snap()) == ScanSpec.Dedent(Req(), old(Snap()), indent)
    {
      if SmallerIndent(indent, indents.data) {
        res := LayoutEnd();
        return;
      }
      return RES_CONT;
    }

    /** `newline_semicolon`. */
    method NewlineSemicolon(indent: U32) returns (res: Result)
      ensures Step(res, Snap()) == ScanSpec.NewlineSemicolon(Req(), Snap(), indent)
    {
      if Accepts(symbols, SEMICOLON) && SameIndent(indent, indents.data) {
        return ResFinish(SEMICOLON);
      }
      return RES_CONT;
    }

    /** `where`. */
    method Where() returns (res: Result)
      requires Valid()
      modifies lexer`pos, lexer`mark, indents
      ensures Valid()
      ensures Step(res, Snap()) == ScanSpec.Where(Req(), old(Snap()))
    {
      var ok := Token(Codes("where"));
      if ok {
        if Accepts(symbols, WHERE) {
          lexer.MarkEnd();
          return ResFinish(WHERE);
        }
        res := LayoutEnd();
        return;
      }
      return RES_CONT;
    }

    /** `in`. */
    method In() returns (res: Result)
      requires Valid()
      modifies lexer`pos, lexer`mark, indents
      ensures Valid()
      ensures Step(res, Snap()) == ScanSpec.In(Req(), old(Snap()))
    {
      if Accepts(symbols, IN) {
        var ok := Token(Codes("in"));
        if ok {
          lexer.MarkEnd();
          indents.Pop();
          return ResFinish(IN);
        }
      }
      return RES_CONT;
    }

    /** `else_`. */
    method Else() returns (res: Result)
      requires Valid()
      modifies lexer`pos, lexer`mark, indents
      ensures Valid()
      ensures Step(res, Snap()) == ScanSpec.Else(Req(), old(Snap()))
    {
      var ok := Token(Codes("else"));
      if ok {
        res := LayoutEnd();
      } else {
        res := RES_CONT;
      }
    }

    /** `inline_comment`. */
    method InlineComment() returns (res: Result)
      modifies lexer`pos, lexer`mark
      ensures Step(res, Snap()) == ScanSpec.InlineComment(Req(), old(Snap()))
    {
      while !(IsNewline(lexer.Lookahead()) || lexer.Lookahead() == NUL)
        invariant LineEndFrom(lexer.input, lexer.pos) == LineEndFrom(lexer.input, old(lexer.pos))
        invariant lexer.mark == old(lexer.mark)
        decreases |lexer.input| - lexer.pos
      {
        lexer.Advance();
      }
      lexer.MarkEnd();
      return ResFinish(COMMENT);
    }

    /** `minus`. */
    method Minus() returns (res: Result)
      modifies lexer`pos, lexer`mark
      ensures Step(res, Snap()) == ScanSpec.Minus(Req(), old(Snap()))
    {
      var ok := Seq(Codes("--"));
      if !ok {
        return RES_CONT;
      }
      if lexer.Lookahead() == MINUS {
        lexer.Advance();
        if lexer.IsEof() || IsNewline(lexer.Lookahead()) {
          AdvanceToEof();
          lexer.MarkEnd();
          return ResFinish(FOLD);
        }
        return RES_FAIL;
      }
      res := InlineComment();
    }

    /** `multiline_comment`, with its 16-bit `level` counter. */
    method MultilineComment() returns (res: Result)
      requires Valid()
      modifies lexer`pos, lexer`mark, indents
      ensures Valid()
      ensures Step(res, Snap()) == ScanSpec.MultilineComment(Req(), old(Snap()))
    {
      var level: U16 := 0;
      while true
        invariant BlockScan(lexer.input, lexer.pos, level) == BlockScan(lexer.input, old(lexer.pos), 0)
        invariant lexer.mark == old(lexer.mark) && indents.data == old(indents.data) && Valid()
        decreases |lexer.input| - lexer.pos
      {
        var c := lexer.Lookahead();
        if c == LBRACE {
          lexer.Advance();
          if lexer.Lookahead() == MINUS {
            lexer.Advance();
            level := (level + 1) % U16_MOD;
          }
        } else if c == MINUS {
          lexer.Advance();
          if lexer.Lookahead() == RBRACE {
            lexer.Advance();
            if level == 0 {
              lexer.MarkEnd();
              return ResFinish(COMMENT);
            }
            level := level - 1;
          }
        } else if c == NUL {
          res := Eof();
          if res.finished {
            return;
          }
          return RES_FAIL;
        } else {
          lexer.Advance();
        }
      }
    }

    /** `brace`. */
    method Brace() returns (res: Result)
      requires Valid()
      modifies lexer`pos, lexer`mark, indents
      ensures Valid()
      ensures Step(res, Snap()) == ScanSpec.Brace(Req(), old(Snap()))
    {
      if lexer.Lookahead() != LBRACE {
        return RES_FAIL;
      }
      lexer.Advance();
      if lexer.Lookahead() != MINUS {
        return RES_FAIL;
      }
      lexer.Advance();
      res := MultilineComment();
    }

    /** `comment`. */
    method Comment() returns (res: Result)
      requires Valid()
      modifies lexer`pos, lexer`mark, indents
      ensures Valid()
      ensures Step(res, Snap()) == ScanSpec.Comment(Req(), old(Snap()))
    {
      var c := lexer.Lookahead();
      if c == MINUS {
        res := Minus();
        if res.finished {
          return;
        }
        return RES_FAIL;
      } else if c == LBRACE {
        res := Brace();
        if res.finished {
          return;
        }
        return RES_FAIL;
      }
      return RES_CONT;
    }

    /** `close_layout_in_list`. */
    method CloseLayoutInList() returns (res: Result)
      requires Valid()
      modifies lexer`pos, lexer`mark, indents
      ensures Valid()
      ensures Step(res, Snap()) == ScanSpec.CloseLayoutInList(Req(), old(Snap()))
    {
      var c := lexer.Lookahead();
      if c == RBRACKET {
        if Accepts(symbols, END) {
          indents.Pop();
          return ResFinish(END);
        }
      } else if c == COMMA_CHAR {
        lexer.Advance();
        if Accepts(symbols, COMMA) {
          lexer.MarkEnd();
          return ResFinish(COMMA);
        }
        res := LayoutEnd();
        if res.finished {
          return;
        }
        return RES_FAIL;
      }
      return RES_CONT;
    }

    /** `inline_tokens`. */
    method InlineTokens() returns (res: Result)
      requires Valid()
      modifies lexer`pos, lexer`mark, indents
      ensures Valid()
      ensures Step(res, Snap()) == ScanSpec.InlineTokens(Req(), old(Snap()))
    {
      var c := lexer.Lookahead();
      if c == 'w' as int {
        res := Where();
      } else if c == 'i' as int {
        res := In();
      } else if c == 'e' as int {
        res := Else();
      } else if c == RPAREN {
        res := LayoutEnd();
      } else {
        res := CloseLayoutInList();
        return;
      }
      if res.finished {
        return;
      }
      return RES_FAIL;
    }

    /** `layout_start`: `push` takes the column as a 16-bit value. */
    method LayoutStart(column: U32) returns (res: Result)
      requires Valid()
      modifies indents
      ensures Valid()
      ensures Step(res, Snap()) == ScanSpec.LayoutStart(Req(), old(Snap()), column)
    {
      if Accepts(symbols, START) {
        indents.Push(column % U16_MOD);
        return ResFinish(START);
      }
      return RES_CONT;
    }

    /** `post_end_semicolon`. */
    method PostEndSemicolon(column: U32) returns (res: Result)
      ensures Step(res, Snap()) == ScanSpec.PostEndSemicolon(Req(), Snap(), column)
    {
      if Accepts(symbols, SEMICOLON) && IndentLesseq(column, indents.data) {
        return ResFinish(SEMICOLON);
      }
      return RES_CONT;
    }

    /** `repeat_end`. */
    method RepeatEnd(column: U32) returns (res: Result)
      requires Valid()
      modifies indents
      ensures Valid()
      ensures Step(res, Snap()) == ScanSpec.RepeatEnd(Req(), old(Snap()), column)
    {
      if Accepts(symbols, END) && SmallerIndent(column, indents.data) {
        res := LayoutEnd();
        return;
      }
      return RES_CONT;
    }

    /** `newline_indent`. */
    method NewlineIndent(indent: U32) returns (res: Result)
      requires Valid()
      modifies lexer`pos, lexer`mark, indents
      ensures Valid()
      ensures Step(res, Snap()) == ScanSpec.NewlineIndent(Req(), old(Snap()), indent)
    {
      res := Dedent(indent);
      if res.finished {
        return;
      }
      res := CloseLayoutInList();
      if res.finished {
        return;
      }
      res := NewlineSemicolon(indent);
    }

    /** `newline_token`. */
    method NewlineToken() returns (res: Result)
      requires Valid()
      modifies lexer`pos, lexer`mark, indents
      ensures Valid()
      ensures Step(res, Snap()) == ScanSpec.NewlineToken(Req(), old(Snap()))
    {
      var c := lexer.Lookahead();
      if c == MINUS {
        res := Minus();
        return;
      }
      if Symbolic(c) || c == BACKTICK {
        return RES_FAIL;
      }
      if c == 'i' as int {
        res := In();
        return;
      }
      return RES_CONT;
    }

    /** `newline`. */
    method Newline(indent: U32) returns (res: Result)
      requires Valid()
      modifies lexer`pos, lexer`mark, indents
      ensures Valid()
      ensures Step(res, Snap()) == ScanSpec.Newline(Req(), old(Snap()), indent)
    {
      res := Eof();
      if res.finished {
        return;
      }
      res := Comment();
      if res.finished {
        return;
      }
      res := NewlineToken();
      if res.finished {
        return;
      }
      res := NewlineIndent(indent);
    }

    /** `immediate`. */
    method Immediate(column: U32) returns (res: Result)
      requires Valid()
      modifies lexer`pos, lexer`mark, indents
      ensures Valid()
      ensures Step(res, Snap()) == ScanSpec.Immediate(Req(), old(Snap()), column)
    {
      res := LayoutStart(column);
      if res.finished {
        return;
      }
      res := PostEndSemicolon(column);
      if res.finished {
        return;
      }
      res := RepeatEnd(column);
      if res.finished {
        return;
      }
      res := InlineTokens();
    }

    /** `init`. */
    method Init() returns (res: Result)
      requires Valid()
      modifies lexer`pos, lexer`mark, indents
      ensures Valid()
      ensures Step(res, Snap()) == ScanSpec.Init(Req(), old(Snap()))
    {
      res := Eof();
      if res.finished {
        return;
      }
      var afterError := CheckAllSyms(symbols);
      if afterError {
        return RES_FAIL;
      }
      res := Dot();
      if res.finished {
        return;
      }
      if Accepts(symbols, FOLD) {
        res := Fold();
        if res.finished {
          return;
        }
      }
      return RES_CONT;
    }

    /** `scan_main`. */
    method ScanMain() returns (res: Result)
      requires Valid()
      modifies lexer`pos, lexer`mark, indents
      ensures Valid()
      ensures Step(res, Snap()) == ScanSpec.ScanMain(Req(), old(Snap()))
    {
      SkipSpace();
      res := Eof();
      if res.finished {
        return;
      }
      lexer.MarkEnd();
      if IsNewline(lexer.Lookahead()) {
        lexer.Advance();
        var indent := CountIndent();
        res := Newline(indent);
        return;
      }
      var col := Column();
      res := Immediate(col);
    }

    /** `scan_all`. */
    method ScanAll() returns (res: Result)
      requires Valid()
      modifies lexer`pos, lexer`mark, indents
      ensures Valid()
      ensures Step(res, Snap()) == ScanSpec.ScanAll(Req(), old(Snap()))
    {
      res := Init();
      if res.finished {
        return;
      }
      res := ScanMain();
    }

    /** `eval(scan_all, state)`: report the symbol through `result_symbol` on success. */
    method Eval() returns (found: bool)
      requires Valid()
      modifies lexer, indents
      ensures Valid()
      ensures Snap() == ScanSpec.ScanAll(Req(), old(Snap())).st
      ensures found <==> Outcome(ScanSpec.ScanAll(Req(), old(Snap())).res).Some?
      ensures found ==> lexer.resultSymbol == ScanSpec.ScanAll(Req(), old(Snap())).res.sym
      ensures !found ==> lexer.resultSymbol == old(lexer.resultSymbol)
    {
      var result := ScanAll();
      if result.finished && result.sym != FAIL {
        lexer.resultSymbol := result.sym;
        return true;
      }
      return false;
    }
  }

  /** `tree_sitter_unison_external_scanner_scan`. */
  method ExternalScan(indents: IndentVec, lexer: Lexer, syms: ValidSymbols) returns (found: bool)
    requires indents.Valid()
    modifies lexer, indents
    ensures indents.Valid()
    ensures var r := ScanSpec.ScanAll(Request(lexer.input, syms), St(old(lexer.pos), old(lexer.mark), old(indents.data)));
      && lexer.pos == r.st.pos && lexer.mark == r.st.mark && indents.data == r.st.indents
      && (found <==> Outcome(r.res).Some?)
      && (found ==> lexer.resultSymbol == r.res.sym)
    ensures !found ==> lexer.resultSymbol == old(lexer.resultSymbol)
  {
    var state := new State(lexer, syms, indents);
    found := state.Eval();
  }
}
