/**
 * The external symbols of the Unison grammar, the host's valid-symbol array,
 * and the three-valued result that every recognizer of the scanner returns.
 */
module Syms {

  /** The external tokens, in the order of the grammar's `externals` list (and of the C enum). */
  datatype Sym =
    | SEMICOLON
    | START
    | END
    | DOT
    | WHERE
    | VARSYM
    | COMMENT
    | FOLD
    | COMMA
    | IN
    | INDENT
    | EMPTY
    | FAIL

  const SYM_COUNT: nat := 13

  /** Position of a symbol in the valid-symbol array. */
  function SymIndex(s: Sym): (i: nat)
    ensures i < SYM_COUNT
  {
    match s
    case SEMICOLON => 0
    case START => 1
    case END => 2
    case DOT => 3
    case WHERE => 4
    case VARSYM => 5
    case COMMENT => 6
    case FOLD => 7
    case COMMA => 8
    case IN => 9
    case INDENT => 10
    case EMPTY => 11
    case FAIL => 12
  }

  /** Distinct symbols have distinct slots in the valid-symbol array. */
  lemma SymIndexInjective(s: Sym, t: Sym)
    ensures SymIndex(s) == SymIndex(t) ==> s == t
  {
  }

  /** The host's array of flags: which external tokens the parse state would accept next. */
  type ValidSymbols = v: seq<bool> | |v| == SYM_COUNT
    witness [false, false, false, false, false, false, false, false, false, false, false, false, false]

  predicate Accepts(valid: ValidSymbols, s: Sym) {
    valid[SymIndex(s)]
  }

  /**
   * Every symbol from SEMICOLON up to EMPTY is flagged valid: the host does this right
   * after it met a parse error, so the scanner takes it as an error-recovery probe.
   */
  predicate AllSyms(valid: ValidSymbols) {
    forall i :: 0 <= i <= SymIndex(EMPTY) ==> valid[i]
  }

  /** `all_syms`: the early-exit loop over the flags SEMICOLON..EMPTY. */
  method CheckAllSyms(valid: ValidSymbols) returns (all: bool)
    ensures all <==> AllSyms(valid)
  {
    var i := 0;
    while i <= SymIndex(EMPTY)
      invariant 0 <= i <= SymIndex(EMPTY) + 1
      invariant forall j :: 0 <= j < i ==> valid[j]
    {
      if !valid[i] {
        return false;
      }
      i := i + 1;
    }
    return true;
  }

  /** The probe is exactly "every symbol except the FAIL sentinel is valid". */
  lemma AllSymsIffEveryKind(valid: ValidSymbols)
    ensures AllSyms(valid) <==> forall s: Sym :: s != FAIL ==> Accepts(valid, s)
  {
    if forall s: Sym :: s != FAIL ==> Accepts(valid, s) {
      var kinds := [SEMICOLON, START, END, DOT, WHERE, VARSYM, COMMENT, FOLD, COMMA, IN, INDENT, EMPTY];
      forall i | 0 <= i <= SymIndex(EMPTY) ensures valid[i] {
        assert SymIndex(kinds[i]) == i;
        assert Accepts(valid, kinds[i]);
      }
    }
  }

  /**
   * The C `Result`: a symbol plus a flag saying whether the scan is decided.
   * `finished` with `sym == FAIL` is a definitive failure.
   */
  datatype Result = Result(sym: Sym, finished: bool)

  /** `res_cont`: not applicable here, try the next recognizer. */
  const RES_CONT := Result(FAIL, false)

  /** `res_fail`: definitive failure. */
  const RES_FAIL := Result(FAIL, true)

  /** `res_finish`: the scan is decided with symbol `t`. */
  function ResFinish(t: Sym): Result {
    Result(t, true)
  }

  datatype Option<T> = None | Some(value: T)
}
