# Unison layout scanner, modelled in Dafny

This project models `src/scanner.c`, the external scanner of the tree-sitter grammar for
the Unison language. The generated parser calls it whenever one of the grammar's external
tokens may come next. It decides layout in the style of Haskell:

- where a layout block starts (START) and ends (END);
- where a statement ends inside a block (SEMICOLON);
- line and block comments, and the `---` fold that ends a file;
- a few keyword and operator tokens that interact with layout: `where`, `in`, `.`, `,`.

The scanner's only persistent state is a stack of 16-bit indentation columns. The parser
snapshots it with `serialize` and restores it with `deserialize`.

The model has two layers.

- **Functional layer (`ScanSpec`, `Layout`, `Cursor`, `Persist`).** Every recognizer of
  the scanner is a function from a request and a state to a result and a new state.
  - The request is the input code points plus the host's valid-symbol flags.
  - The state is the cursor, the token end set by `mark_end`, and the indentation stack.
  - The result is the C `Result`: a symbol and a `finished` flag. `res_cont`, `res_fail`
    and `res_finish` keep their meaning.
  - Every recognizer is proved to keep one invariant, called the scan invariant below
    (`ScanSpec.Sound`). The stack changes by at most one entry: a push comes only with
    START, and a pop only with END or IN. The cursor only moves forward, and a new token
    end lies within what was consumed.
- **Imperative layer (`Scanner`, `IndentStack`, `Host`).**
  - The scanner's `State` is a class over the host lexer and the persistent
    `IndentVec`.
  - The stack is a growable vector with an abstract capacity.
  - Every recognizer is a method that moves the lexer cursor in loops, as the C code
    does. Each is proved to compute exactly its function in `ScanSpec`.
  - `ExternalScan` is the entry point the host calls. `Serialize` and `Deserialize`
    copy the stack to and from a byte buffer.

`ScanProps` proves what the scanner promises:

- **Literals and keywords.** How `seq` and `token` match.
- **Indentation width.** `count_indent` returns the width after the last line break,
  with spaces counting 1 and tabs 8.
- **Comments.**
  - Line comments and folds.
  - Nested block comments are one comment.
  - An unclosed block comment fails at a 0 and is left to `eof` at the end of input.
- **End of input and the error probe.**
- **Layout rules.**
  - After a line break and on the same line, each rule is proved in both directions and
    for the empty stack.
  - With START valid, a layout starts unconditionally.
  - `in`, `else`, `where` and `)` close layouts.
- **Successive scans.** Repeated scans from a line break close one layout each.
- **Lists.** `,` and `]` close layouts, on the same line and after a line break.

The integer widths of the source are explicit:

- the indent counter is an unsigned 32-bit value;
- the comment nesting level is a 16-bit value;
- a pushed column is cut to 16 bits;
- serialization writes two bytes per entry.

## Quirks of the source kept as written

- **`eof`** (src/scanner.c:543-554) emits EMPTY whenever EMPTY is valid, without looking
  at the stack (`ScanProps.ScanAtEnd`).
- **`deserialize`** (src/scanner.c:1223-1231) leaves the stack as it was when `length` is
  below 2; it does not clear it (`Persist.DeserializeEmptyKeeps`).
- **`dot`** (src/scanner.c:593-603) looks at a single `.` only. It emits VARSYM, with no
  token end marked, when VARSYM is valid and whitespace follows the dot. Otherwise it
  emits DOT marked after the dot (`ScanProps.DotResult`).
- **`--` on the same line** is not a comment. `inline_tokens` (src/scanner.c:863-915) has
  no comment case, so the scan goes on to the layout rules and then to
  `close_layout_in_list` (`ScanProps.SameLineRules` covers a `-` at the cursor).
  Comments are recognized only at the start of a line, through `newline`.
- **An operator or a backtick at the start of a line fails the scan.** `newline_token`
  (src/scanner.c:986-1005) returns a failure for any operator character other than `-`
  and for a backtick. `newline_indent` then never runs: a line that starts with `|` after
  a dedent closes no layout, and an aligned operator line gets no SEMICOLON
  (`ScanProps.OperatorAtLineStart`, `ScanProps.DedentBeforeOperator`).
- **Partial matches advance the cursor.** `seq` (src/scanner.c:226-235) leaves the cursor
  where the match stopped, and its callers do not move it back.
  - With FOLD valid, `--x` at the start of a scan is passed over by two characters
    before `scan_main` runs (`ScanProps.FoldMissAdvances`).
  - A word that starts like `where` or `else` but is not that keyword fails the scan
    (`ScanProps.LookalikeWordFails`).
- **The END emitted at a dedent is zero-width.** `scan_main` (src/scanner.c:1081-1096)
  marks the token end before the line break, so the END ends there. The host rescans
  from there, so several layouts close one scan at a time (`ScanProps.DedentCascade`).
- **`]` at the start of a line ends a layout whenever END is valid**, whatever the indent
  (`ScanProps.LineStartBracket`).

## Model

| member | source | states |
|---|---|---|
| Syms.SymIndex | src/scanner.c:53-68 | a symbol's slot in the valid-symbol array lies among its 13 entries |
| Syms.SymIndexInjective | src/scanner.c:53-68 | distinct symbols have distinct slots |
| Syms.CheckAllSyms | src/scanner.c:91-96 | the early-exit loop answers true exactly when every flag from SEMICOLON to EMPTY is set |
| Syms.AllSymsIffEveryKind | src/scanner.c:91-96 | the error probe holds exactly when every symbol other than FAIL is valid |
| Syms.ResFinish | src/scanner.c:426 | `res_finish(t)`: a decided result carrying `t` (its meaning is stated by `ScanSpec.ResultKinds`) |
| Chars.IsNewline | src/scanner.c:329-336 | a line break (newline, carriage return, form feed) is whitespace and never the end-of-input 0 |
| Chars.IsWs | src/scanner.c:248-253 | every `isws` character is a control character or the space, never the end-of-input 0 |
| Chars.TokenEnd | src/scanner.c:255-270 | every whitespace character, the end-of-input 0, the parentheses and the square brackets end a keyword |
| Chars.Symbolic | src/scanner.c:376-383 | no operator character ends a keyword |
| Cursor.LineStart | src/scanner.c:193-195 | the start of the current line lies after the last line feed before the cursor, with none in between |
| Cursor.Column | src/scanner.c:193-195 | the column is 0 at end of input; otherwise it is the distance back to the last line feed (or to the start of input) |
| Cursor.Peek | src/scanner.c:18 | `PEEK`: the code point at the cursor, 0 at end of input (no contract; read through the lemmas that use it) |
| Cursor.AtEof | src/scanner.c:188 | `is_eof`: the cursor is at or past the end of input (no contract) |
| Cursor.Adv | src/scanner.c:20-21 | `advance` moves forward by at most one code point and never past the end of input |
| Layout.KeepLayout | src/scanner.c:290-292 | continuing the layout needs a non-empty stack |
| Layout.IndentExists | src/scanner.c:284 | `indent_exists`: the stack is non-empty; each comparison below is proved to imply it |
| Layout.SameIndent | src/scanner.c:297 | an indent equal to the top needs a non-empty stack |
| Layout.SmallerIndent | src/scanner.c:302-304 | an indent below the top needs a non-empty stack |
| Layout.IndentLesseq | src/scanner.c:306 | an indent at most the top needs a non-empty stack |
| Layout.PushIndent | src/scanner.c:451-454 | push appends exactly the given column and leaves the earlier entries unchanged |
| Layout.PopIndent | src/scanner.c:459-464 | pop removes only the top entry and does nothing on an empty stack |
| Layout.Top | src/scanner.c:45 | `VEC_BACK` is an entry of the stack; `PushIndent` proves it is the column pushed last |
| IndentStack.IndentVec.constructor | src/scanner.c:1176-1179 | the zero-filled state of `create` has no entries and no capacity |
| IndentStack.IndentVec.Grow | src/scanner.c:37 | `VEC_GROW` raises the capacity to at least the request and keeps the entries |
| IndentStack.IndentVec.Push | src/scanner.c:39-42 | `VEC_PUSH` appends the value and, when full, grows the capacity to max(20, 2 * len) |
| IndentStack.IndentVec.Pop | src/scanner.c:459-464 | pop removes only the top and is a no-op when the stack is empty |
| Persist.Encode | src/scanner.c:1214 | a stack of n entries takes 2n bytes |
| Persist.Decode | src/scanner.c:1225-1229 | `length` bytes give `length / 2` entries |
| Persist.EncodeAt | src/scanner.c:1214 | entry i sits at bytes 2i (low) and 2i+1 (high) |
| Persist.DecodeEncode | src/scanner.c:1208-1231 | decoding the bytes of a stack gives the stack back |
| Persist.SerializeRoundTrip | src/scanner.c:1208-1231 | a non-empty stack that fits the buffer is written as 2n bytes and restored exactly, over any current stack |
| Persist.SerializeTooLarge | src/scanner.c:1210-1213 | a stack that needs more bytes than the buffer holds is reported as length 0 |
| Persist.DeserializeEmptyKeeps | src/scanner.c:1223-1231 | restoring a snapshot of length 0 leaves the stack as it was |
| Persist.Serialize | src/scanner.c:1208-1216 | writes the encoded stack and returns its length, or returns 0 when it does not fit; bytes past the length are untouched |
| Persist.Deserialize | src/scanner.c:1223-1231 | the stack becomes the decoded buffer when `length / 2 > 0` and is kept otherwise; the capacity grows to hold it |
| Host.Lexer.Advance | src/scanner.c:20-21 | advance moves one code point forward, and not past the end of input |
| Host.Lexer.MarkEnd | src/scanner.c:215 | the token ends at the cursor |
| Host.Lexer.Lookahead | src/scanner.c:18 | the lexer's `lookahead` is `Cursor.Peek` at its position (no contract) |
| Host.Lexer.IsEof | src/scanner.c:188 | the lexer's `eof` is `Cursor.AtEof` at its position (no contract) |
| ScanSpec.MatchSeq | src/scanner.c:226-235 | `seq` consumes at most the literal's length and stays within the input |
| ScanSpec.MatchSeqResult | src/scanner.c:226-235 | `seq` succeeds exactly when the literal is at the cursor, ending after it; otherwise it stops on the first mismatch, having consumed the matching part |
| ScanSpec.SkipSpaceFrom | src/scanner.c:469-480 | skips exactly the spaces and tabs at the cursor and stops on anything else |
| ScanSpec.CountIndentFrom | src/scanner.c:513-533 | consumes exactly the run of line breaks, spaces and tabs and stops on the first other character |
| ScanSpec.LineEndFrom | src/scanner.c:700-717 | the line comment's loop stops at the first line break or 0 and passes nothing else |
| ScanSpec.BlockScan | src/scanner.c:764-793 | the block comment's loop only moves forward and stays within the input |
| ScanSpec.ToEnd | src/scanner.c:609 | the advance-to-end loop leaves the cursor at end of input |
| ScanSpec.Token | src/scanner.c:255-278 | for a literal without a 0 (every caller passes `where`, `in` or `else`), `token` succeeds exactly when the literal is at the cursor and a token-ending character follows it, and then leaves the cursor just after the literal; on a miss the cursor stays where `seq` stopped |
| ScanSpec.Advance | src/scanner.c:20 | `S_ADVANCE` on the state value: `Cursor.Adv` on the cursor, nothing else changed (no contract) |
| ScanSpec.MarkEnd | src/scanner.c:215 | `MARK`: the token end becomes the cursor (no contract) |
| ScanSpec.PopSt | src/scanner.c:459-464 | `pop` on the state value: `Layout.PopIndent` on the stack (no contract) |
| ScanSpec.OrFail | src/scanner.c:17 | `SHORT_SCANNER; return res_fail;`: the result is always decided, the state is kept, and an undecided result becomes `res_fail` |
| ScanSpec.FinishIfValid | src/scanner.c:444-446 | finishes exactly when the symbol is valid, changing nothing |
| ScanSpec.LayoutEnd | src/scanner.c:482-488 | finishes exactly when END is valid; keeps the scan invariant (so it pops only with END) and moves neither the cursor nor the mark |
| ScanSpec.EndOrSemicolon | src/scanner.c:493-497 | keeps the scan invariant; the cursor and the mark do not move |
| ScanSpec.Eof | src/scanner.c:543-554 | finishes exactly at end of input; keeps the scan invariant; the cursor and the mark do not move |
| ScanSpec.Dot | src/scanner.c:593-603 | keeps the scan invariant: the stack is unchanged (DOT and VARSYM neither push nor pop), and a new mark lies between the old and the new cursor; the exact marks are in `ScanProps.DotResult` |
| ScanSpec.Fold | src/scanner.c:605-615 | keeps the scan invariant; the cursor moves forward within the input |
| ScanSpec.Dedent | src/scanner.c:621-624 | keeps the scan invariant; the cursor and the mark do not move |
| ScanSpec.NewlineSemicolon | src/scanner.c:645-650 | changes nothing but the result |
| ScanSpec.IsNewlineWhere | src/scanner.c:317-322 | `is_newline_where` holds only on a non-empty stack before a `w`, with SEMICOLON or END valid and WHERE not valid |
| ScanSpec.Where | src/scanner.c:667-676 | keeps the scan invariant: a pop comes only with END, and a new mark lies between the old and the new cursor; the exact outcomes are in `ScanProps.WhereKeyword` |
| ScanSpec.In | src/scanner.c:681-688 | keeps the scan invariant: a pop comes only with IN, and a new mark lies between the old and the new cursor; the exact outcome is in `ScanProps.InKeyword` |
| ScanSpec.Else | src/scanner.c:693-695 | keeps the scan invariant: a pop comes only with END |
| ScanSpec.InlineComment | src/scanner.c:700-717 | leaves the stack alone and marks the token end where the cursor stops; keeps the scan invariant |
| ScanSpec.Minus | src/scanner.c:728-748 | keeps the scan invariant; the cursor moves forward within the input |
| ScanSpec.MultilineComment | src/scanner.c:764-793 | keeps the scan invariant; the cursor moves forward within the input |
| ScanSpec.Brace | src/scanner.c:800-807 | keeps the scan invariant |
| ScanSpec.Comment | src/scanner.c:813-828 | keeps the scan invariant |
| ScanSpec.CloseLayoutInList | src/scanner.c:830-851 | keeps the scan invariant: a pop comes only with END, and a new mark lies between the old and the new cursor; the exact outcomes are in `ScanProps.CommaRule`, `ScanProps.BracketRule` and `ScanProps.ListRulesPass` |
| ScanSpec.InlineTokens | src/scanner.c:863-915 | keeps the scan invariant |
| ScanSpec.LayoutStart | src/scanner.c:929-938 | finishes exactly when START is valid; keeps the scan invariant, so the stack grows by one column only with START; the cursor and the mark do not move |
| ScanSpec.PostEndSemicolon | src/scanner.c:955-960 | changes nothing but the result |
| ScanSpec.RepeatEnd | src/scanner.c:965-970 | keeps the scan invariant; the cursor and the mark do not move |
| ScanSpec.NewlineIndent | src/scanner.c:975-981 | keeps the scan invariant |
| ScanSpec.NewlineToken | src/scanner.c:986-1005 | keeps the scan invariant |
| ScanSpec.Newline | src/scanner.c:1010-1023 | keeps the scan invariant |
| ScanSpec.Immediate | src/scanner.c:1034-1042 | keeps the scan invariant |
| ScanSpec.Init | src/scanner.c:1052-1076 | keeps the scan invariant |
| ScanSpec.ScanMain | src/scanner.c:1081-1096 | keeps the scan invariant |
| ScanSpec.ScanAll | src/scanner.c:1101-1109 | one scan keeps the scan invariant: the stack is unchanged, or grows by one column with START, or loses its top with END or IN; the cursor only moves forward and stays in the input; a new token end lies in the consumed span |
| ScanSpec.Outcome | src/scanner.c:1148-1167 | a symbol is reported exactly when the result is finished and is not FAIL |
| ScanSpec.ResultKinds | src/scanner.c:425-427 | `res_cont` is undecided and reports nothing, `res_fail` is decided and reports nothing, `res_finish(t)` is decided and reports `t` for every real symbol |
| Scanner.State.constructor | src/scanner.c:1187-1191 | the per-call state holds the host lexer, the flags and the persistent stack |
| Scanner.State.Seq | src/scanner.c:226-235 | the character loop computes `MatchSeq` |
| Scanner.State.Token | src/scanner.c:276-278 | computes `Token` |
| Scanner.State.SkipSpace | src/scanner.c:469-480 | the loop leaves the cursor where `SkipSpaceFrom` says |
| Scanner.State.CountIndent | src/scanner.c:513-533 | the loop with its 32-bit counter computes `CountIndentFrom` |
| Scanner.State.AdvanceToEof | src/scanner.c:609 | the loop leaves the cursor at end of input |
| Scanner.State.FinishIfValid | src/scanner.c:444-446 | computes `FinishIfValid` |
| Scanner.State.LayoutEnd | src/scanner.c:482-488 | computes `LayoutEnd` on the lexer and the stack |
| Scanner.State.EndOrSemicolon | src/scanner.c:493-497 | computes `EndOrSemicolon` |
| Scanner.State.Eof | src/scanner.c:543-554 | computes `Eof` |
| Scanner.State.Dot | src/scanner.c:593-603 | computes `Dot` |
| Scanner.State.Fold | src/scanner.c:605-615 | computes `Fold` |
| Scanner.State.Dedent | src/scanner.c:621-624 | computes `Dedent` |
| Scanner.State.NewlineSemicolon | src/scanner.c:645-650 | computes `NewlineSemicolon` |
| Scanner.State.Where | src/scanner.c:667-676 | computes `Where` |
| Scanner.State.In | src/scanner.c:681-688 | computes `In` |
| Scanner.State.Else | src/scanner.c:693-695 | computes `Else` |
| Scanner.State.InlineComment | src/scanner.c:700-717 | the loop computes `InlineComment` |
| Scanner.State.Minus | src/scanner.c:728-748 | computes `Minus` |
| Scanner.State.MultilineComment | src/scanner.c:764-793 | the loop with its 16-bit level computes `MultilineComment` |
| Scanner.State.Brace | src/scanner.c:800-807 | computes `Brace` |
| Scanner.State.Comment | src/scanner.c:813-828 | computes `Comment` |
| Scanner.State.CloseLayoutInList | src/scanner.c:830-851 | computes `CloseLayoutInList` |
| Scanner.State.InlineTokens | src/scanner.c:863-915 | computes `InlineTokens` |
| Scanner.State.LayoutStart | src/scanner.c:929-938 | computes `LayoutStart`, pushing through `IndentVec.Push` |
| Scanner.State.PostEndSemicolon | src/scanner.c:955-960 | computes `PostEndSemicolon` |
| Scanner.State.RepeatEnd | src/scanner.c:965-970 | computes `RepeatEnd` |
| Scanner.State.NewlineIndent | src/scanner.c:975-981 | computes `NewlineIndent` |
| Scanner.State.NewlineToken | src/scanner.c:986-1005 | computes `NewlineToken` |
| Scanner.State.Newline | src/scanner.c:1010-1023 | computes `Newline` |
| Scanner.State.Immediate | src/scanner.c:1034-1042 | computes `Immediate` |
| Scanner.State.Init | src/scanner.c:1052-1076 | computes `Init` |
| Scanner.State.ScanMain | src/scanner.c:1081-1096 | computes `ScanMain` |
| Scanner.State.ScanAll | src/scanner.c:1101-1109 | computes `ScanAll` |
| Scanner.State.Eval | src/scanner.c:1148-1167 | the state after the call is `ScanAll`'s; it answers true and sets the result symbol exactly when `Outcome` holds a symbol, and otherwise leaves the result symbol alone |
| Scanner.ExternalScan | src/scanner.c:1185-1201 | one host call leaves the cursor, the mark and the stack as `ScanAll` says, and reports its outcome; the result symbol is set only when a symbol is reported |
| ScanProps.WidthAfterBreak | src/scanner.c:517-520 | only what follows the last line break of the run counts |
| ScanProps.WidthOfBlanks | src/scanner.c:521-528 | without line breaks the width is the number of spaces plus 8 per tab |
| ScanProps.CountIndentResult | src/scanner.c:513-533 | `count_indent` consumes exactly the run of line breaks, spaces and tabs and returns its width after the last line break, modulo 2^32 |
| ScanProps.MinusComment | src/scanner.c:728-748 | `--` without a third `-` is a COMMENT marked before the line break, the 0, or the end of input |
| ScanProps.MinusFold | src/scanner.c:732-739 | `---` followed by end of input or a line break is a FOLD consuming to the end |
| ScanProps.MinusFails | src/scanner.c:732-742 | `---` followed by anything else fails |
| ScanProps.MinusNoDashes | src/scanner.c:730 | without `--`, `minus` does not finish and leaves the mark and the stack alone |
| ScanProps.BlockScanStops | src/scanner.c:764-793 | the block comment stops just after a `-}` or on a 0 |
| ScanProps.BlockScanSkipsText | src/scanner.c:788-790 | characters other than `{`, `-` and 0 are passed over |
| ScanProps.NestedClose | src/scanner.c:764-793 | the level counts `{-` and `-}`: a comment that closes when scanned at depth d closes at the same place at any greater depth, and the outer scan resumes after it at the enclosing depth (as long as the 16-bit level cannot wrap within that comment) |
| ScanProps.NestedCommentIsOne | src/scanner.c:764-807 | `{- a {- b -} c -}` is one COMMENT ending after the last `-}`, for any plain texts a, b and c, wherever it starts and whatever follows |
| ScanProps.NestedCommentExample | src/scanner.c:764-807 | the literal `{- a {- b -} c -}` is one COMMENT of 17 characters |
| ScanProps.MultilineCommentResult | src/scanner.c:764-793 | every block comment: when it closes, COMMENT marked just after its `-}`; when it does not, the scan stops on a 0, fails there before the end of input, and is left to `eof` at the end of input |
| ScanProps.UnclosedCommentAtNul | src/scanner.c:783-790 | a comment body with no `{` or `-` that meets a 0 before the end of input fails there |
| ScanProps.UnclosedCommentAtEnd | src/scanner.c:783-790 | a comment body with no `{` or `-` running to the end is left to `eof` (EMPTY when valid) |
| ScanProps.BraceNeedsOpening | src/scanner.c:800-807 | `brace` fails unless the input starts with `{-` |
| ScanProps.CommentDecides | src/scanner.c:813-828 | `comment` decides the scan exactly when it sees `-` or `{`, and otherwise changes nothing |
| ScanProps.ScanAtEnd | src/scanner.c:543-554 | at end of input: EMPTY if valid, else END with a pop, else SEMICOLON, else a definitive failure |
| ScanProps.ScanAtTrailingBlanks | src/scanner.c:1081-1085 | with only spaces and tabs left, the scan answers as at end of input |
| ScanProps.ScanErrorProbe | src/scanner.c:1052-1060 | when every symbol SEMICOLON..EMPTY is valid and input remains, the scan fails and changes nothing |
| ScanProps.LineStartRules | src/scanner.c:975-1023 | after a line break, before an ordinary first character (not an operator, backtick, `-`, `{`, `,`, `]` or the end of input, and not `i` when IN is valid): a smaller indent with END valid pops and emits END; otherwise an equal indent with SEMICOLON valid emits SEMICOLON; the token ends at the line break; nothing fires on an empty stack |
| ScanProps.ScanMainAtBreak | src/scanner.c:1087-1093 | at a line break the scan marks before it, counts the next line's indent and applies `newline` |
| ScanProps.NewlineOrdinary | src/scanner.c:1010-1023 | before an ordinary first character, `newline` is decided by the dedent and semicolon comparisons alone |
| ScanProps.NewlineTokenDashUnreachable | src/scanner.c:988-989 | the `-` branch of `newline_token` is never reached from `newline` |
| ScanProps.LineStartComma | src/scanner.c:1010-1023 | after a line break before `,` the scan gives `CommaAfterBreak` at the line break: a dedent END first; otherwise COMMA marked after the comma, else END with a pop (mark kept at the line break), else a failure |
| ScanProps.LineStartBracket | src/scanner.c:1010-1023 | after a line break before `]`: END with a pop whenever END is valid, whatever the indent; otherwise the semicolon rule |
| ScanProps.NewlineAtComma | src/scanner.c:975-981 | `newline` before `,` is `CommaAfterBreak`: the dedent rule, then `close_layout_in_list`'s comma rule |
| ScanProps.NewlineAtBracket | src/scanner.c:975-981 | `newline` before `]` is END when valid, then the semicolon rule |
| ScanProps.OperatorAtLineStart | src/scanner.c:986-998 | after a line break before an operator other than `-`, or a backtick, the scan fails with the stack unchanged, whatever the indent |
| ScanProps.DedentBeforeOperator | src/scanner.c:986-998 | a dedent before a line starting with `|` closes no layout: the scan fails and the stack is unchanged |
| ScanProps.LineStartIn | src/scanner.c:1003 | after a line break, the keyword `in` with IN valid pops and emits IN marked after the keyword, whatever the indent |
| ScanProps.NewlineAtIn | src/scanner.c:1010-1023 | `newline` before the keyword `in` with IN valid is decided by `newline_token`: IN with a pop |
| ScanProps.NewlineDedent | src/scanner.c:975-981 | `newline` before an ordinary first character, `,` or `]`, with a smaller indent and END valid, pops and emits END |
| ScanProps.LayoutStartAlways | src/scanner.c:929-938 | with START valid, the scan pushes the column (cut to 16 bits) of the next character, whatever it is |
| ScanProps.SameLineRules | src/scanner.c:955-970 | on the same line: SEMICOLON when the column is at most the top, else END with a pop when it is below the top, else no token; nothing fires on an empty stack |
| ScanProps.InKeyword | src/scanner.c:681-688 | `in` with IN valid pops and emits IN, marked after the keyword |
| ScanProps.ElseEndsLayout | src/scanner.c:693-695 | `else` with END valid pops and emits END without a new mark |
| ScanProps.WhereKeyword | src/scanner.c:667-676 | `where` is WHERE (marked) when valid, else END (unmarked) with a pop, else a failure |
| ScanProps.LookalikeWordFails | src/scanner.c:863-915 | a word starting like `where` or `else` that is not the keyword fails the scan after a partial advance |
| ScanProps.CloseParenEndsLayout | src/scanner.c:880-884 | `)` with END valid pops and emits END, consuming and marking nothing; otherwise the scan fails |
| ScanProps.CommaRule | src/scanner.c:839-848 | `,` on the same line: COMMA marked after it when valid, else END with a pop (comma consumed, mark unchanged), else a failure |
| ScanProps.BracketRule | src/scanner.c:832-838 | `]` on the same line: END with a pop, nothing consumed, when END is valid; otherwise no token |
| ScanProps.ListRulesPass | src/scanner.c:830-851 | before anything other than `,` and `]`, `close_layout_in_list` changes nothing and does not decide |
| ScanProps.DotResult | src/scanner.c:593-603 | a `.` is VARSYM (unmarked) when VARSYM is valid and whitespace follows, otherwise DOT marked after it |
| ScanProps.FoldAtCursor | src/scanner.c:1065-1068 | with FOLD valid, `---` at the cursor folds the rest of the input |
| ScanProps.FoldMissAdvances | src/scanner.c:1065-1068 | a failed `---` with FOLD valid leaves the cursor two characters on after `--` |
| ScanProps.InitPasses | src/scanner.c:1052-1076 | with no dot or dash at the cursor and no error probe, `init` lets the scan through unchanged |
| ScanProps.DedentOnce | src/scanner.c:1081-1109 | one scan at a line break before a smaller indent, whose next line starts with an ordinary character, `,` or `]` (`DedentsAtLineStart`), emits a zero-width END at the line break and pops one column |
| ScanProps.DedentCascade | src/scanner.c:1081-1109 | from a line break whose next line starts with an ordinary character, `,` or `]` (`DedentsAtLineStart`) and is indented less than the top n columns: the i-th of n scans emits a zero-width END at the line break and pops one more column, and the next scan starts where the host resumes after it |

## Left out

- The debugging instrumentation is not modelled, because it only writes diagnostics:
  - `DEBUG_PRINTF`;
  - `debug_valid`, `debug_indents`, `debug_state`, `debug_result` and `debug_lookahead`;
  - `sym_names`;
  - the `marked`/`marked_by`/`needs_free` bookkeeping of `MARK`.
- The commented-out Haskell leftovers are not modelled: `initialize`, `newline_where`,
  and the operator and quasiquote cases. The `newline_infix` stub (never called) and the
  unused `Symbolic` enum are not modelled either. `is_newline_where`, which is defined
  but never called, is modelled as `ScanSpec.IsNewlineWhere`.
- Allocation is abstracted:
  - `calloc`, `realloc`, `assert` and `free` in the `VEC_*` macros;
  - `tree_sitter_unison_external_scanner_destroy`;
  - `create` is the `IndentVec` constructor with no storage;
  - the vector's buffer is a `seq`, so its capacity is an abstract number.
- The host lexer is abstracted (`Host.Lexer`):
  - The input is a sequence of code points and the lookahead is 0 at end of input.
  - `advance` is one code point forward, and its skip flag only moves the token start,
    which the scanner never reads.
  - `get_column` is taken to count code points since the last line feed, modulo 2^32.
  - The lexer's allocation is not modelled.
- `iswspace` in `dot` is modelled as the C-locale whitespace set, which is the same set
  as `isws`.
- `TREE_SITTER_SERIALIZATION_BUFFER_SIZE` is the length of the buffer passed to
  `Serialize`.
- The native byte order of `memcpy`: the model fixes little-endian, two bytes per entry.
- Persist.Deserialize: requires an even `length`. With an odd length the source copies one
  byte more than the entries it grew for.
- Persist.Serialize: `2 * len` is computed without the source's 32-bit `unsigned`
  overflow, which needs a stack of more than 2^31 entries.
- DedentOnce: stated only for a next line that starts with an ordinary character, `,` or
  `]`. Other first characters are decided before the indent is compared, each by its own
  lemma: `-` or `{` by `comment` (`CommentDecides`), an operator or a backtick by a failure
  (`OperatorAtLineStart`), `in` with IN valid by IN (`LineStartIn`), the end of input by
  `eof` (`ScanAtEnd`). A word that starts with `i` but is not `in`, with IN valid, is left
  out: the partial match moves the cursor before the dedent END.
- DedentCascade: has the same restriction on the next line's first character as
  `DedentOnce`.
- Scanner.ExternalScan: each host call is a separate scan. Successive calls are described
  by `ScanProps.Resume`, which restarts a scan at the previous token end, and
  `ScanProps.DedentCascade` states such a sequence for a dedent.
