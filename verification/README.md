# Formula editor core, modelled in Dafny

This project models the editing core of a math formula editor. A formula is a
flat list of tokens: numbers, variables, operators, brackets, LaTeX commands
such as `\frac`, `\sqrt`, `\int` and `\log`, and structure markers (`_`, `^`)
that sit between a command and its argument blocks. The editor keeps a cursor
index into that list, which is a gap between two tokens. The model covers:

- **Tokens and key presses.** A token's display colour, and turning a key into
  the tokens it inserts together with the cursor offset of its first cursor stop.
- **Editing.** Insertion and range deletion are written as JavaScript's
  `Array.prototype.splice`, with clamping and negative starts. Backspace has
  structural rules: it dives into a closing brace, refuses to unwrap a fraction
  whose denominator is not empty, collapses a fraction from the start of its
  denominator, and unwraps a command's block.
- **Cursor movement.** The cursor may not stand between glued token pairs, such
  as a command and its `{`. Horizontal moves skip over such positions but give
  up after ten tries.
- **Rendering.** The token list is rendered as display LaTeX with colour markup
  and a cursor bar.
- **Undo and redo.** A snapshot history with a bound of 50 entries.
- **Selection expansion.** The selection grows from the cursor, to the scope
  around it, to the command block around that, to everything, and then switches
  off. There is also the "preceding block" operand search.
- **The structure locator.** It holds a registry keyed by token value. It finds
  the brace scope around the cursor and the extent of a command's sibling
  blocks. It locates the structure the cursor is inside of, or about to dive
  into.
- **The four structure strategies.** Fraction, power, integral and logarithm
  each provide up/down movement, entrance and exit positions, and deletion.
- **The LaTeX-to-expression translation.** This is the part of real-time
  evaluation that turns tokens into a math.js expression string. It covers
  `parseExpr`, `parseFactor`, block and subscript extraction, and the matching
  parenthesis search.

The modules follow the program's files:

- `FormulaToken` and `TokenFactory` model the data.
- `BracketScan` is a generic bracket-balance scanner. Every matcher of the source
  is an instance of it.
- `Splice` models JavaScript's splice.
- `StrategyUtils`, `EditLogic`, `CursorLogic`, `RenderLogic`, `HistoryLogic`,
  `SelectionLogic`, `StructureManager` and `CalculationService` each model the
  source file of the same name.
- `StructureStrategy` models the context record.
- `FractionStrategy`, `PowerStrategy`, `IntegralStrategy` and `LogStrategy`
  model the strategies.

Operations are pure functions over immutable sequences. An in-place mutation
of the source becomes a function that returns the new token list and cursor.
The source uses `-1` for "no position", and the model keeps it.

Notes on the source's own behaviour, which the model keeps:

- **Structure markers.** The templates in `model/FigureConfig.ts:70-94` build
  the `_` and `^` between a command and its blocks with the category
  `STRUCT_MARKER`. The `TokenType` enum in `model/FormulaToken.ts:4-11` does
  not list that category. The model gives these tokens a category of their
  own (`StructMarker`). They are rendered verbatim and skipped by the context
  walk.
- **Registry lookup.** `findNeighborStrategy` looks a strategy up by the
  value of the token before the block (`StructureManager.ts:104-108`). So a
  `^` marker inside an integral resolves to the power strategy
  (`IntegralStrategy.LeftNeighborOfIntegralIsPower`).
- **The logarithm strategy.** `LogStructureStrategy` is implemented, but
  `StructureManager.init` registers only the fraction, power and integral
  strategies (`StructureManager.ts:15-23`). So the locator never returns it.
  `LogStrategy` models its methods all the same.
- **The scope check.** `findSurroundingScope` returns nothing when the cursor
  lies past the matching brace (`StructureManager.ts:199`). The brace is found
  by scanning left from the cursor, so that test can never succeed
  (`StructureManager.ScopeEndNotBeforeCursor`).
- **Inverse of an arc function.** `\arcsin^{-1}(x)` is translated to
  `aarcsin(x)` (`CalculationService.ts:246-252`), a name the engine's scope
  does not define (`CalculationService.ts:64-74`). Every other trigonometric
  command, with or without `^{-1}`, names a defined function
  (`CalculationService.TrigNamesKnownToEngine`).
- **Diving in from the right.** A fraction is never entered from its right
  side, and an integral is entered as a power (see Findings).

## Model

All source paths below are under `entry/src/main/ets/`, written in full.

| member | source | states |
|---|---|---|
| FormulaToken.GetColor | entry/src/main/ets/model/FormulaToken.ts:33-51 | a non-empty override colour wins; otherwise braces are yellow; otherwise each token category has its fixed colour; the result is never empty |
| TokenFactory.StopOffset | entry/src/main/ets/model/TokenFactory.ts:14-31 | the offset is one past the last item marked as a cursor stop, and no later item is a stop; with no stop the running offset is kept |
| TokenFactory.CreateTokens | entry/src/main/ets/model/TokenFactory.ts:7-42 | a template gives one token per item, in order; the offset lands just after the last cursor stop, or at the end when there is none; a plain key gives one token whose category defaults to Number; the offset is always within 1..length |
| StrategyUtils.MatchingPair | entry/src/main/ets/viewmodel/core/strategies/StrategyUtils.ts:50-60 | defined exactly on the six bracket characters, and never maps one to itself |
| StrategyUtils.MatchingPairInvolution | entry/src/main/ets/viewmodel/core/strategies/StrategyUtils.ts:50-60 | the partner of a bracket's partner is the bracket itself |
| StrategyUtils.FindMatchingClose | entry/src/main/ets/viewmodel/core/strategies/StrategyUtils.ts:12-26 | the result is the partner bracket, the first position where the nesting depth returns to zero; -1 means the depth never does |
| StrategyUtils.FindMatchingOpen | entry/src/main/ets/viewmodel/core/strategies/StrategyUtils.ts:34-48 | the mirror of the forward search, scanning leftwards |
| StrategyUtils.MatchRoundTrip | entry/src/main/ets/viewmodel/core/strategies/StrategyUtils.ts:12-48 | matching forwards, then backwards, returns to the opening bracket |
| StrategyUtils.MatchRoundTripBack | entry/src/main/ets/viewmodel/core/strategies/StrategyUtils.ts:12-48 | matching backwards, then forwards, returns to the closing bracket |
| StrategyUtils.OtherKindsIgnored | entry/src/main/ets/viewmodel/core/strategies/StrategyUtils.ts:12-26 | replacing a token that is neither of the pair's brackets does not move the match |
| BracketScan.ScanRight | entry/src/main/ets/viewmodel/core/strategies/StrategyUtils.ts:12-26 | the first position where the running balance reaches zero, with the balance positive everywhere before it; -1 when it never does |
| BracketScan.ScanLeft | entry/src/main/ets/viewmodel/core/strategies/StrategyUtils.ts:34-48 | the leftward mirror of the rightward scan |
| BracketScan.ScanLeftUnique | entry/src/main/ets/viewmodel/core/strategies/StrategyUtils.ts:34-48 | any position meeting the leftward scan's specification is its result |
| BracketScan.ScanRightUnique | entry/src/main/ets/viewmodel/core/strategies/StrategyUtils.ts:12-26 | any position meeting the rightward scan's specification is its result |
| Splice.Remove | entry/src/main/ets/viewmodel/core/EditLogic.ts:26-30 | for an in-range start and count, everything except the removed slice; for a start at or past the end, or a count of zero or less, nothing changes |
| Splice.Insert | entry/src/main/ets/viewmodel/core/EditLogic.ts:14-23 | for an in-range start, the items are placed at that position; the length always grows by the number of items |
| EditLogic.Insert | entry/src/main/ets/viewmodel/core/EditLogic.ts:14-23 | the key's tokens are placed at the cursor; the cursor moves by the key's offset and stays within the inserted run |
| EditLogic.DeleteRange | entry/src/main/ets/viewmodel/core/EditLogic.ts:26-30 | the tokens outside [start, end) are kept in order, and the cursor goes to start |
| EditLogic.DeleteRangeUndoesInsert | entry/src/main/ets/viewmodel/core/EditLogic.ts:14-30 | deleting the inserted span restores the original tokens |
| EditLogic.BackspaceUndoesPlainInsert | entry/src/main/ets/viewmodel/core/EditLogic.ts:14-65 | backspace right after typing a plain (non-bracket) key restores both the tokens and the cursor |
| EditLogic.Backspace | entry/src/main/ets/viewmodel/core/EditLogic.ts:35-65 | at the start nothing happens; after `}` or `]` the cursor dives in without deleting; after `{` or `[` the structural deletion rules decide; after a plain token exactly that token goes; the length never grows, and an unchanged length means unchanged tokens |
| EditLogic.Classify | entry/src/main/ets/viewmodel/core/EditLogic.ts:70-166 | each structural-deletion case, stated as an if-and-only-if of its triggering condition |
| EditLogic.HandleStructuralDeletion | entry/src/main/ets/viewmodel/core/EditLogic.ts:70-166 | an opening brace at the start, or one no rule claims, is simply removed; a fraction's numerator start with a non-empty denominator is blocked; the denominator start collapses the fraction; after a command or operator the block is unwrapped |
| EditLogic.ShapeOf | entry/src/main/ets/viewmodel/core/EditLogic.ts:108-136 | at the denominator start, the numerator's `{` follows a `\frac`, and the denominator `}` is the match of the `{` |
| EditLogic.CollapseFraction | entry/src/main/ets/viewmodel/core/EditLogic.ts:108-136 | the command and the four braces are removed and both arguments are kept; the cursor goes to the numerator's end |
| EditLogic.UnwrapBlock | entry/src/main/ets/viewmodel/core/EditLogic.ts:144-161 | the command, its `{` and the matching `}` are removed and the contents are kept |
| EditLogic.CollapseAt | entry/src/main/ets/viewmodel/core/EditLogic.ts:117-130 | the five splices of the collapse (the denominator's `}` when there is one, its `{`, the numerator's `}` and `{`, the `\frac`) leave exactly the numerator's and the denominator's contents, in order, between the text before the command and the text after the block |
| EditLogic.UnwrapAt | entry/src/main/ets/viewmodel/core/EditLogic.ts:146-157 | the splices of the unwrap (the matching `}` when there is one, the `{`, the command) leave exactly the block's contents between the text before the command and the text after the block |
| EditLogic.FindMatchingCloseBracket | entry/src/main/ets/viewmodel/core/EditLogic.ts:169-179 | a `}` that balances the braces from the opening position on, or -1 |
| EditLogic.FindMatchingOpenBracket | entry/src/main/ets/viewmodel/core/EditLogic.ts:181-191 | a `{` that balances the braces up to the closing position, or -1 |
| EditLogic.UnwrapRootExample | entry/src/main/ets/viewmodel/core/EditLogic.ts:144-161 | backspace in `\sqrt{\|66}` leaves `66` with the cursor at 0 |
| EditLogic.BlockedFractionExample | entry/src/main/ets/viewmodel/core/EditLogic.ts:86-104 | backspace in `\frac{\|}{99}` changes nothing |
| EditLogic.CollapseFractionExample | entry/src/main/ets/viewmodel/core/EditLogic.ts:108-136 | backspace in `\frac{99}{\|}` leaves `99` with the cursor after it |
| CursorLogic.IsValidPosition | entry/src/main/ets/viewmodel/core/CursorLogic.ts:39-64 | a position is invalid exactly when it separates a glued pair; the ends are always valid |
| CursorLogic.MoveLoop | entry/src/main/ets/viewmodel/core/CursorLogic.ts:13-34 | the result is the start position or a valid one; every position skipped on the way is invalid |
| CursorLogic.CalculateMove | entry/src/main/ets/viewmodel/core/CursorLogic.ts:13-34 | the cursor stays, or moves in the requested direction to a valid position past only invalid ones |
| CursorLogic.MoveRightLandsOnFirstValid | entry/src/main/ets/viewmodel/core/CursorLogic.ts:13-34 | within ten steps, moving right lands exactly on the first valid position |
| CursorLogic.MoveLeftLandsOnFirstValid | entry/src/main/ets/viewmodel/core/CursorLogic.ts:13-34 | within ten steps, moving left lands exactly on the first valid position |
| CursorLogic.MoveRightStaysAfterTenGlued | entry/src/main/ets/viewmodel/core/CursorLogic.ts:13-34 | after ten invalid positions in a row the move gives up and the cursor stays |
| CursorLogic.MoveLeftStaysAfterTenGlued | entry/src/main/ets/viewmodel/core/CursorLogic.ts:13-34 | after ten invalid positions in a row to the left the move gives up and the cursor stays |
| CursorLogic.MoveLeftGivesUp | entry/src/main/ets/viewmodel/core/CursorLogic.ts:18-33 | the left search returns the starting position when every position it may still try is invalid |
| CursorLogic.CommandBlockNeverSplit | entry/src/main/ets/viewmodel/core/CursorLogic.ts:13-64 | a move never lands between a command and its `{` or `[` |
| CursorLogic.RootJumpExample | entry/src/main/ets/viewmodel/core/CursorLogic.ts:13-64 | in `\sqrt{x}` the cursor jumps over `\sqrt{` in both directions |
| RenderLogic.TokenMarkup | entry/src/main/ets/viewmodel/core/RenderLogic.ts:22-47 | structural tokens and default-coloured tokens are written bare; every other token is wrapped in a `\textcolor` of its own colour |
| RenderLogic.GenerateDisplayLatex | entry/src/main/ets/viewmodel/core/RenderLogic.ts:6-55 | the markup of the tokens before the cursor, then the bar, then the rest; an empty formula is just the bar; an out-of-range cursor gives no bar |
| RenderLogic.RenderFrom | entry/src/main/ets/viewmodel/core/RenderLogic.ts:13-52 | no contract of its own: it is the rendering loop from position `i` on, and what it writes is stated by `RenderLogic.RenderFromSplit` |
| RenderLogic.RenderFromSplit | entry/src/main/ets/viewmodel/core/RenderLogic.ts:13-52 | from position `i`, the loop writes the markup of the tokens up to the cursor, the bar, then the markup of the rest; with the cursor before `i` or out of range it writes the markup alone, with no bar |
| RenderLogic.BodyAppend | entry/src/main/ets/viewmodel/core/RenderLogic.ts:13-48 | rendering distributes over concatenation |
| RenderLogic.BodyOfVerbatim | entry/src/main/ets/viewmodel/core/RenderLogic.ts:22-47 | uncoloured tokens render as their own values |
| RenderLogic.RenderVerbatim | entry/src/main/ets/viewmodel/core/RenderLogic.ts:6-55 | for uncoloured tokens with the cursor at the end, the output is the token text followed by the bar |
| RenderLogic.RenderAtEnd | entry/src/main/ets/viewmodel/core/RenderLogic.ts:50-52 | with the cursor at the end, the bar follows all the markup |
| RenderLogic.RenderExample | entry/src/main/ets/viewmodel/core/RenderLogic.ts:6-55 | `1+x` renders with only the operator coloured |
| HistoryLogic.PushSnapshot | entry/src/main/ets/viewmodel/core/HistoryLogic.ts:23-36 | the snapshot becomes the newest entry and the redo stack is cleared; the oldest entry is dropped at the limit of 50; the bound is kept |
| HistoryLogic.Undo | entry/src/main/ets/viewmodel/core/HistoryLogic.ts:43-55 | pops the newest past entry and pushes the current state onto the redo stack; with no past, nothing happens |
| HistoryLogic.Redo | entry/src/main/ets/viewmodel/core/HistoryLogic.ts:62-74 | the mirror of undo |
| HistoryLogic.CanUndo | entry/src/main/ets/viewmodel/core/HistoryLogic.ts:96-98 | no contract of its own: the contracts of `HistoryLogic.Undo` state that an undo changes anything exactly when it holds |
| HistoryLogic.CanRedo | entry/src/main/ets/viewmodel/core/HistoryLogic.ts:100-102 | no contract of its own: the contracts of `HistoryLogic.Redo` state that a redo changes anything exactly when it holds |
| HistoryLogic.RedoUndoesUndo | entry/src/main/ets/viewmodel/core/HistoryLogic.ts:43-74 | redo right after undo restores the history and returns the state from before the undo |
| HistoryLogic.UndoUndoesRedo | entry/src/main/ets/viewmodel/core/HistoryLogic.ts:43-74 | undo right after redo restores the history and returns the state from before the redo |
| HistoryLogic.UndoAfterPush | entry/src/main/ets/viewmodel/core/HistoryLogic.ts:23-55 | undo after a push returns the pushed snapshot |
| HistoryLogic.OperationsStayBounded | entry/src/main/ets/viewmodel/core/HistoryLogic.ts:11-74 | push, undo and redo all keep the history within bounds |
| SelectionLogic.FindInnerScope | entry/src/main/ets/viewmodel/core/SelectionLogic.ts:90-122 | the largest brace-balanced gap around the index: the left edge follows an unclosed `{`, the right edge precedes an unopened `}`, and the balance stays positive in between |
| SelectionLogic.FindCommandBlockWrapping | entry/src/main/ets/viewmodel/core/SelectionLogic.ts:129-148 | defined exactly when the selection is a command's `{…}` contents; the result is then the whole command block |
| SelectionLogic.ExpandSelection | entry/src/main/ets/viewmodel/core/SelectionLogic.ts:14-80 | a full selection switches off; without a selection, the scope around the cursor, else the token before it, else the first token; with a selection, the command block around it, else a strictly wider scope around its start, else everything |
| SelectionLogic.ExpandSelectionMoves | entry/src/main/ets/viewmodel/core/SelectionLogic.ts:14-80 | every press moves the cycle on: the selection is cleared exactly from a full selection or in an empty formula; otherwise the new range lies inside the formula and differs from the one given |
| SelectionLogic.NumberRunStart | entry/src/main/ets/viewmodel/core/SelectionLogic.ts:193-197 | the start of the maximal run of digits that ends at the position |
| SelectionLogic.FindPrecedingBlock | entry/src/main/ets/viewmodel/core/SelectionLogic.ts:155-200 | the operand ending at the cursor: a digit run back to its first digit; a bracketed group back to its partner, or for a fraction's denominator back to the numerator's `{`, taking one more token exactly when a command or operator stands there; an unmatched bracket or any other token alone |
| SelectionLogic.BracketOperandStart | entry/src/main/ets/viewmodel/core/SelectionLogic.ts:162-191 | for a closing bracket: an unmatched one stands alone; otherwise its partner, or the numerator's `{` when it closes a fraction's denominator, moved one token left exactly when a command or operator stands there |
| SelectionLogic.FindMatchingOpenBracket | entry/src/main/ets/viewmodel/core/SelectionLogic.ts:203-213 | the nearest unbalanced `{` or `[` before the position, counting both bracket kinds together; -1 when there is none |
| SelectionLogic.InnerScopeOfBlock | entry/src/main/ets/viewmodel/core/SelectionLogic.ts:90-122 | just inside a `{`, the scope is exactly the block's contents |
| SelectionLogic.ExpandCycleExample | entry/src/main/ets/viewmodel/core/SelectionLogic.ts:14-80 | in `\sqrt{x}`, repeated expansion goes from the argument, to the whole formula, to off |
| SelectionLogic.PrecedingNumberExample | entry/src/main/ets/viewmodel/core/SelectionLogic.ts:193-197 | in `12+34`, the operand before the end is `34` |
| SelectionLogic.PrecedingFractionExample | entry/src/main/ets/viewmodel/core/SelectionLogic.ts:162-191 | in `2+\frac{1}{2}`, the operand before the end is the whole fraction |
| StructureManager.Lookup | entry/src/main/ets/viewmodel/core/strategies/StructureManager.ts:15-33 | exactly `\frac`, `^` and `\int` are registered, each under its own id |
| StructureManager.LookupFindsEveryKind | entry/src/main/ets/viewmodel/core/strategies/StructureManager.ts:15-33 | every registered strategy is found under its id |
| StructureManager.FindSurroundingScope | entry/src/main/ets/viewmodel/core/strategies/StructureManager.ts:183-202 | the innermost `{…}` around the cursor, with the `{` before it and the matching `}` at or after it; none exactly when there is no enclosing `{` or it is never closed |
| StructureManager.ScopeEndNotBeforeCursor | entry/src/main/ets/viewmodel/core/strategies/StructureManager.ts:194-199 | the match of the enclosing `{` is never before the cursor, so the "cursor past the end" check is dead |
| StructureManager.NextNonMarker | entry/src/main/ets/viewmodel/core/strategies/StructureManager.ts:159-165 | the first position at or after `i` that is not a structure marker |
| StructureManager.ScanBlockEnd | entry/src/main/ets/viewmodel/core/strategies/StructureManager.ts:155-178 | the command itself, or the `}` ending the run of markers and closed blocks right after it; after the result and its markers no closed block opens |
| StructureManager.ScanBlockEndExtent | entry/src/main/ets/viewmodel/core/strategies/StructureManager.ts:155-178 | a result past the command closes a block opened after it; with no block after the markers the result is the command; otherwise the result reaches at least the end of the first block |
| StructureManager.ScanBlockEndCharacterised | entry/src/main/ets/viewmodel/core/strategies/StructureManager.ts:155-178 | a position is the extent exactly when only markers and closed blocks lie between the command and it and no closed block follows it, so adjacency and maximality determine the result |
| StructureManager.ScanBlockEndFromRun | entry/src/main/ets/viewmodel/core/strategies/StructureManager.ts:155-178 | a run of markers and closed blocks right after the command that no closed block follows ends exactly at the extent |
| StructureManager.AdjacentRunIsWalk | entry/src/main/ets/viewmodel/core/strategies/StructureManager.ts:158-176 | the scan loop, given an adjacent run that no closed block follows, stops exactly at the run's last `}` |
| StructureManager.BlocksFrom | entry/src/main/ets/viewmodel/core/strategies/StructureManager.ts:159-176 | the scan loop's result is the `lastEnd` it started with, or the index of a `}` at or after the position it started from |
| StructureManager.BlocksFromLast | entry/src/main/ets/viewmodel/core/strategies/StructureManager.ts:158-176 | the block walk stops only where it must: after its result (or its start, when it jumped nothing) and the markers there, no closed block opens |
| StructureManager.BlocksFromAdjacent | entry/src/main/ets/viewmodel/core/strategies/StructureManager.ts:158-176 | what the scan loop jumps is a run of markers and closed blocks ending at its result |
| StructureManager.TwoBlocks | entry/src/main/ets/viewmodel/core/strategies/StructureManager.ts:155-178 | for a command followed by exactly two adjacent blocks, the extent is the second block's `}` |
| StructureManager.WalkLeft | entry/src/main/ets/viewmodel/core/strategies/StructureManager.ts:47-68 | the walk stops on a token that is neither a marker nor the `}` of a sibling block, or at -1 |
| StructureManager.FindStrategyContext | entry/src/main/ets/viewmodel/core/strategies/StructureManager.ts:39-90 | found only inside a scope; the command is the walk's stopping point before the scope and names the strategy; the context's extent is that command's block extent; found whenever that command is registered |
| StructureManager.FindNeighborStrategy | entry/src/main/ets/viewmodel/core/strategies/StructureManager.ts:96-147 | leftwards, found exactly when a `}` before the cursor has a `{` that follows a registered command; rightwards, found exactly when the next token is registered |
| StructureManager.FindLeftNeighbor | entry/src/main/ets/viewmodel/core/strategies/StructureManager.ts:99-123 | the corrected leftward lookup: from the block's `{` it walks back over markers and sibling blocks to the command |
| StructureManager.LeftNeighborAgrees | entry/src/main/ets/viewmodel/core/strategies/StructureManager.ts:99-123 | where no marker or sibling block precedes the `{`, the corrected and the original lookup agree |
| StructureStrategy.At | entry/src/main/ets/viewmodel/core/strategies/IStructureStrategy.ts:8-18 | the same context with only the cursor moved |
| FractionStrategy.NumeratorEnd | entry/src/main/ets/viewmodel/core/strategies/implem/FractionStrategy.ts:107-109 | the numerator's `}` lies after its `{`, or is -1 |
| FractionStrategy.OnMoveUp | entry/src/main/ets/viewmodel/core/strategies/implem/FractionStrategy.ts:8-25 | from the right of the fraction or from the denominator, to the numerator's end; elsewhere declined |
| FractionStrategy.OnMoveDown | entry/src/main/ets/viewmodel/core/strategies/implem/FractionStrategy.ts:27-42 | from the right of the fraction or from the numerator, to the denominator's end; elsewhere declined |
| FractionStrategy.GetExitIndex | entry/src/main/ets/viewmodel/core/strategies/implem/FractionStrategy.ts:45-68 | leftwards from either argument's start, to before the command; rightwards from either argument's end, to after the fraction; elsewhere -1 |
| FractionStrategy.GetEntranceIndex | entry/src/main/ets/viewmodel/core/strategies/implem/FractionStrategy.ts:71-81 | from the left into the numerator's start; from the right into the denominator's end |
| FractionStrategy.OnDelete | entry/src/main/ets/viewmodel/core/strategies/implem/FractionStrategy.ts:84-104 | acts exactly at the denominator's start: removes the command and the four braces and keeps both arguments |
| FractionStrategy.RemoveFraction | entry/src/main/ets/viewmodel/core/strategies/implem/FractionStrategy.ts:93-97 | the five splices leave the slices between the command and the braces |
| FractionStrategy.UpDownSwapArguments | entry/src/main/ets/viewmodel/core/strategies/implem/FractionStrategy.ts:8-42 | up from the denominator lands in the numerator, and down from the numerator lands in the denominator; up after down returns to the numerator's end |
| FractionStrategy.EntranceExitRoundTrip | entry/src/main/ets/viewmodel/core/strategies/implem/FractionStrategy.ts:45-81 | exiting right after entering from the left, or left after entering from the right, returns to the outside |
| FractionStrategy.OnDeleteAgreesWithBackspace | entry/src/main/ets/viewmodel/core/strategies/implem/FractionStrategy.ts:84-104 | the strategy's deletion equals the editor's backspace on a well-formed fraction |
| FractionStrategy.BackspaceCollapsesWellFormed | entry/src/main/ets/viewmodel/core/EditLogic.ts:108-136 | backspace at the denominator start of a well-formed fraction removes exactly the command and the four braces |
| FractionStrategy.OnDeleteAtDenominatorStart | entry/src/main/ets/viewmodel/core/strategies/implem/FractionStrategy.ts:84-104 | at the denominator start the result is the fraction's removal, with the cursor at the old numerator's end |
| FractionStrategy.BackspaceCollapsesFraction | entry/src/main/ets/viewmodel/core/EditLogic.ts:108-136 | the editor's collapse rule removes exactly what the strategy removes |
| FractionStrategy.DenominatorStartIsCollapse | entry/src/main/ets/viewmodel/core/EditLogic.ts:70-136 | the denominator's start is classified as a collapse, with the fraction's own braces |
| FractionStrategy.CollapseIsRemoveFraction | entry/src/main/ets/viewmodel/core/EditLogic.ts:108-136 | the collapse rule's splices equal the strategy's removal |
| FractionStrategy.CollapseAtIsRemoveFraction | entry/src/main/ets/viewmodel/core/EditLogic.ts:108-136 | the two removal orders leave the same tokens |
| FractionStrategy.BlockEndOfFraction | entry/src/main/ets/viewmodel/core/strategies/StructureManager.ts:155-178 | the locator's block extent for a fraction is its denominator's `}` |
| FractionStrategy.LeftNeighborMissesFraction | entry/src/main/ets/viewmodel/core/strategies/StructureManager.ts:99-123 | as written, a fraction is never found from its right side |
| FractionStrategy.LeftNeighborFindsFraction | entry/src/main/ets/viewmodel/core/strategies/StructureManager.ts:99-123 | the corrected lookup finds the fraction from its right side, and entering lands at the denominator's end |
| PowerStrategy.OnMoveUp | entry/src/main/ets/viewmodel/core/strategies/implem/PowerStrategy.ts:9-12 | always declined |
| PowerStrategy.OnMoveDown | entry/src/main/ets/viewmodel/core/strategies/implem/PowerStrategy.ts:14-21 | from inside the exponent or before it, to just after the block; beyond it, declined |
| PowerStrategy.OnDelete | entry/src/main/ets/viewmodel/core/strategies/implem/PowerStrategy.ts:23-39 | acts exactly at the exponent's start: removes `^`, `{` and the matching `}` and keeps the exponent |
| PowerStrategy.RemovePower | entry/src/main/ets/viewmodel/core/strategies/implem/PowerStrategy.ts:31-35 | the three splices leave the exponent between what came before and after |
| PowerStrategy.GetEntranceIndex | entry/src/main/ets/viewmodel/core/strategies/implem/PowerStrategy.ts:41-51 | from the left to the exponent's start; from the right to its end |
| PowerStrategy.GetExitIndex | entry/src/main/ets/viewmodel/core/strategies/implem/PowerStrategy.ts:57-79 | leftwards from the exponent's start, to before `^`; rightwards from its end, to after the block; elsewhere -1 |
| PowerStrategy.DownLeavesExponent | entry/src/main/ets/viewmodel/core/strategies/implem/PowerStrategy.ts:14-21 | a second down move is declined |
| PowerStrategy.EntranceExitRoundTrip | entry/src/main/ets/viewmodel/core/strategies/implem/PowerStrategy.ts:41-79 | entering and then exiting the other way returns to the outside |
| PowerStrategy.OnDeleteAgreesWithBackspace | entry/src/main/ets/viewmodel/core/strategies/implem/PowerStrategy.ts:23-39 | the strategy's deletion equals the editor's backspace |
| PowerStrategy.BackspaceUnwrapsPower | entry/src/main/ets/viewmodel/core/EditLogic.ts:144-161 | backspace at the exponent's start unwraps the power |
| PowerStrategy.PowerBlockIsUnwrap | entry/src/main/ets/viewmodel/core/EditLogic.ts:70-161 | the exponent's start is handled by the generic unwrap rule |
| PowerStrategy.UnwrapIsRemovePower | entry/src/main/ets/viewmodel/core/EditLogic.ts:144-161 | the unwrap rule's result equals the strategy's removal |
| IntegralStrategy.LowerEnd | entry/src/main/ets/viewmodel/core/strategies/implem/IntegralStrategy.ts:138-148 | the lower limit's `}` lies after its `{`, or is -1 |
| IntegralStrategy.OnMoveUp | entry/src/main/ets/viewmodel/core/strategies/implem/IntegralStrategy.ts:12-18 | from the lower limit, to the upper limit's start; elsewhere declined |
| IntegralStrategy.OnMoveDown | entry/src/main/ets/viewmodel/core/strategies/implem/IntegralStrategy.ts:20-26 | from the upper limit, to the lower limit's start; elsewhere declined |
| IntegralStrategy.OnDelete | entry/src/main/ets/viewmodel/core/strategies/implem/IntegralStrategy.ts:34-98 | with both limits empty, at either start, the whole integral goes; at an empty limit's start, the cursor hands over to the other limit; otherwise declined |
| IntegralStrategy.GetEntranceIndex | entry/src/main/ets/viewmodel/core/strategies/implem/IntegralStrategy.ts:100-105 | from the left into the lower limit's start; from the right into the upper limit's end |
| IntegralStrategy.GetExitIndex | entry/src/main/ets/viewmodel/core/strategies/implem/IntegralStrategy.ts:107-131 | leftwards from the lower start to before `\int`, and from the upper start to the lower end; rightwards from the upper end to after the integral, and from the lower end to the upper start |
| IntegralStrategy.UpDownSwapLimits | entry/src/main/ets/viewmodel/core/strategies/implem/IntegralStrategy.ts:12-26 | up from the lower limit lands in the upper limit, and down from the upper limit lands in the lower limit |
| IntegralStrategy.LimitHandOverRoundTrip | entry/src/main/ets/viewmodel/core/strategies/implem/IntegralStrategy.ts:107-131 | right from the lower end enters the upper limit, and left from there returns to the lower end |
| IntegralStrategy.EntranceExitRoundTrip | entry/src/main/ets/viewmodel/core/strategies/implem/IntegralStrategy.ts:100-131 | entering and then exiting the other way returns to the outside |
| IntegralStrategy.EmptyLimitHandsOver | entry/src/main/ets/viewmodel/core/strategies/implem/IntegralStrategy.ts:73-88 | a deletion that keeps the tokens always leaves the cursor inside a limit |
| IntegralStrategy.UpperLimitExample | entry/src/main/ets/viewmodel/core/strategies/StructureManager.ts:39-90 | inside the upper limit the locator finds the integral, and down goes to the lower limit |
| IntegralStrategy.LeftNeighborOfIntegralIsPower | entry/src/main/ets/viewmodel/core/strategies/StructureManager.ts:99-123 | as written, leaving an integral to its right and looking left finds the `^` marker's power strategy |
| IntegralStrategy.PowerStandInEntersAlike | entry/src/main/ets/viewmodel/core/strategies/implem/PowerStrategy.ts:41-51 | on the context the lookup returns, the power strategy enters `\int_{a}^{b}` from the right at the same position as the integral strategy would, and both decline up and down |
| IntegralStrategy.LeftNeighborFindsIntegral | entry/src/main/ets/viewmodel/core/strategies/StructureManager.ts:99-123 | the corrected lookup finds the integral from its right side |
| LogStrategy.BaseContentStart | entry/src/main/ets/viewmodel/core/strategies/implem/LogStructureStrategy.ts:75-87 | the base's first content position when a `_` (or marker) and `{` follow the command, else -1 |
| LogStrategy.GetEntranceIndex | entry/src/main/ets/viewmodel/core/strategies/implem/LogStructureStrategy.ts:12-30 | from the left into the base's content; from the right to the block's end |
| LogStrategy.GetExitIndex | entry/src/main/ets/viewmodel/core/strategies/implem/LogStructureStrategy.ts:36-65 | leftwards from the base's start, to before the command; rightwards from the base's end, into a following `(` argument when there is one, else just after |
| LogStrategy.OnMoveUp | entry/src/main/ets/viewmodel/core/strategies/implem/LogStructureStrategy.ts:91-93 | always declined |
| LogStrategy.OnMoveDown | entry/src/main/ets/viewmodel/core/strategies/implem/LogStructureStrategy.ts:95-97 | always declined |
| LogStrategy.OnDelete | entry/src/main/ets/viewmodel/core/strategies/implem/LogStructureStrategy.ts:99-114 | acts exactly in an empty base, and removes the four tokens of `\log _ { }` |
| LogStrategy.EntranceExitRoundTrip | entry/src/main/ets/viewmodel/core/strategies/implem/LogStructureStrategy.ts:12-65 | entering and then exiting the other way returns to the outside, or into the argument's parenthesis |
| LogStrategy.ExitIntoArgumentExample | entry/src/main/ets/viewmodel/core/strategies/implem/LogStructureStrategy.ts:36-65 | in `\log_{2}(x)`, right from the base lands inside the parenthesis, and left from the base goes to before `\log` |
| CalculationService.FindMatchingParen | entry/src/main/ets/viewmodel/core/CalculationService.ts:293-303 | the matching close past the start, or the end of the tokens when there is none |
| CalculationService.ParenLoopIsScan | entry/src/main/ets/viewmodel/core/CalculationService.ts:293-303 | the parenthesis loop is the generic balance scan, with "not found" mapped to the length |
| CalculationService.FindMatchingParenIsScan | entry/src/main/ets/viewmodel/core/CalculationService.ts:293-303 | the same for the search as a whole |
| CalculationService.ParenLoopToClose | entry/src/main/ets/viewmodel/core/CalculationService.ts:293-303 | with no bracket in between, the search stops at the first closing one |
| CalculationService.ParseExpr | entry/src/main/ets/viewmodel/core/CalculationService.ts:101-148 | the parse never moves backwards and stays within one past the end; it consumes the whole span unless the fuse cuts it |
| CalculationService.ExprStep | entry/src/main/ets/viewmodel/core/CalculationService.ts:116-145 | every step consumes at least one token, and a non-factor token exactly one |
| CalculationService.ExprLoop | entry/src/main/ets/viewmodel/core/CalculationService.ts:106-146 | the loop never moves backwards and reaches the span's end within the fuse |
| CalculationService.ParenLoop | entry/src/main/ets/viewmodel/core/CalculationService.ts:293-303 | the loop stops at a closing bracket or at the end of the tokens |
| CalculationService.ParseFraction | entry/src/main/ets/viewmodel/core/CalculationService.ts:171-178 | progress only; the text is given by `FractionOfPlain` |
| CalculationService.ParseRoot | entry/src/main/ets/viewmodel/core/CalculationService.ts:182-204 | progress only; the text is given by `SquareRootOfPlain` and the cube-root example |
| CalculationService.ParseLog | entry/src/main/ets/viewmodel/core/CalculationService.ts:207-226 | progress only; the text is given by `LogOfPlain` and `LogOfPlainBase` |
| CalculationService.ParseTrig | entry/src/main/ets/viewmodel/core/CalculationService.ts:240-260 | progress only; the text is given by `TrigOfPlain` and the inverse-trig example |
| CalculationService.ParseFactor | entry/src/main/ets/viewmodel/core/CalculationService.ts:155-278 | past the end, nothing; otherwise at least one token is consumed |
| CalculationService.TrigFunctionName | entry/src/main/ets/viewmodel/core/CalculationService.ts:240-254 | the command without its backslash; an `arc` prefix becomes `a`; an inverse marker prefixes `a` |
| CalculationService.TrigNamesKnownToEngine | entry/src/main/ets/viewmodel/core/CalculationService.ts:64-74 | every trigonometric command is named after a function the engine's scope defines, exactly unless an arc command carries `^{-1}` (`\arcsin^{-1}` becomes `aarcsin`) |
| CalculationService.PlainTrigNames | entry/src/main/ets/viewmodel/core/CalculationService.ts:240-254 | the six plain and hyperbolic commands name an engine function, with or without `^{-1}` |
| CalculationService.ArcTrigNames | entry/src/main/ets/viewmodel/core/CalculationService.ts:240-254 | an arc command names an engine function exactly when no `^{-1}` follows it |
| CalculationService.ExtractBlock | entry/src/main/ets/viewmodel/core/CalculationService.ts:282-291 | past the end, nothing; otherwise progress |
| CalculationService.TryExtractSubscript | entry/src/main/ets/viewmodel/core/CalculationService.ts:305-312 | present exactly when the token is `_`; the subscript is the block (or factor) right after the `_` |
| CalculationService.TryExtractInverse | entry/src/main/ets/viewmodel/core/CalculationService.ts:314-324 | present exactly for the five tokens `^ { - 1 }`, which it skips |
| CalculationService.Translate | entry/src/main/ets/viewmodel/core/CalculationService.ts:40-57 | refused exactly when the formula holds a complex symbol or its translation is blank or `()`; otherwise the expression is the translation of the whole formula |
| CalculationService.OpMap | entry/src/main/ets/viewmodel/core/CalculationService.ts:35-38 | defined on exactly the seven operator keys, each mapped to an operator of the engine, with `+`, `-` and `^` unchanged |
| CalculationService.IsJsWhitespace | entry/src/main/ets/viewmodel/core/CalculationService.ts:57 | the characters `trim` removes: among ASCII exactly tab, line feed, vertical tab, form feed, carriage return and space, and nothing beyond U+FEFF |
| CalculationService.TrimStart | entry/src/main/ets/viewmodel/core/CalculationService.ts:57 | a suffix of the text, all removed characters white space, and the result starting with a non-space or empty |
| CalculationService.TrimEnd | entry/src/main/ets/viewmodel/core/CalculationService.ts:57 | a prefix of the text, all removed characters white space, and the result ending with a non-space or empty |
| CalculationService.Trim | entry/src/main/ets/viewmodel/core/CalculationService.ts:57 | the result is a contiguous piece of the text with only white space before and after it, and it is empty or starts and ends with a non-space character: the text with its white space removed at both ends |
| CalculationService.StrippedByCuts | entry/src/main/ets/viewmodel/core/CalculationService.ts:57 | cutting white space off the front and then off the back leaves a piece of the text with only white space around it |
| CalculationService.IsBlank | entry/src/main/ets/viewmodel/core/CalculationService.ts:57 | every character is white space exactly when the text trims to nothing, the `!expression.trim()` test |
| CalculationService.ScanComplexSymbols | entry/src/main/ets/viewmodel/core/CalculationService.ts:48-50 | the early-exit loop over the tokens reports a symbol of `COMPLEX_SYMBOLS` exactly when the formula holds one |
| CalculationService.ParseExprOfSimple | entry/src/main/ets/viewmodel/core/CalculationService.ts:101-148 | a run of simple tokens translates to their operator-mapped pieces in order |
| CalculationService.FuseCutsLongSpans | entry/src/main/ets/viewmodel/core/CalculationService.ts:104-111 | a span longer than 1000 simple tokens is cut after 1000 |
| CalculationService.TranslateOfSimple | entry/src/main/ets/viewmodel/core/CalculationService.ts:40-57 | for simple tokens, the expression is the pieces, unless blank or `()` |
| CalculationService.PlainFactor | entry/src/main/ets/viewmodel/core/CalculationService.ts:273-277 | a single-character number or variable is its own text |
| CalculationService.PlainBlock | entry/src/main/ets/viewmodel/core/CalculationService.ts:282-291 | `{x}` extracts `x` |
| CalculationService.PlainParens | entry/src/main/ets/viewmodel/core/CalculationService.ts:263-267 | `(x)` translates to `(x)` |
| CalculationService.SingleFactor | entry/src/main/ets/viewmodel/core/CalculationService.ts:40-148 | a formula that is one factor translates to that factor's text |
| CalculationService.FractionOfPlain | entry/src/main/ets/viewmodel/core/CalculationService.ts:171-178 | `\frac{a}{b}` translates to `(a) / (b)` |
| CalculationService.SquareRootOfPlain | entry/src/main/ets/viewmodel/core/CalculationService.ts:182-204 | `\sqrt{x}` translates to `nthRoot(x, 2)` |
| CalculationService.LogOfPlainBase | entry/src/main/ets/viewmodel/core/CalculationService.ts:207-226 | `\log_{b} x` translates to `log(x, b)` for a base other than 10 |
| CalculationService.LogOfPlain | entry/src/main/ets/viewmodel/core/CalculationService.ts:207-226 | `\log x` translates to `log10(x)` |
| CalculationService.NaturalAndCommonLogOfPlain | entry/src/main/ets/viewmodel/core/CalculationService.ts:228-237 | `\ln x` translates to `log(x)`, and `\lg x` to `log10(x)` |
| CalculationService.TrigOfPlain | entry/src/main/ets/viewmodel/core/CalculationService.ts:240-260 | a trig command with an argument translates to the math.js name applied to it |
| CalculationService.FractionExample | entry/src/main/ets/viewmodel/core/CalculationService.ts:171-178 | `\frac{1}{2}` translates to `(1) / (2)` |
| CalculationService.CubeRootExample | entry/src/main/ets/viewmodel/core/CalculationService.ts:182-204 | `\sqrt[3]{8}` translates to `nthRoot(8, 3)` |
| CalculationService.LogBaseExample | entry/src/main/ets/viewmodel/core/CalculationService.ts:207-226 | `\log_{2}(8)` translates to `log((8), 2)` |
| CalculationService.LogBaseTenExample | entry/src/main/ets/viewmodel/core/CalculationService.ts:207-226 | base 10 translates to `log10` |
| CalculationService.InverseTrigExample | entry/src/main/ets/viewmodel/core/CalculationService.ts:240-260 | `\sin^{-1}(x)` translates to `asin((x))` |
| CalculationService.ArcTrigExample | entry/src/main/ets/viewmodel/core/CalculationService.ts:240-260 | `\arccos x` translates to `acos(x)` |
| CalculationService.NaturalLogExample | entry/src/main/ets/viewmodel/core/CalculationService.ts:233-237 | `\ln x` translates to `log(x)` |
| CalculationService.CommonLogExample | entry/src/main/ets/viewmodel/core/CalculationService.ts:228-231 | `\lg x` translates to `log10(x)` |
| CalculationService.SquareRootExample | entry/src/main/ets/viewmodel/core/CalculationService.ts:182-204 | `\sqrt{x}` translates to `nthRoot(x, 2)` |
| CalculationService.RefusedExamples | entry/src/main/ets/viewmodel/core/CalculationService.ts:40-57 | an integral, an empty pair of parentheses and the empty formula all give no expression |
| CalculationService.OperatorExample | entry/src/main/ets/viewmodel/core/CalculationService.ts:35-38 | `2×3=6` translates with the operator table to `2*3==6` |

## Left out

- Real-time evaluation itself is left out. That covers loading math.js (`getMath`), the scope of degree-aware trig functions and constants, the call to `evaluate`, `formatResult`, and the `try/catch`. They are floating point in a foreign library. `CalculationService.Translate` stops at the expression string.
- Logging, the debug dump of the integral strategy, and console output are left out. They have no effect on state.
- Token ids from `Math.random` are left out. Tokens are compared by value, category and colour.
- The registry's lazy initialisation and mutable map are left out. `StructureManager.Lookup` is the initialised registry as a pure function.
- The horizontal and vertical move orchestration (escape, then dive-in, then step) is not part of this model. Neither are the division and reciprocal rewrites that the key table refers to. Those source files are not part of this model; only the pieces they call are modelled.
- The key table, figure configuration, AI service, HTML template, colour constants and the logger are left out, as are the UI-only fields of a key model. They are configuration or presentation.
- `OP_MAP` lookups of inherited object keys (such as `constructor`) are left out. `CalculationService.OpMap` covers the table's own entries only.
- JavaScript `trim` is modelled by `IsJsWhitespace`. It lists the ECMAScript white-space and line-terminator characters: tab, vertical tab, form feed, space, no-break space, the byte-order mark, the Unicode space separators, line feed, carriage return, and the line and paragraph separators. No Unicode database is consulted, so a space separator added to Unicode later is not in the list.
- `HistoryLogic.CanUndo` and `HistoryLogic.CanRedo` are left without a contract. They are one-line emptiness tests that the undo and redo contracts use directly. `RenderLogic.RenderFrom` is left without one too, because `RenderLogic.RenderFromSplit` states what it writes.
- CalculationService.ParseFraction: its contract states only progress (the next index moves forward and stays in range). The output text is stated by `CalculationService.FractionOfPlain` and the examples, for one-token arguments only.
- CalculationService.ParseRoot: its contract states only progress (the next index moves forward and stays in range). The output text is stated by `CalculationService.SquareRootOfPlain` and the examples, for one-token arguments only.
- CalculationService.ParseLog: its contract states only progress (the next index moves forward and stays in range). The output text is stated by `CalculationService.LogOfPlain` and the examples, for one-token arguments only.
- CalculationService.ParseTrig: its contract states only progress (the next index moves forward and stays in range). The output text is stated by `CalculationService.TrigOfPlain` and the examples, for one-token arguments only.
- CalculationService.ParseFactor: its contract states progress only; the text per case is given by the same lemmas.
- CalculationService.ExprStep: its contract states progress only; `ParseExprOfSimple` gives the text for runs of simple tokens.
- CalculationService.ParseExpr: "consumes the whole span" is proved only for spans within the 1000-step fuse.
- CalculationService.ExtractBlock: its contract states progress only; `PlainBlock` gives the text of a one-token block.
- IntegralStrategy.OnDelete: the slice form of the result is stated only when the whole integral is removed. The hand-over cases keep the tokens, and that is stated.

## Findings

| source | as written | input that shows it | evidently intended | confidence | as-written member | corrected member |
|---|---|---|---|---|---|---|
| entry/src/main/ets/viewmodel/core/strategies/StructureManager.ts:99-123 | the leftward neighbour lookup takes the token right before the `{` that matches the `}` left of the cursor as the command | `\frac{1}{2}` with the cursor after it: the token before the denominator's `{` is the numerator's `}`, so nothing is found. In `\int_{a}^{b}` it is the `^` marker, so the power strategy is returned with the wrong extent. | walk back over markers and sibling blocks to the command, as the context locator does, so that the fraction's left-entrance positions are reachable | medium, not executed | FractionStrategy.LeftNeighborMissesFraction | FractionStrategy.LeftNeighborFindsFraction |
| entry/src/main/ets/viewmodel/core/strategies/StructureManager.ts:99-123 | the same lookup for an integral | `\int_{a}^{b}` with the cursor after it | the same, giving the integral strategy with the extent 0..8 instead of the power strategy with 5..8. The entrance position and the vertical moves are the same either way (`IntegralStrategy.PowerStandInEntersAlike`), so only the strategy and the extent differ | medium, not executed | IntegralStrategy.LeftNeighborOfIntegralIsPower | IntegralStrategy.LeftNeighborFindsIntegral |

The corrected lookup is `StructureManager.FindLeftNeighbor`. `StructureManager.LeftNeighborAgrees` proves that it matches the original wherever the original already works, for example for powers.
