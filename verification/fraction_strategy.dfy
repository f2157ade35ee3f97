/**
 * Navigation and deletion inside `\frac{numerator}{denominator}`. The
 * numerator's `{` is the token after the command; its partner closes the
 * numerator, the denominator opens right after, and `blockEnd` closes it.
 */
module FractionStrategy {
  import opened Wrappers
  import opened FormulaToken
  import opened BracketScan
  import StrategyUtils
  import Splice
  import EditLogic
  import opened StructureStrategy
  import StructureManager

  /** The token after the command exists: the source reads it without a check. */
  predicate HasNumerator(ctx: StrategyContext) {
    0 <= ctx.commandIndex + 1 < |ctx.tokens|
  }

  /** The `}` closing the numerator, or -1. */
  function NumeratorEnd(ctx: StrategyContext): (r: int)
    requires HasNumerator(ctx)
    ensures r == -1 || ctx.commandIndex + 1 < r < |ctx.tokens|
  {
    StrategyUtils.FindMatchingClose(ctx.tokens, ctx.commandIndex + 1)
  }

  /** The cursor is inside the numerator (after its `{`, up to its `}`). */
  predicate InNumerator(ctx: StrategyContext)
    requires HasNumerator(ctx)
  {
    ctx.commandIndex + 1 < ctx.cursorIndex <= NumeratorEnd(ctx)
  }

  /** The cursor is inside the denominator (after its `{`, up to `blockEnd`). */
  predicate InDenominator(ctx: StrategyContext)
    requires HasNumerator(ctx)
  {
    NumeratorEnd(ctx) + 1 < ctx.cursorIndex <= ctx.blockEnd
  }

  /** Up: from the right of the fraction or from the denominator to the end of the numerator. */
  function OnMoveUp(ctx: StrategyContext): (r: int)
    requires HasNumerator(ctx)
    ensures ctx.cursorIndex > ctx.blockEnd || InDenominator(ctx) ==> r == NumeratorEnd(ctx)
    ensures !(ctx.cursorIndex > ctx.blockEnd || InDenominator(ctx)) ==> r == -1
  {
    if ctx.cursorIndex > ctx.blockEnd then NumeratorEnd(ctx)
    else if InDenominator(ctx) then NumeratorEnd(ctx)
    else -1
  }

  /** Down: from the right of the fraction or from the numerator to the end of the denominator. */
  function OnMoveDown(ctx: StrategyContext): (r: int)
    requires ctx.cursorIndex <= ctx.blockEnd ==> HasNumerator(ctx)
    ensures ctx.cursorIndex > ctx.blockEnd ==> r == ctx.blockEnd
    ensures ctx.cursorIndex <= ctx.blockEnd && InNumerator(ctx) ==> r == ctx.blockEnd
    ensures ctx.cursorIndex <= ctx.blockEnd && !InNumerator(ctx) ==> r == -1
  {
    if ctx.cursorIndex > ctx.blockEnd then ctx.blockEnd
    else if InNumerator(ctx) then ctx.blockEnd
    else -1
  }

  /**
   * Break-out: leftwards from the start of either argument to before the
   * command, rightwards from the end of either argument to after the fraction.
   */
  function GetExitIndex(ctx: StrategyContext, direction: int): (r: int)
    requires HasNumerator(ctx)
    ensures direction == -1 && (ctx.cursorIndex == ctx.commandIndex + 2 || ctx.cursorIndex == NumeratorEnd(ctx) + 2) ==>
              r == ctx.commandIndex
    ensures direction == 1 && (ctx.cursorIndex == NumeratorEnd(ctx) || ctx.cursorIndex == ctx.blockEnd) ==>
              r == ctx.blockEnd + 1
    ensures (!(direction == -1 && (ctx.cursorIndex == ctx.commandIndex + 2 || ctx.cursorIndex == NumeratorEnd(ctx) + 2)) &&
             !(direction == 1 && (ctx.cursorIndex == NumeratorEnd(ctx) || ctx.cursorIndex == ctx.blockEnd))) ==> r == -1
  {
    var numEnd := NumeratorEnd(ctx);
    if direction == -1 && ctx.cursorIndex == ctx.commandIndex + 2 then ctx.commandIndex
    else if direction == -1 && ctx.cursorIndex == numEnd + 2 then ctx.commandIndex
    else if direction == 1 && ctx.cursorIndex == numEnd then ctx.blockEnd + 1
    else if direction == 1 && ctx.cursorIndex == ctx.blockEnd then ctx.blockEnd + 1
    else -1
  }

  /** Dive-in: moving left enters at the end of the denominator, moving right at the start of the numerator. */
  function GetEntranceIndex(ctx: StrategyContext, heading: Heading): (r: int)
    ensures heading == Left ==> r == ctx.blockEnd
    ensures heading == Right ==> r == ctx.commandIndex + 2
  {
    match heading
    case Left => ctx.blockEnd
    case Right => ctx.commandIndex + 2
  }

  /**
   * Backspace at the start of the denominator: a copy of the tokens without
   * the command and the four braces, with the cursor at the end of what was
   * the numerator. Anywhere else the strategy declines.
   */
  function OnDelete(ctx: StrategyContext): (r: Option<EditLogic.EditResult>)
    requires HasNumerator(ctx)
    ensures r.Some? <==> InDenominator(ctx) && ctx.cursorIndex == NumeratorEnd(ctx) + 2
    ensures r.Some? ==> r.value.cursorIndex == NumeratorEnd(ctx) - 2 && |r.value.tokens| <= |ctx.tokens|
    ensures r.Some? && 0 <= ctx.commandIndex && NumeratorEnd(ctx) != -1 && ctx.blockEnd < |ctx.tokens| ==>
              var ts, c, n, d := ctx.tokens, ctx.commandIndex, NumeratorEnd(ctx), ctx.blockEnd;
              r.value.tokens == ts[..c] + ts[c + 2..n] + ts[n + 2..d] + ts[d + 1..]
  {
    var numEnd := NumeratorEnd(ctx);
    if InDenominator(ctx) && ctx.cursorIndex == numEnd + 2 then
      Some(EditLogic.EditResult(RemoveFraction(ctx.tokens, ctx.commandIndex, numEnd, ctx.blockEnd), numEnd - 2))
    else None
  }

  /**
   * The five splices of the deletion, last position first: the denominator's
   * `}` at `d` and `{` at `n + 1`, the numerator's `}` at `n` and `{` at
   * `c + 1`, and the command at `c`.
   */
  function RemoveFraction(ts: seq<Token>, c: int, n: int, d: int): (r: seq<Token>)
    ensures |r| <= |ts|
    ensures 0 <= c && c + 1 < n && n + 1 < d < |ts| ==> r == ts[..c] + ts[c + 2..n] + ts[n + 2..d] + ts[d + 1..]
  {
    if 0 <= c && c + 1 < n && n + 1 < d < |ts| then
      Splice.RemoveOneThenTwoPairs(ts, c, n, d);
      Splice.RemoveEach(ts, [d, n + 1, n, c + 1, c])
    else
      Splice.RemoveEach(ts, [d, n + 1, n, c + 1, c])
  }

  /** `\frac{…}{…}` at the command: both braces present and matched, `blockEnd` closing the denominator. */
  predicate WellFormed(ctx: StrategyContext) {
    var ts, c := ctx.tokens, ctx.commandIndex;
    0 <= c && c + 1 < |ts| && ts[c].value == Frac && ts[c + 1].value == "{" &&
    var n := NumeratorEnd(ctx);
    n != -1 && n + 1 < |ts| && ts[n + 1].value == "{" &&
    ctx.blockEnd == StrategyUtils.FindMatchingClose(ts, n + 1) && ctx.blockEnd != -1
  }

  /** In a well-formed fraction up and down swap the arguments: each lands in the other one. */
  lemma UpDownSwapArguments(ctx: StrategyContext)
    requires WellFormed(ctx)
    ensures InDenominator(ctx) ==> InNumerator(At(ctx, OnMoveUp(ctx)))
    ensures InNumerator(ctx) ==> InDenominator(At(ctx, OnMoveDown(ctx)))
    ensures InNumerator(ctx) ==> OnMoveUp(At(ctx, OnMoveDown(ctx))) == NumeratorEnd(ctx)
    ensures InDenominator(ctx) ==> OnMoveDown(At(ctx, OnMoveUp(ctx))) == ctx.blockEnd
  {
  }

  /** Diving in and immediately breaking out on the same side returns to where the cursor was. */
  lemma EntranceExitRoundTrip(ctx: StrategyContext)
    requires HasNumerator(ctx)
    ensures GetExitIndex(At(ctx, GetEntranceIndex(ctx, Right)), -1) == ctx.commandIndex
    ensures GetExitIndex(At(ctx, GetEntranceIndex(ctx, Left)), 1) == ctx.blockEnd + 1
  {
  }

  /**
   * The strategy's delete and the editor's backspace agree: at the start of a
   * well-formed denominator both collapse the fraction into its numerator.
   */
  lemma OnDeleteAgreesWithBackspace(ctx: StrategyContext)
    requires WellFormed(ctx) && ctx.cursorIndex == NumeratorEnd(ctx) + 2
    ensures OnDelete(ctx) == Some(EditLogic.Backspace(ctx.tokens, ctx.cursorIndex))
  {
    BackspaceCollapsesWellFormed(ctx);
    OnDeleteAtDenominatorStart(ctx);
  }

  /** The editor's backspace at the start of a well-formed fraction's denominator, stated on the context. */
  lemma BackspaceCollapsesWellFormed(ctx: StrategyContext)
    requires WellFormed(ctx) && ctx.cursorIndex == NumeratorEnd(ctx) + 2
    ensures InDenominator(ctx)
    ensures EditLogic.Backspace(ctx.tokens, ctx.cursorIndex)
            == EditLogic.EditResult(RemoveFraction(ctx.tokens, ctx.commandIndex, NumeratorEnd(ctx), ctx.blockEnd), NumeratorEnd(ctx) - 2)
  {
    BackspaceCollapsesFraction(ctx.tokens, ctx.commandIndex, NumeratorEnd(ctx), ctx.blockEnd, ctx.cursorIndex);
  }

  /** At the start of the denominator the strategy makes the five splices. */
  lemma OnDeleteAtDenominatorStart(ctx: StrategyContext)
    requires HasNumerator(ctx) && InDenominator(ctx) && ctx.cursorIndex == NumeratorEnd(ctx) + 2
    ensures OnDelete(ctx) == Some(EditLogic.EditResult(RemoveFraction(ctx.tokens, ctx.commandIndex, NumeratorEnd(ctx), ctx.blockEnd), NumeratorEnd(ctx) - 2))
  {
  }

  /** The editor's backspace at the start of a well-formed denominator makes the same five splices. */
  lemma BackspaceCollapsesFraction(ts: seq<Token>, c: int, n: int, d: int, cursor: int)
    requires 0 <= c && c + 1 < |ts| && ts[c].value == Frac && ts[c + 1].value == "{"
    requires n == StrategyUtils.FindMatchingClose(ts, c + 1) && n != -1 && n + 1 < |ts| && ts[n + 1].value == "{"
    requires d == StrategyUtils.FindMatchingClose(ts, n + 1) && d != -1
    requires cursor == n + 2
    ensures c + 1 < n && n + 1 < d < |ts|
    ensures EditLogic.Backspace(ts, cursor) == EditLogic.EditResult(RemoveFraction(ts, c, n, d), n - 2)
  {
    DenominatorStartIsCollapse(ts, c, n, d);
    CollapseIsRemoveFraction(ts, c, n, d);
  }

  /** The editor classifies the denominator's `{` as a collapse and finds the same braces. */
  lemma DenominatorStartIsCollapse(ts: seq<Token>, c: int, n: int, d: int)
    requires 0 <= c && c + 1 < |ts| && ts[c].value == Frac && ts[c + 1].value == "{"
    requires n == StrategyUtils.FindMatchingClose(ts, c + 1) && n != -1 && n + 1 < |ts| && ts[n + 1].value == "{"
    requires d == StrategyUtils.FindMatchingClose(ts, n + 1) && d != -1
    ensures c + 1 < n && n + 1 < d < |ts|
    ensures EditLogic.Classify(ts, n + 1) == EditLogic.Collapse
    ensures EditLogic.ShapeOf(ts, n + 1) == EditLogic.FractionShape(c + 1, d)
  {
    assert ts[n].value == "}";
    // the editor's brace-only scans meet the same braces
    StrategyUtils.MatchRoundTrip(ts, c + 1);
    assert EditLogic.FindMatchingOpenBracket(ts, n) == c + 1;
    assert EditLogic.FindMatchingCloseBracket(ts, n + 1) == d;
  }

  /** A collapse with the numerator's `{` at `c + 1` is the strategy's removal. */
  lemma CollapseIsRemoveFraction(ts: seq<Token>, c: int, n: int, d: int)
    requires 0 <= c && c + 1 < n && n + 1 < d < |ts| && ts[n + 1].value == "{"
    requires EditLogic.Classify(ts, n + 1) == EditLogic.Collapse
    requires EditLogic.ShapeOf(ts, n + 1) == EditLogic.FractionShape(c + 1, d)
    ensures EditLogic.Backspace(ts, n + 2) == EditLogic.EditResult(RemoveFraction(ts, c, n, d), n - 2)
  {
    assert EditLogic.Backspace(ts, n + 2) == EditLogic.CollapseFraction(ts, n + 1);
    CollapseAtIsRemoveFraction(ts, c, n, d);
  }

  /** The collapse's five splices are the strategy's. */
  lemma CollapseAtIsRemoveFraction(ts: seq<Token>, c: int, n: int, d: int)
    requires 0 <= c && c + 1 < n && n + 1 < d < |ts|
    ensures EditLogic.CollapseAt(ts, c + 1, n + 1, d) == RemoveFraction(ts, c, n, d)
  {
    var removed := Splice.RemoveEach(ts, [d, n + 1, n, c + 1, c]);
    assert EditLogic.CollapseAt(ts, c + 1, n + 1, d) == removed;
    assert RemoveFraction(ts, c, n, d) == removed;
  }

  /**
   * For a fraction followed by the end or by anything but a marker or `{`,
   * the locator's block extent is the denominator's `}`.
   */
  lemma BlockEndOfFraction(ctx: StrategyContext)
    requires WellFormed(ctx)
    requires ctx.tokens[ctx.commandIndex + 1].kind != StructMarker
    requires ctx.tokens[NumeratorEnd(ctx) + 1].kind != StructMarker
    requires ctx.blockEnd + 1 < |ctx.tokens| ==>
               ctx.tokens[ctx.blockEnd + 1].kind != StructMarker && ctx.tokens[ctx.blockEnd + 1].value != "{"
    ensures StructureManager.ScanBlockEnd(ctx.tokens, ctx.commandIndex) == ctx.blockEnd
  {
    StructureManager.TwoBlocks(ctx.tokens, ctx.commandIndex, NumeratorEnd(ctx), ctx.blockEnd);
  }

  /**
   * Diving left into a fraction finds no strategy: the `{` matching the
   * fraction's last `}` is the denominator's, and the token before it is the
   * numerator's `}`, which names no structure.
   */
  lemma LeftNeighborMissesFraction(ctx: StrategyContext)
    requires WellFormed(ctx)
    ensures StructureManager.FindNeighborStrategy(ctx.tokens, ctx.blockEnd + 1, -1).None?
  {
    var ts, n, d := ctx.tokens, NumeratorEnd(ctx), ctx.blockEnd;
    StrategyUtils.MatchRoundTrip(ts, n + 1);
    assert StrategyUtils.FindMatchingOpen(ts, d) == n + 1;
    assert ts[n].value == "}";
  }

  /**
   * The corrected leftward lookup finds the fraction from just past its
   * denominator, and entering from the left lands at the denominator's end.
   */
  lemma LeftNeighborFindsFraction(ctx: StrategyContext)
    requires WellFormed(ctx)
    requires ctx.tokens[ctx.commandIndex].kind != StructMarker
    requires ctx.tokens[NumeratorEnd(ctx)].kind != StructMarker
    ensures var ts, c, d := ctx.tokens, ctx.commandIndex, ctx.blockEnd;
            StructureManager.FindLeftNeighbor(ts, d + 1) ==
              Some(StructureManager.Located(StructureManager.Fraction, StrategyContext(ts, d + 1, c, c, d)))
    ensures GetEntranceIndex(StrategyContext(ctx.tokens, ctx.blockEnd + 1, ctx.commandIndex, ctx.commandIndex, ctx.blockEnd), Left)
            == ctx.blockEnd
  {
    var ts, c, n, d := ctx.tokens, ctx.commandIndex, NumeratorEnd(ctx), ctx.blockEnd;
    StrategyUtils.MatchRoundTrip(ts, n + 1);
    assert StrategyUtils.FindMatchingOpen(ts, d) == n + 1;
    StrategyUtils.MatchRoundTrip(ts, c + 1);
    assert StrategyUtils.FindMatchingOpen(ts, n) == c + 1;
    assert ts[n].value == "}";
    assert StructureManager.WalkLeft(ts, c) == c;
    assert StructureManager.WalkLeft(ts, n) == c;
  }
}
