/**
 * Navigation and deletion for a definite integral laid out as
 * `\int _ {lower} ^ {upper}`: the lower limit's `{` is two tokens after the
 * command, the upper limit's `{` two tokens after the lower limit's `}`, and
 * `blockEnd` closes the upper limit.
 */
module IntegralStrategy {
  import opened Wrappers
  import opened FormulaToken
  import BracketScan
  import StrategyUtils
  import Splice
  import EditLogic
  import opened StructureStrategy
  import StructureManager
  import PowerStrategy

  /** The lower limit's `{` position holds a token: the source reads it without a check. */
  predicate HasLowerLimit(ctx: StrategyContext) {
    0 <= ctx.commandIndex + 2 < |ctx.tokens|
  }

  /** The position of the lower limit's `{`. */
  function LowerStart(ctx: StrategyContext): int {
    ctx.commandIndex + 2
  }

  /** The `}` closing the lower limit, or -1. */
  function LowerEnd(ctx: StrategyContext): (r: int)
    requires HasLowerLimit(ctx)
    ensures r == -1 || LowerStart(ctx) < r < |ctx.tokens|
  {
    StrategyUtils.FindMatchingClose(ctx.tokens, LowerStart(ctx))
  }

  /** The position of the upper limit's `{`: past the lower `}` and the `^` marker. */
  function UpperStart(ctx: StrategyContext): int
    requires HasLowerLimit(ctx)
  {
    LowerEnd(ctx) + 2
  }

  predicate InLowerLimit(ctx: StrategyContext)
    requires HasLowerLimit(ctx)
  {
    LowerStart(ctx) < ctx.cursorIndex <= LowerEnd(ctx)
  }

  predicate InUpperLimit(ctx: StrategyContext)
    requires HasLowerLimit(ctx)
  {
    UpperStart(ctx) < ctx.cursorIndex <= ctx.blockEnd
  }

  /** Up: from the lower limit to the start of the upper limit. */
  function OnMoveUp(ctx: StrategyContext): (r: int)
    requires HasLowerLimit(ctx)
    ensures InLowerLimit(ctx) ==> r == UpperStart(ctx) + 1
    ensures !InLowerLimit(ctx) ==> r == -1
  {
    if InLowerLimit(ctx) then UpperStart(ctx) + 1 else -1
  }

  /** Down: from the upper limit to the start of the lower limit. */
  function OnMoveDown(ctx: StrategyContext): (r: int)
    requires HasLowerLimit(ctx)
    ensures InUpperLimit(ctx) ==> r == LowerStart(ctx) + 1
    ensures !InUpperLimit(ctx) ==> r == -1
  {
    if InUpperLimit(ctx) then LowerStart(ctx) + 1 else -1
  }

  /**
   * Backspace at the start of a limit: with both limits empty the whole
   * integral goes; with only the limit under the cursor empty the cursor jumps
   * to the end of the other limit and nothing is removed. Otherwise it declines.
   */
  function OnDelete(ctx: StrategyContext): (r: Option<EditLogic.EditResult>)
    requires HasLowerLimit(ctx)
    ensures LowerEnd(ctx) == -1 ==> r.None?
    ensures var lowerEmpty, upperEmpty := LowerEnd(ctx) - LowerStart(ctx) == 1, ctx.blockEnd - UpperStart(ctx) == 1;
            var atLower, atUpper := ctx.cursorIndex == LowerStart(ctx) + 1, ctx.cursorIndex == UpperStart(ctx) + 1;
            LowerEnd(ctx) != -1 ==>
              (lowerEmpty && upperEmpty && (atLower || atUpper) ==>
                 r == Some(EditLogic.DeleteRange(ctx.tokens, ctx.commandIndex, ctx.blockEnd + 1))) &&
              (atLower && lowerEmpty && !upperEmpty ==> r == Some(EditLogic.EditResult(ctx.tokens, ctx.blockEnd))) &&
              (atUpper && upperEmpty && !lowerEmpty ==> r == Some(EditLogic.EditResult(ctx.tokens, LowerEnd(ctx)))) &&
              (!(lowerEmpty && atLower) && !(upperEmpty && atUpper) ==> r.None?)
    // removing the whole integral leaves what was around it
    ensures r.Some? && |r.value.tokens| < |ctx.tokens| && 0 <= ctx.commandIndex <= ctx.blockEnd < |ctx.tokens| ==>
              r.value.tokens == ctx.tokens[..ctx.commandIndex] + ctx.tokens[ctx.blockEnd + 1..]
  {
    var lowerStart := LowerStart(ctx);
    var lowerEnd := LowerEnd(ctx);
    var upperStart := UpperStart(ctx);
    var upperEnd := ctx.blockEnd;
    if lowerStart == -1 || lowerEnd == -1 || upperStart == -1 then None
    else
      var lowerEmpty := lowerEnd - lowerStart == 1;
      var upperEmpty := upperEnd - upperStart == 1;
      var atLower := ctx.cursorIndex == lowerStart + 1;
      var atUpper := ctx.cursorIndex == upperStart + 1;
      if lowerEmpty && upperEmpty && (atLower || atUpper) then
        Some(EditLogic.EditResult(Splice.Remove(ctx.tokens, ctx.commandIndex, upperEnd - ctx.commandIndex + 1), ctx.commandIndex))
      else if atLower && lowerEmpty then Some(EditLogic.EditResult(ctx.tokens, upperEnd))
      else if atUpper && upperEmpty then Some(EditLogic.EditResult(ctx.tokens, lowerEnd))
      else None
  }

  /**
   * Dive-in: moving left enters at the end of the upper limit, moving right at
   * the start of the lower limit. The diagnostic log written first matches the
   * lower limit's bracket, hence the requirement.
   */
  function GetEntranceIndex(ctx: StrategyContext, heading: Heading): (r: int)
    requires HasLowerLimit(ctx)
    ensures heading == Left ==> r == ctx.blockEnd
    ensures heading == Right ==> r == LowerStart(ctx) + 1
  {
    match heading
    case Left => ctx.blockEnd
    case Right => LowerStart(ctx) + 1
  }

  /**
   * Break-out and hand-over: left from the lower start to before `\int`, left
   * from the upper start to the lower end; right from the upper end to after
   * the integral, right from the lower end to the upper start.
   */
  function GetExitIndex(ctx: StrategyContext, direction: int): (r: int)
    requires HasLowerLimit(ctx)
    ensures direction == -1 && ctx.cursorIndex == LowerStart(ctx) + 1 ==> r == ctx.commandIndex
    ensures direction == -1 && ctx.cursorIndex != LowerStart(ctx) + 1 && ctx.cursorIndex == UpperStart(ctx) + 1 ==> r == LowerEnd(ctx)
    ensures direction == 1 && ctx.cursorIndex == ctx.blockEnd ==> r == ctx.blockEnd + 1
    ensures direction == 1 && ctx.cursorIndex != ctx.blockEnd && ctx.cursorIndex == LowerEnd(ctx) ==> r == UpperStart(ctx) + 1
    ensures (!(direction == -1 && ctx.cursorIndex in {LowerStart(ctx) + 1, UpperStart(ctx) + 1}) &&
             !(direction == 1 && ctx.cursorIndex in {ctx.blockEnd, LowerEnd(ctx)})) ==> r == -1
  {
    var lowerStart := LowerStart(ctx);
    var lowerEnd := LowerEnd(ctx);
    var upperStart := UpperStart(ctx);
    var upperEnd := ctx.blockEnd;
    if direction == -1 && ctx.cursorIndex == lowerStart + 1 then ctx.commandIndex
    else if direction == -1 && ctx.cursorIndex == upperStart + 1 then lowerEnd
    else if direction == 1 && ctx.cursorIndex == upperEnd then upperEnd + 1
    else if direction == 1 && ctx.cursorIndex == lowerEnd then upperStart + 1
    else -1
  }

  /** `\int _ {…} ^ {…}` at the command: both limits' braces present and matched, `blockEnd` closing the upper one. */
  predicate WellFormed(ctx: StrategyContext) {
    HasLowerLimit(ctx) && 0 <= ctx.commandIndex &&
    ctx.tokens[LowerStart(ctx)].value == "{" &&
    LowerEnd(ctx) != -1 && UpperStart(ctx) < |ctx.tokens| && ctx.tokens[UpperStart(ctx)].value == "{" &&
    ctx.blockEnd == StrategyUtils.FindMatchingClose(ctx.tokens, UpperStart(ctx)) && ctx.blockEnd != -1
  }

  /** In a well-formed integral up and down swap the limits: each lands in the other one. */
  lemma UpDownSwapLimits(ctx: StrategyContext)
    requires WellFormed(ctx)
    ensures InLowerLimit(ctx) ==> InUpperLimit(At(ctx, OnMoveUp(ctx)))
    ensures InUpperLimit(ctx) ==> InLowerLimit(At(ctx, OnMoveDown(ctx)))
  {
  }

  /** Stepping right out of the lower limit and straight back left returns to its end. */
  lemma LimitHandOverRoundTrip(ctx: StrategyContext)
    requires WellFormed(ctx)
    ensures InUpperLimit(At(ctx, GetExitIndex(At(ctx, LowerEnd(ctx)), 1)))
    ensures GetExitIndex(At(ctx, GetExitIndex(At(ctx, LowerEnd(ctx)), 1)), -1) == LowerEnd(ctx)
  {
  }

  /** Diving in and immediately breaking out on the same side returns to where the cursor was. */
  lemma EntranceExitRoundTrip(ctx: StrategyContext)
    requires HasLowerLimit(ctx)
    ensures GetExitIndex(At(ctx, GetEntranceIndex(ctx, Right)), -1) == ctx.commandIndex
    ensures GetExitIndex(At(ctx, GetEntranceIndex(ctx, Left)), 1) == ctx.blockEnd + 1
  {
  }

  /** A backspace that only moves the cursor leaves it inside the other, non-empty limit. */
  lemma EmptyLimitHandsOver(ctx: StrategyContext)
    requires WellFormed(ctx)
    requires OnDelete(ctx).Some? && OnDelete(ctx).value.tokens == ctx.tokens
    ensures InLowerLimit(At(ctx, OnDelete(ctx).value.cursorIndex)) || InUpperLimit(At(ctx, OnDelete(ctx).value.cursorIndex))
  {
  }

  /**
   * `\int_{a}^{b}` with the cursor in the upper limit: the locator finds the
   * integral across the `^` marker and the lower block, and down goes to the
   * start of the lower limit.
   */
  lemma UpperLimitExample()
    ensures var ts := [Tok("\\int", Command), Tok("_", StructMarker), Tok("{", Bracket), Tok("a", Variable), Tok("}", Bracket),
                       Tok("^", StructMarker), Tok("{", Bracket), Tok("b", Variable), Tok("}", Bracket)];
            var ctx := StrategyContext(ts, 7, 0, 0, 8);
            StructureManager.FindStrategyContext(ts, 7) == Some(StructureManager.Located(StructureManager.Integral, ctx)) &&
            OnMoveDown(ctx) == 3
  {
    var ts := [Tok("\\int", Command), Tok("_", StructMarker), Tok("{", Bracket), Tok("a", Variable), Tok("}", Bracket),
               Tok("^", StructMarker), Tok("{", Bracket), Tok("b", Variable), Tok("}", Bracket)];
    assert EditLogic.FindMatchingOpenBracket(ts, 7) == 6;
    assert BracketScan.ScanRight(ts, {"{"}, {"}"}, 8, 1) == 8;
    assert StrategyUtils.FindMatchingClose(ts, 6) == 8;
    assert StructureManager.FindSurroundingScope(ts, 7) == Some(ScopeRange(6, 8));
    assert BracketScan.ScanLeft(ts, {"}"}, {"{"}, 3, 1) == 2;
    assert StrategyUtils.FindMatchingOpen(ts, 4) == 2;
    assert StructureManager.WalkLeft(ts, 1) == 0;
    assert StructureManager.WalkLeft(ts, 5) == 0;
    assert BracketScan.ScanRight(ts, {"{"}, {"}"}, 4, 1) == 4;
    assert StrategyUtils.FindMatchingClose(ts, 2) == 4;
    assert StructureManager.BlocksFrom(ts, 6, 4) == 8;
    assert StructureManager.BlocksFrom(ts, 1, 0) == 8;
  }

  /**
   * Diving left into the same integral resolves the `^` marker before the
   * upper limit to the power strategy: the registry looks at the value only.
   */
  lemma LeftNeighborOfIntegralIsPower()
    ensures var ts := [Tok("\\int", Command), Tok("_", StructMarker), Tok("{", Bracket), Tok("a", Variable), Tok("}", Bracket),
                       Tok("^", StructMarker), Tok("{", Bracket), Tok("b", Variable), Tok("}", Bracket)];
            StructureManager.FindNeighborStrategy(ts, 9, -1) ==
              Some(StructureManager.Located(StructureManager.Power, StrategyContext(ts, 9, 5, 5, 8)))
  {
    var ts := [Tok("\\int", Command), Tok("_", StructMarker), Tok("{", Bracket), Tok("a", Variable), Tok("}", Bracket),
               Tok("^", StructMarker), Tok("{", Bracket), Tok("b", Variable), Tok("}", Bracket)];
    assert BracketScan.ScanLeft(ts, {"}"}, {"{"}, 7, 1) == 6;
    assert StrategyUtils.FindMatchingOpen(ts, 8) == 6;
  }

  /**
   * The wrong strategy still enters at the same place: from just past the
   * integral, the power strategy on the context the lookup returns and the
   * integral strategy on its own context both enter at the upper limit's
   * end and both decline up and down. Only the strategy and the extent differ.
   */
  lemma PowerStandInEntersAlike()
    ensures var ts := [Tok("\\int", Command), Tok("_", StructMarker), Tok("{", Bracket), Tok("a", Variable), Tok("}", Bracket),
                       Tok("^", StructMarker), Tok("{", Bracket), Tok("b", Variable), Tok("}", Bracket)];
            var asPower, asIntegral := StrategyContext(ts, 9, 5, 5, 8), StrategyContext(ts, 9, 0, 0, 8);
            PowerStrategy.GetEntranceIndex(asPower, Left) == GetEntranceIndex(asIntegral, Left) == 8 &&
            PowerStrategy.OnMoveUp(asPower) == OnMoveUp(asIntegral) == -1 &&
            PowerStrategy.OnMoveDown(asPower) == OnMoveDown(asIntegral) == -1
  {
    var ts := [Tok("\\int", Command), Tok("_", StructMarker), Tok("{", Bracket), Tok("a", Variable), Tok("}", Bracket),
               Tok("^", StructMarker), Tok("{", Bracket), Tok("b", Variable), Tok("}", Bracket)];
    var asIntegral := StrategyContext(ts, 9, 0, 0, 8);
    assert !InLowerLimit(asIntegral) && !InUpperLimit(asIntegral);
  }

  /**
   * The corrected leftward lookup finds the integral from just past its
   * upper limit, walking back over both markers and the lower limit.
   */
  lemma LeftNeighborFindsIntegral(ctx: StrategyContext)
    requires WellFormed(ctx)
    requires ctx.tokens[ctx.commandIndex].value == "\\int" && ctx.tokens[ctx.commandIndex].kind != StructMarker
    requires ctx.tokens[ctx.commandIndex + 1].kind == StructMarker
    requires ctx.tokens[LowerEnd(ctx)].kind != StructMarker && ctx.tokens[LowerEnd(ctx) + 1].kind == StructMarker
    ensures var ts, c, d := ctx.tokens, ctx.commandIndex, ctx.blockEnd;
            StructureManager.FindLeftNeighbor(ts, d + 1) ==
              Some(StructureManager.Located(StructureManager.Integral, StrategyContext(ts, d + 1, c, c, d)))
  {
    var ts, c, l, u, d := ctx.tokens, ctx.commandIndex, LowerEnd(ctx), UpperStart(ctx), ctx.blockEnd;
    StrategyUtils.MatchRoundTrip(ts, u);
    assert StrategyUtils.FindMatchingOpen(ts, d) == u;
    StrategyUtils.MatchRoundTrip(ts, c + 2);
    assert StrategyUtils.FindMatchingOpen(ts, l) == c + 2;
    assert ts[l].value == "}";
    assert StructureManager.WalkLeft(ts, c) == c;
    assert StructureManager.WalkLeft(ts, c + 1) == c;
    assert StructureManager.WalkLeft(ts, l) == c;
    assert StructureManager.WalkLeft(ts, u - 1) == c;
  }
}
