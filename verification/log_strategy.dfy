/**
 * Navigation and deletion for a logarithm with an explicit base,
 * `\log _ {base}` optionally followed by a parenthesised argument. The
 * strategy is written with the id `log` but never registered, so the locator
 * never hands a context to it; it is modelled on its own.
 */
module LogStrategy {
  import opened Wrappers
  import opened FormulaToken
  import Splice
  import EditLogic
  import opened StructureStrategy

  const Id := "log"

  /**
   * The first position of the base, just after `\log _ {`, or -1 when the
   * command is not followed by a subscript marker and a `{`.
   */
  function BaseContentStart(ctx: StrategyContext): (r: int)
    requires ctx.commandIndex + 2 < |ctx.tokens| ==> 0 <= ctx.commandIndex + 1
    ensures r == ctx.commandIndex + 3 <==>
              ctx.commandIndex + 2 < |ctx.tokens| &&
              (ctx.tokens[ctx.commandIndex + 1].value == "_" || ctx.tokens[ctx.commandIndex + 1].kind == StructMarker) &&
              ctx.tokens[ctx.commandIndex + 2].value == "{"
    ensures r != ctx.commandIndex + 3 ==> r == -1
  {
    var c := ctx.commandIndex;
    var ts := ctx.tokens;
    if c + 2 < |ts| && (ts[c + 1].value == "_" || ts[c + 1].kind == StructMarker) && ts[c + 2].value == "{" then c + 3
    else -1
  }

  /** Dive-in: moving left enters at the end of the base, moving right at its start. */
  function GetEntranceIndex(ctx: StrategyContext, heading: Heading): (r: int)
    requires heading == Right && ctx.commandIndex + 2 < |ctx.tokens| ==> 0 <= ctx.commandIndex + 1
    ensures heading == Left ==> r == ctx.blockEnd
    ensures heading == Right ==> r == BaseContentStart(ctx)
  {
    match heading
    case Left => ctx.blockEnd
    case Right => BaseContentStart(ctx)
  }

  /**
   * Break-out: left from the start of the base to before `\log`; right from
   * the end of the base past its `}`, and on into an argument's `(` when one
   * follows.
   */
  function GetExitIndex(ctx: StrategyContext, direction: int): (r: int)
    requires direction == -1 && ctx.commandIndex + 2 < |ctx.tokens| ==> 0 <= ctx.commandIndex + 1
    requires direction == 1 && ctx.cursorIndex == ctx.blockEnd && ctx.blockEnd + 1 < |ctx.tokens| ==> 0 <= ctx.blockEnd + 1
    ensures direction == -1 && ctx.cursorIndex == BaseContentStart(ctx) ==> r == ctx.commandIndex
    ensures direction == -1 && ctx.cursorIndex != BaseContentStart(ctx) ==> r == -1
    ensures direction == 1 && ctx.cursorIndex == ctx.blockEnd ==>
              if ctx.blockEnd + 1 < |ctx.tokens| && ctx.tokens[ctx.blockEnd + 1].value == "(" then r == ctx.blockEnd + 2
              else r == ctx.blockEnd + 1
    ensures direction == 1 && ctx.cursorIndex != ctx.blockEnd ==> r == -1
    ensures direction !in {-1, 1} ==> r == -1
  {
    if direction == -1 && ctx.cursorIndex == BaseContentStart(ctx) then ctx.commandIndex
    else if direction == 1 && ctx.cursorIndex == ctx.blockEnd then
      var next := ctx.blockEnd + 1;
      if next < |ctx.tokens| && ctx.tokens[next].value == "(" then next + 1
      else ctx.blockEnd + 1
    else -1
  }

  /** A logarithm has no vertical slots: up declines. */
  function OnMoveUp(ctx: StrategyContext): (r: int)
    ensures r == -1
  {
    -1
  }

  /** Down declines too. */
  function OnMoveDown(ctx: StrategyContext): (r: int)
    ensures r == -1
  {
    -1
  }

  /**
   * Backspace in an empty base removes the whole `\log _ {}` and leaves the
   * cursor where the command was; anything else declines.
   */
  function OnDelete(ctx: StrategyContext): (r: Option<EditLogic.EditResult>)
    requires ctx.commandIndex + 2 < |ctx.tokens| ==> 0 <= ctx.commandIndex + 1
    ensures r.Some? <==> BaseContentStart(ctx) != -1 && ctx.cursorIndex == BaseContentStart(ctx) == ctx.blockEnd
    ensures r.Some? ==> r.value == EditLogic.DeleteRange(ctx.tokens, ctx.commandIndex, ctx.blockEnd + 1)
    ensures r.Some? && 0 <= ctx.commandIndex && ctx.blockEnd < |ctx.tokens| ==>
              r.value.tokens == ctx.tokens[..ctx.commandIndex] + ctx.tokens[ctx.commandIndex + 4..] &&
              r.value.cursorIndex == ctx.commandIndex
  {
    var baseStart := BaseContentStart(ctx);
    if baseStart == -1 then None
    else if ctx.cursorIndex == baseStart && ctx.blockEnd - baseStart == 0 then
      var newTokens := Splice.Remove(ctx.tokens, ctx.commandIndex, ctx.blockEnd - ctx.commandIndex + 1);
      Some(EditLogic.EditResult(newTokens, ctx.commandIndex))
    else None
  }

  /** Diving in and breaking out on the same side returns to the command, or past the base. */
  lemma EntranceExitRoundTrip(ctx: StrategyContext)
    requires 0 <= ctx.commandIndex && BaseContentStart(ctx) != -1
    requires ctx.blockEnd + 1 < |ctx.tokens| ==> 0 <= ctx.blockEnd + 1
    ensures GetExitIndex(At(ctx, GetEntranceIndex(ctx, Right)), -1) == ctx.commandIndex
    ensures GetExitIndex(At(ctx, GetEntranceIndex(ctx, Left)), 1) in {ctx.blockEnd + 1, ctx.blockEnd + 2}
  {
  }

  /** `\log_{2}(x)`: breaking out right at the end of the base lands inside the parenthesis. */
  lemma ExitIntoArgumentExample()
    ensures var ts := [Tok("\\log", Command), Tok("_", StructMarker), Tok("{", Bracket), Tok("2", Number), Tok("}", Bracket),
                       Tok("(", Bracket), Tok("x", Variable), Tok(")", Bracket)];
            GetExitIndex(StrategyContext(ts, 4, 0, 0, 4), 1) == 6 &&
            GetExitIndex(StrategyContext(ts, 3, 0, 0, 4), -1) == 0
  {
  }
}
