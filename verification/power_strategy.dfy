/**
 * Navigation and deletion for a superscript `^{exponent}`: the command is the
 * `^` token, its `{` follows it and `blockEnd` closes the exponent.
 */
module PowerStrategy {
  import opened Wrappers
  import opened FormulaToken
  import Splice
  import EditLogic
  import opened StructureStrategy

  /** Up does nothing: the exponent is already the top level. */
  function OnMoveUp(ctx: StrategyContext): (r: int)
    ensures r == -1
  {
    -1
  }

  /** Down lands just after the exponent's `}` from anywhere up to it. */
  function OnMoveDown(ctx: StrategyContext): (r: int)
    ensures ctx.cursorIndex <= ctx.blockEnd ==> r == ctx.blockEnd + 1 && r > ctx.cursorIndex
    ensures ctx.cursorIndex > ctx.blockEnd ==> r == -1
  {
    if ctx.cursorIndex <= ctx.blockEnd then ctx.blockEnd + 1 else -1
  }

  /**
   * Backspace at the start of the exponent: a copy without the `^`, its `{`
   * and its `}`, the cursor where the `^` was. Anywhere else it declines.
   */
  function OnDelete(ctx: StrategyContext): (r: Option<EditLogic.EditResult>)
    ensures r.Some? <==> ctx.cursorIndex == ctx.commandIndex + 2
    ensures r.Some? ==> r.value.cursorIndex == ctx.commandIndex && |r.value.tokens| <= |ctx.tokens|
    ensures r.Some? && 0 <= ctx.commandIndex && ctx.commandIndex + 1 < ctx.blockEnd < |ctx.tokens| ==>
              var ts, c, e := ctx.tokens, ctx.commandIndex, ctx.blockEnd;
              r.value.tokens == ts[..c] + ts[c + 2..e] + ts[e + 1..]
  {
    if ctx.cursorIndex == ctx.commandIndex + 2 then
      Some(EditLogic.EditResult(RemovePower(ctx.tokens, ctx.commandIndex, ctx.blockEnd), ctx.commandIndex))
    else None
  }

  /** The three splices of the deletion, last position first: `}` at `e`, `{` at `c + 1`, `^` at `c`. */
  function RemovePower(ts: seq<Token>, c: int, e: int): (r: seq<Token>)
    ensures |r| <= |ts|
    ensures 0 <= c && c + 1 < e < |ts| ==> r == ts[..c] + ts[c + 2..e] + ts[e + 1..]
  {
    if 0 <= c && c + 1 < e < |ts| then
      Splice.RemoveOneThenPair(ts, c, e);
      Splice.RemoveEach(ts, [e, c + 1, c])
    else
      Splice.RemoveEach(ts, [e, c + 1, c])
  }

  /** Dive-in: moving left enters at the end of the exponent, moving right at its start. */
  function GetEntranceIndex(ctx: StrategyContext, heading: Heading): (r: int)
    ensures heading == Left ==> r == ctx.blockEnd
    ensures heading == Right ==> r == ctx.commandIndex + 2
  {
    match heading
    case Left => ctx.blockEnd
    case Right => ctx.commandIndex + 2
  }

  /** Break-out: left from the exponent's start to before the `^`, right from its end to after the `}`. */
  function GetExitIndex(ctx: StrategyContext, direction: int): (r: int)
    ensures direction == -1 && ctx.cursorIndex == ctx.commandIndex + 2 ==> r == ctx.commandIndex
    ensures direction == 1 && ctx.cursorIndex == ctx.blockEnd ==> r == ctx.blockEnd + 1
    ensures (!(direction == -1 && ctx.cursorIndex == ctx.commandIndex + 2) &&
             !(direction == 1 && ctx.cursorIndex == ctx.blockEnd)) ==> r == -1
  {
    if direction == -1 && ctx.cursorIndex == ctx.commandIndex + 2 then ctx.commandIndex
    else if direction == 1 && ctx.cursorIndex == ctx.blockEnd then ctx.blockEnd + 1
    else -1
  }

  /** Once below the exponent, down has nothing more to do. */
  lemma DownLeavesExponent(ctx: StrategyContext)
    requires ctx.cursorIndex <= ctx.blockEnd
    ensures OnMoveDown(At(ctx, OnMoveDown(ctx))) == -1
  {
  }

  /** Diving in and immediately breaking out on the same side returns to where the cursor was. */
  lemma EntranceExitRoundTrip(ctx: StrategyContext)
    ensures GetExitIndex(At(ctx, GetEntranceIndex(ctx, Right)), -1) == ctx.commandIndex
    ensures GetExitIndex(At(ctx, GetEntranceIndex(ctx, Left)), 1) == ctx.blockEnd + 1
  {
  }

  /**
   * The strategy's delete and the editor's backspace agree: at the start of an
   * exponent whose `^` is an operator or command, both unwrap it.
   */
  lemma OnDeleteAgreesWithBackspace(ctx: StrategyContext)
    requires 0 <= ctx.commandIndex && ctx.commandIndex + 1 < |ctx.tokens|
    requires ctx.tokens[ctx.commandIndex].value == "^" && ctx.tokens[ctx.commandIndex].kind in {Operator, Command}
    requires ctx.tokens[ctx.commandIndex + 1].value == "{"
    requires ctx.blockEnd == EditLogic.FindMatchingCloseBracket(ctx.tokens, ctx.commandIndex + 1) && ctx.blockEnd != -1
    requires ctx.cursorIndex == ctx.commandIndex + 2
    ensures OnDelete(ctx) == Some(EditLogic.Backspace(ctx.tokens, ctx.cursorIndex))
  {
    BackspaceUnwrapsPower(ctx.tokens, ctx.commandIndex, ctx.blockEnd);
  }

  /** The editor's backspace at the start of an exponent makes the same three splices. */
  lemma BackspaceUnwrapsPower(ts: seq<Token>, c: int, e: int)
    requires 0 <= c && c + 1 < |ts| && ts[c].value == "^" && ts[c].kind in {Operator, Command}
    requires ts[c + 1].value == "{"
    requires e == EditLogic.FindMatchingCloseBracket(ts, c + 1) && e != -1
    ensures EditLogic.Backspace(ts, c + 2) == EditLogic.EditResult(RemovePower(ts, c, e), c)
  {
    PowerBlockIsUnwrap(ts, c);
    UnwrapIsRemovePower(ts, c, e);
  }

  /** The editor classifies the `{` after a `^` as a block to unwrap. */
  lemma PowerBlockIsUnwrap(ts: seq<Token>, c: int)
    requires 0 <= c && c + 1 < |ts| && ts[c].value == "^" && ts[c].kind in {Operator, Command}
    requires ts[c + 1].value == "{"
    ensures EditLogic.Backspace(ts, c + 2) == EditLogic.UnwrapBlock(ts, c + 1)
  {
    assert EditLogic.Classify(ts, c + 1) == EditLogic.Unwrap;
  }

  /** Unwrapping the exponent block makes the strategy's three splices. */
  lemma UnwrapIsRemovePower(ts: seq<Token>, c: int, e: int)
    requires 0 <= c && c + 1 < |ts|
    requires e == EditLogic.FindMatchingCloseBracket(ts, c + 1) && e != -1
    ensures EditLogic.UnwrapBlock(ts, c + 1) == EditLogic.EditResult(RemovePower(ts, c, e), c)
  {
    var removed := Splice.RemoveEach(ts, [e, c + 1, c]);
    assert EditLogic.UnwrapAt(ts, c + 1, e) == removed;
    assert RemovePower(ts, c, e) == removed;
  }
}
