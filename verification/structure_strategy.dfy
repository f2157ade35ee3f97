/**
 * What every structure strategy is handed: the formula, the cursor and the
 * boundaries of the structure the cursor is in or next to.
 */
module StructureStrategy {
  import opened FormulaToken

  /**
   * `commandIndex` is the position of the command token (`\frac`, `^`,
   * `\int`); `blockStart` is where the structure starts (the command) and
   * `blockEnd` the position of its last `}`.
   */
  datatype StrategyContext = StrategyContext(
    tokens: seq<Token>,
    cursorIndex: int,
    commandIndex: int,
    blockStart: int,
    blockEnd: int)

  /** The direction of travel of a dive-in: moving left enters from the right end. */
  datatype Heading = Left | Right

  /** The same context with the cursor elsewhere. */
  function At(ctx: StrategyContext, cursor: int): (c: StrategyContext)
    ensures c.cursorIndex == cursor
    ensures c.tokens == ctx.tokens && c.commandIndex == ctx.commandIndex
    ensures c.blockStart == ctx.blockStart && c.blockEnd == ctx.blockEnd
  {
    ctx.(cursorIndex := cursor)
  }
}
