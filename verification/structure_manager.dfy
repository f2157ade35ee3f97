/**
 * The structure locator: the registry of strategies, the scope around the
 * cursor, the extent of a command's argument blocks, and the lookup of the
 * structure the cursor is inside of or next to.
 */
module StructureManager {
  import opened Wrappers
  import opened FormulaToken
  import opened BracketScan
  import StrategyUtils
  import EditLogic
  import opened StructureStrategy

  /** The registered structures. */
  datatype Kind = Fraction | Power | Integral

  /** The command token that names a structure. */
  function Id(k: Kind): string {
    match k
    case Fraction => Frac
    case Power => "^"
    case Integral => "\\int"
  }

  /** The registry, by token value alone. */
  function Lookup(value: string): (k: Option<Kind>)
    ensures k.Some? <==> value in {Frac, "^", "\\int"}
    ensures k.Some? ==> Id(k.value) == value
  {
    if value == Frac then Some(Fraction)
    else if value == "^" then Some(Power)
    else if value == "\\int" then Some(Integral)
    else None
  }

  /** Every registered structure is found under its own name. */
  lemma LookupFindsEveryKind(k: Kind)
    ensures Lookup(Id(k)) == Some(k)
  {
  }

  /** A strategy together with the context it is to work in. */
  datatype Located = Located(kind: Kind, context: StrategyContext)

  /**
   * The `{…}` that most closely surrounds the cursor: the nearest unclosed `{`
   * on its left and that brace's partner.
   */
  function FindSurroundingScope(ts: seq<Token>, cursorIndex: int): (r: Option<ScopeRange>)
    requires cursorIndex <= |ts|
    ensures r.Some? ==> r.value.start == EditLogic.FindMatchingOpenBracket(ts, cursorIndex)
    ensures r.Some? ==> 0 <= r.value.start < cursorIndex <= r.value.end < |ts| &&
                        ts[r.value.start].value == "{" && ts[r.value.end].value == "}" &&
                        StrategyUtils.FindMatchingClose(ts, r.value.start) == r.value.end
    // the source's "cursor past the match" check can never fire
    ensures r.None? <==> EditLogic.FindMatchingOpenBracket(ts, cursorIndex) == -1 ||
                         StrategyUtils.FindMatchingClose(ts, EditLogic.FindMatchingOpenBracket(ts, cursorIndex)) == -1
  {
    var start := EditLogic.FindMatchingOpenBracket(ts, cursorIndex);
    if start == -1 then None
    else
      var end := StrategyUtils.FindMatchingClose(ts, start);
      ScopeEndNotBeforeCursor(ts, start, cursorIndex);
      if end == -1 || cursorIndex > end then None
      else Some(ScopeRange(start, end))
  }

  /**
   * The partner of the nearest unclosed `{` left of `hi` lies at or after
   * `hi`: the brace is unclosed within [start, hi), so it cannot close there.
   */
  lemma ScopeEndNotBeforeCursor(ts: seq<Token>, start: int, hi: int)
    requires 0 <= start < hi <= |ts| && ts[start].value == "{"
    requires 1 + Net(ts, {"}"}, {"{"}, start, hi) == 0
    requires forall j :: start < j <= hi ==> 1 + Net(ts, {"}"}, {"{"}, j, hi) > 0
    ensures StrategyUtils.FindMatchingClose(ts, start) == -1 || StrategyUtils.FindMatchingClose(ts, start) >= hi
  {
    var e := StrategyUtils.FindMatchingClose(ts, start);
    if e != -1 && e < hi {
      assert StrategyUtils.MatchingPair(ts[start].value) == Some("}");
      assert 1 + Net(ts, {"{"}, {"}"}, start + 1, e + 1) == 0 by {
        assert StrategyUtils.DepthRight(ts, start, e + 1) == 0;
      }
      NetSwap(ts, {"{"}, {"}"}, start + 1, e + 1);
      NetSplit(ts, {"}"}, {"{"}, start + 1, e + 1, hi);
      assert false;
    }
  }

  /** The first position at or after `i` that is not a structural marker. */
  function NextNonMarker(ts: seq<Token>, i: int): (k: int)
    requires 0 <= i <= |ts|
    ensures i <= k <= |ts|
    ensures forall j :: i <= j < k ==> ts[j].kind == StructMarker
    ensures k < |ts| ==> ts[k].kind != StructMarker
    decreases |ts| - i
  {
    if i < |ts| && ts[i].kind == StructMarker then NextNonMarker(ts, i + 1) else i
  }

  /**
   * Walks the argument blocks from `curr` on: structural markers are stepped
   * over, each `{…}` is jumped, anything else ends the walk. The result is
   * the `}` of the last block jumped, or `lastEnd` when there was none.
   */
  function BlocksFrom(ts: seq<Token>, curr: int, lastEnd: int): (r: int)
    requires 0 <= curr && lastEnd < curr
    ensures r == lastEnd || (curr <= r < |ts| && ts[r].value == "}")
    decreases |ts| - curr
  {
    if curr >= |ts| then lastEnd
    else if ts[curr].kind == StructMarker then BlocksFrom(ts, curr + 1, lastEnd)
    else if ts[curr].value == "{" then
      var end := StrategyUtils.FindMatchingClose(ts, curr);
      if end == -1 then lastEnd else BlocksFrom(ts, end + 1, end)
    else lastEnd
  }

  /** A result other than `lastEnd` is the `}` closing some `{` the walk jumped. */
  lemma {:induction false} BlocksFromWitness(ts: seq<Token>, curr: int, lastEnd: int)
    requires 0 <= curr && lastEnd < curr
    ensures var r := BlocksFrom(ts, curr, lastEnd);
            r != lastEnd ==> exists o :: curr <= o < r && StrategyUtils.FindMatchingClose(ts, o) == r && ts[o].value == "{"
    decreases |ts| - curr
  {
    if curr < |ts| {
      if ts[curr].kind == StructMarker {
        BlocksFromWitness(ts, curr + 1, lastEnd);
      } else if ts[curr].value == "{" {
        JumpWitness(ts, curr, lastEnd);
      }
    }
  }

  /** The witness for a walk that jumps the block opened at `curr`. */
  lemma {:induction false} JumpWitness(ts: seq<Token>, curr: int, lastEnd: int)
    requires 0 <= curr < |ts| && lastEnd < curr
    requires ts[curr].kind != StructMarker && ts[curr].value == "{"
    ensures var r := BlocksFrom(ts, curr, lastEnd);
            r != lastEnd ==> exists o :: curr <= o < r && StrategyUtils.FindMatchingClose(ts, o) == r && ts[o].value == "{"
    decreases |ts| - curr, 0
  {
    var end := StrategyUtils.FindMatchingClose(ts, curr);
    if end != -1 {
      BlocksStepTo(ts, curr, lastEnd, end);
      var r := BlocksFrom(ts, end + 1, end);
      if r == end {
        assert curr < r && StrategyUtils.FindMatchingClose(ts, curr) == r;
      } else {
        BlocksFromWitness(ts, end + 1, end);
      }
    }
  }

  /**
   * The first non-marker token decides: anything but `{` ends the walk with
   * `lastEnd`; a `{` that closes puts the result at or beyond its `}`.
   */
  lemma {:induction false} BlocksFromFirst(ts: seq<Token>, curr: int, lastEnd: int)
    requires 0 <= curr <= |ts| && lastEnd < curr
    ensures var r, k := BlocksFrom(ts, curr, lastEnd), NextNonMarker(ts, curr);
            (k == |ts| || ts[k].value != "{" ==> r == lastEnd) &&
            (k < |ts| && ts[k].value == "{" && StrategyUtils.FindMatchingClose(ts, k) != -1 ==>
               r >= StrategyUtils.FindMatchingClose(ts, k))
    decreases |ts| - curr
  {
    if curr < |ts| {
      if ts[curr].kind == StructMarker {
        BlocksFromFirst(ts, curr + 1, lastEnd);
      } else if ts[curr].value == "{" {
        var end := StrategyUtils.FindMatchingClose(ts, curr);
        if end != -1 {
          BlocksStepTo(ts, curr, lastEnd, end);
        }
      }
    }
  }

  /** No closed block opens at `k`: the end of the tokens, another token, or a `{` left open. */
  predicate NoBlockAt(ts: seq<Token>, k: int)
    requires 0 <= k <= |ts|
  {
    k == |ts| || ts[k].value != "{" || StrategyUtils.FindMatchingClose(ts, k) == -1
  }

  /**
   * The walk from `curr` went as far as it could: after the markers that
   * follow its result (or that follow `curr`, when it jumped nothing) no
   * closed block opens.
   */
  predicate WalkIsMaximal(ts: seq<Token>, curr: int, lastEnd: int)
    requires 0 <= curr <= |ts| && lastEnd < curr
  {
    var r := BlocksFrom(ts, curr, lastEnd);
    (r == lastEnd ==> NoBlockAt(ts, NextNonMarker(ts, curr))) &&
    (r != lastEnd ==> r + 1 <= |ts| && NoBlockAt(ts, NextNonMarker(ts, r + 1)))
  }

  lemma {:induction false} BlocksFromLast(ts: seq<Token>, curr: int, lastEnd: int)
    requires 0 <= curr <= |ts| && lastEnd < curr
    ensures WalkIsMaximal(ts, curr, lastEnd)
    decreases |ts| - curr
  {
    if curr < |ts| && ts[curr].kind == StructMarker {
      BlocksFromLast(ts, curr + 1, lastEnd);
      MaximalOverMarker(ts, curr, lastEnd);
    } else if curr < |ts| && ts[curr].value == "{" && StrategyUtils.FindMatchingClose(ts, curr) != -1 {
      var end := StrategyUtils.FindMatchingClose(ts, curr);
      BlocksFromLast(ts, end + 1, end);
      MaximalOverBlock(ts, curr, lastEnd, end);
    } else {
      MaximalAtStop(ts, curr, lastEnd);
    }
  }

  /** A walk that cannot take its first step is maximal. */
  lemma MaximalAtStop(ts: seq<Token>, curr: int, lastEnd: int)
    requires 0 <= curr <= |ts| && lastEnd < curr
    requires curr < |ts| ==> ts[curr].kind != StructMarker && NoBlockAt(ts, curr)
    ensures WalkIsMaximal(ts, curr, lastEnd)
  {
    assert NextNonMarker(ts, curr) == curr;
    assert BlocksFrom(ts, curr, lastEnd) == lastEnd;
  }

  /** Stepping over a marker keeps the walk maximal. */
  lemma MaximalOverMarker(ts: seq<Token>, curr: int, lastEnd: int)
    requires 0 <= curr < |ts| && lastEnd < curr && ts[curr].kind == StructMarker
    requires WalkIsMaximal(ts, curr + 1, lastEnd)
    ensures WalkIsMaximal(ts, curr, lastEnd)
  {
    assert NextNonMarker(ts, curr) == NextNonMarker(ts, curr + 1);
    assert BlocksFrom(ts, curr, lastEnd) == BlocksFrom(ts, curr + 1, lastEnd);
  }

  /** Jumping a closed block keeps the walk maximal. */
  lemma MaximalOverBlock(ts: seq<Token>, curr: int, lastEnd: int, end: int)
    requires 0 <= curr < |ts| && lastEnd < curr
    requires ts[curr].kind != StructMarker && ts[curr].value == "{"
    requires end == StrategyUtils.FindMatchingClose(ts, curr) && end != -1
    requires WalkIsMaximal(ts, end + 1, end)
    ensures WalkIsMaximal(ts, curr, lastEnd)
  {
    BlocksStepTo(ts, curr, lastEnd, end);
    var r := BlocksFrom(ts, end + 1, end);
    assert BlocksFrom(ts, curr, lastEnd) == r;
    if r == end {
      assert NoBlockAt(ts, NextNonMarker(ts, end + 1));
    }
  }

  /** A `{…}` block that closes is jumped. */
  lemma {:induction false} BlocksStep(ts: seq<Token>, curr: int, lastEnd: int)
    requires 0 <= curr < |ts| && lastEnd < curr
    requires ts[curr].kind != StructMarker && ts[curr].value == "{" && StrategyUtils.FindMatchingClose(ts, curr) != -1
    ensures BlocksFrom(ts, curr, lastEnd) == BlocksFrom(ts, StrategyUtils.FindMatchingClose(ts, curr) + 1, StrategyUtils.FindMatchingClose(ts, curr))
  {
  }

  /** The same step, with the block's `}` at `end`. */
  lemma {:induction false} BlocksStepTo(ts: seq<Token>, curr: int, lastEnd: int, end: int)
    requires 0 <= curr < |ts| && lastEnd < curr
    requires ts[curr].kind != StructMarker && ts[curr].value == "{"
    requires end == StrategyUtils.FindMatchingClose(ts, curr) && end != -1
    ensures 0 <= end + 1 && BlocksFrom(ts, curr, lastEnd) == BlocksFrom(ts, end + 1, end)
  {
    BlocksStep(ts, curr, lastEnd);
    assert StrategyUtils.FindMatchingClose(ts, curr) == end;
  }

  /** The walk ends at the end of the tokens or at anything but a marker or `{`. */
  lemma {:induction false} BlocksStop(ts: seq<Token>, curr: int, lastEnd: int)
    requires 0 <= curr && lastEnd < curr
    requires curr < |ts| ==> ts[curr].kind != StructMarker && ts[curr].value != "{"
    ensures BlocksFrom(ts, curr, lastEnd) == lastEnd
  {
  }

  /**
   * A command followed by exactly two blocks, the first `{` at `c + 1` closing
   * at `n`, the second `{` at `n + 1` closing at `d`: its extent ends at `d`.
   */
  lemma {:induction false} TwoBlocks(ts: seq<Token>, c: int, n: int, d: int)
    requires 0 <= c && c + 1 < |ts| && ts[c + 1].kind != StructMarker && ts[c + 1].value == "{"
    requires n == StrategyUtils.FindMatchingClose(ts, c + 1) && n != -1 && n + 1 < |ts|
    requires ts[n + 1].kind != StructMarker && ts[n + 1].value == "{"
    requires d == StrategyUtils.FindMatchingClose(ts, n + 1) && d != -1
    requires d + 1 < |ts| ==> ts[d + 1].kind != StructMarker && ts[d + 1].value != "{"
    ensures ScanBlockEnd(ts, c) == d
  {
    FirstBlock(ts, c, n);
    LastBlock(ts, n, d);
  }

  /** The `{` right after the command closing at `n`: the extent is where the walk from `n + 1` ends. */
  lemma {:induction false} FirstBlock(ts: seq<Token>, c: int, n: int)
    requires 0 <= c && c + 1 < |ts| && ts[c + 1].kind != StructMarker && ts[c + 1].value == "{"
    requires n == StrategyUtils.FindMatchingClose(ts, c + 1) && n != -1
    ensures 0 <= n
    ensures ScanBlockEnd(ts, c) == BlocksFrom(ts, n + 1, n)
  {
    BlocksStepTo(ts, c + 1, c, n);
  }

  /** A `{` at `n + 1` closing at `d`, followed by no further block: the walk from it ends at `d`. */
  lemma {:induction false} LastBlock(ts: seq<Token>, n: int, d: int)
    requires 0 <= n && n + 1 < |ts| && ts[n + 1].kind != StructMarker && ts[n + 1].value == "{"
    requires d == StrategyUtils.FindMatchingClose(ts, n + 1) && d != -1
    requires d + 1 < |ts| ==> ts[d + 1].kind != StructMarker && ts[d + 1].value != "{"
    ensures BlocksFrom(ts, n + 1, n) == d
  {
    BlocksStepTo(ts, n + 1, n, d);
    BlocksStop(ts, d + 1, d);
  }

  /**
   * `ts[i..r + 1]` is a run of structural markers and closed `{…}` blocks,
   * the last block closing at `r`.
   */
  predicate AdjacentRun(ts: seq<Token>, i: int, r: int)
    requires 0 <= i
    decreases r - i
  {
    i <= r < |ts| &&
    if ts[i].kind == StructMarker then AdjacentRun(ts, i + 1, r)
    else
      ts[i].value == "{" &&
      var e := StrategyUtils.FindMatchingClose(ts, i);
      e != -1 && (e == r || AdjacentRun(ts, e + 1, r))
  }

  /** What the walk jumps is an adjacent run ending at its result. */
  lemma {:induction false} BlocksFromAdjacent(ts: seq<Token>, curr: int, lastEnd: int)
    requires 0 <= curr && lastEnd < curr
    ensures var r := BlocksFrom(ts, curr, lastEnd);
            r == lastEnd || AdjacentRun(ts, curr, r)
    decreases |ts| - curr
  {
    if curr < |ts| && ts[curr].kind == StructMarker {
      BlocksFromAdjacent(ts, curr + 1, lastEnd);
      assert BlocksFrom(ts, curr, lastEnd) == BlocksFrom(ts, curr + 1, lastEnd);
    } else if curr < |ts| && ts[curr].value == "{" && StrategyUtils.FindMatchingClose(ts, curr) != -1 {
      var end := StrategyUtils.FindMatchingClose(ts, curr);
      BlocksStepTo(ts, curr, lastEnd, end);
      BlocksFromAdjacent(ts, end + 1, end);
    } else {
      assert BlocksFrom(ts, curr, lastEnd) == lastEnd;
    }
  }

  /** With no closed block after the markers at `k`, the walk from `k` jumps nothing. */
  lemma {:induction false} BlocksFromNone(ts: seq<Token>, k: int, lastEnd: int)
    requires 0 <= k <= |ts| && lastEnd < k
    requires NoBlockAt(ts, NextNonMarker(ts, k))
    ensures BlocksFrom(ts, k, lastEnd) == lastEnd
    decreases |ts| - k
  {
    if k < |ts| && ts[k].kind == StructMarker {
      BlocksFromNone(ts, k + 1, lastEnd);
      assert BlocksFrom(ts, k, lastEnd) == BlocksFrom(ts, k + 1, lastEnd);
    } else {
      assert NextNonMarker(ts, k) == k;
    }
  }

  /** An adjacent run that no closed block follows is exactly what the walk jumps. */
  lemma {:induction false} AdjacentRunIsWalk(ts: seq<Token>, i: int, p: int, lastEnd: int)
    requires 0 <= i && lastEnd < i
    requires AdjacentRun(ts, i, p)
    requires NoBlockAt(ts, NextNonMarker(ts, p + 1))
    ensures BlocksFrom(ts, i, lastEnd) == p
    decreases p - i
  {
    if ts[i].kind == StructMarker {
      AdjacentRunIsWalk(ts, i + 1, p, lastEnd);
      assert BlocksFrom(ts, i, lastEnd) == BlocksFrom(ts, i + 1, lastEnd);
    } else {
      var e := StrategyUtils.FindMatchingClose(ts, i);
      assert ts[i].value == "{" && e != -1 && (e == p || AdjacentRun(ts, e + 1, p));
      BlocksStepTo(ts, i, lastEnd, e);
      if e == p {
        BlocksFromNone(ts, p + 1, p);
        assert BlocksFrom(ts, e + 1, e) == p;
      } else {
        AdjacentRunIsWalk(ts, e + 1, p, e);
        assert BlocksFrom(ts, e + 1, e) == p;
      }
    }
  }

  /**
   * The extent is determined by adjacency and maximality: `p` is the result
   * exactly when the run from the command to `p` is adjacent and no closed
   * block follows the markers after `p`.
   */
  lemma ScanBlockEndCharacterised(ts: seq<Token>, commandIndex: int, p: int)
    requires -1 <= commandIndex <= p < |ts|
    ensures ScanBlockEnd(ts, commandIndex) == p <==>
              (p == commandIndex || AdjacentRun(ts, commandIndex + 1, p)) && NoBlockAt(ts, NextNonMarker(ts, p + 1))
  {
    if (p == commandIndex || AdjacentRun(ts, commandIndex + 1, p)) && NoBlockAt(ts, NextNonMarker(ts, p + 1)) {
      ScanBlockEndFromRun(ts, commandIndex, p);
    }
  }

  /** An adjacent run after the command that no closed block follows ends at the extent. */
  lemma ScanBlockEndFromRun(ts: seq<Token>, commandIndex: int, p: int)
    requires -1 <= commandIndex <= p < |ts|
    requires p == commandIndex || AdjacentRun(ts, commandIndex + 1, p)
    requires NoBlockAt(ts, NextNonMarker(ts, p + 1))
    ensures ScanBlockEnd(ts, commandIndex) == p
  {
    if p == commandIndex {
      BlocksFromNone(ts, commandIndex + 1, commandIndex);
    } else {
      AdjacentRunIsWalk(ts, commandIndex + 1, p, commandIndex);
    }
  }

  /**
   * The last `}` of the command at `commandIndex`, or `commandIndex` itself
   * when no block follows it: the end of the run of markers and closed
   * blocks right after the command, after which no closed block opens.
   * `ScanBlockEndCharacterised` shows that this pins the result down.
   */
  function ScanBlockEnd(ts: seq<Token>, commandIndex: int): (r: int)
    requires commandIndex >= -1
    ensures r == commandIndex || (commandIndex < r < |ts| && ts[r].value == "}")
    // only markers and closed blocks lie between the command and the result
    ensures r == commandIndex || AdjacentRun(ts, commandIndex + 1, r)
    // and none of them follows it
    ensures commandIndex < |ts| ==> r + 1 <= |ts| && NoBlockAt(ts, NextNonMarker(ts, r + 1))
  {
    BlocksFromAdjacent(ts, commandIndex + 1, commandIndex);
    if commandIndex < |ts| then
      BlocksFromLast(ts, commandIndex + 1, commandIndex);
      BlocksFrom(ts, commandIndex + 1, commandIndex)
    else
      BlocksFrom(ts, commandIndex + 1, commandIndex)
  }

  /**
   * The extent of a command: with no `{` after the markers that follow it,
   * the command itself; otherwise at least the `}` closing that first block,
   * and always the `}` of some block jumped.
   */
  lemma ScanBlockEndExtent(ts: seq<Token>, commandIndex: int)
    requires commandIndex >= -1
    ensures var r := ScanBlockEnd(ts, commandIndex);
            r != commandIndex ==>
              exists o :: commandIndex < o < r && StrategyUtils.FindMatchingClose(ts, o) == r && ts[o].value == "{"
    ensures commandIndex + 1 <= |ts| ==>
              var r, k := ScanBlockEnd(ts, commandIndex), NextNonMarker(ts, commandIndex + 1);
              (k == |ts| || ts[k].value != "{" ==> r == commandIndex) &&
              (k < |ts| && ts[k].value == "{" && StrategyUtils.FindMatchingClose(ts, k) != -1 ==>
                 r >= StrategyUtils.FindMatchingClose(ts, k))
  {
    BlocksFromWitness(ts, commandIndex + 1, commandIndex);
    if commandIndex + 1 <= |ts| {
      BlocksFromFirst(ts, commandIndex + 1, commandIndex);
    }
  }

  /**
   * The leftward walk from just before a scope: structural markers are
   * skipped, and so is every sibling `{…}` whose `{` is not the first token.
   * It stops at the first other token, or at -1.
   */
  function WalkLeft(ts: seq<Token>, curr: int): (r: int)
    requires -1 <= curr < |ts|
    ensures -1 <= r <= curr
    ensures r >= 0 ==> ts[r].kind != StructMarker && (ts[r].value != "}" || StrategyUtils.FindMatchingOpen(ts, r) <= 0)
    decreases curr + 1
  {
    if curr < 0 then curr
    else if ts[curr].kind == StructMarker then WalkLeft(ts, curr - 1)
    else if ts[curr].value == "}" && StrategyUtils.FindMatchingOpen(ts, curr) > 0 then
      WalkLeft(ts, StrategyUtils.FindMatchingOpen(ts, curr) - 1)
    else curr
  }

  /** The structure whose argument the cursor is in, found from the scope around it. */
  function FindStrategyContext(ts: seq<Token>, index: int): (r: Option<Located>)
    requires index <= |ts|
    ensures FindSurroundingScope(ts, index).None? ==> r.None?
    ensures r.Some? ==>
              var scope := FindSurroundingScope(ts, index);
              var ctx := r.value.context;
              scope.Some? && 0 <= ctx.commandIndex < scope.value.start &&
              Id(r.value.kind) == ts[ctx.commandIndex].value &&
              ctx.tokens == ts && ctx.cursorIndex == index && ctx.blockStart == ctx.commandIndex &&
              ctx.blockEnd == ScanBlockEnd(ts, ctx.commandIndex) &&
              ctx.commandIndex == WalkLeft(ts, scope.value.start - 1)
    ensures (FindSurroundingScope(ts, index).Some? && FindSurroundingScope(ts, index).value.start > 0 &&
             WalkLeft(ts, FindSurroundingScope(ts, index).value.start - 1) >= 0 &&
             Lookup(ts[WalkLeft(ts, FindSurroundingScope(ts, index).value.start - 1)].value).Some?) ==> r.Some?
  {
    match FindSurroundingScope(ts, index)
    case None => None
    case Some(scope) =>
      if scope.start > 0 then
        var curr := WalkLeft(ts, scope.start - 1);
        if curr >= 0 then
          match Lookup(ts[curr].value)
          case Some(kind) => Some(Located(kind, StrategyContext(ts, index, curr, curr, ScanBlockEnd(ts, curr))))
          case None => None
        else None
      else None
  }

  /** The structure the cursor is about to dive into: on its left (-1) or on its right (1). */
  function FindNeighborStrategy(ts: seq<Token>, index: int, direction: int): (r: Option<Located>)
    requires direction == -1 ==> index <= |ts|
    requires direction == 1 && index < |ts| ==> 0 <= index
    ensures direction != -1 && direction != 1 ==> r.None?
    // leftwards: a block closing just before the cursor, whose `{` follows a command
    ensures direction == -1 ==>
              (r.Some? <==> index > 0 && ts[index - 1].value == "}" &&
                            StrategyUtils.FindMatchingOpen(ts, index - 1) > 0 &&
                            Lookup(ts[StrategyUtils.FindMatchingOpen(ts, index - 1) - 1].value).Some?)
    ensures direction == -1 && r.Some? ==>
              var c := StrategyUtils.FindMatchingOpen(ts, index - 1) - 1;
              Id(r.value.kind) == ts[c].value && r.value.context == StrategyContext(ts, index, c, c, index - 1)
    // rightwards: a command right after the cursor
    ensures direction == 1 ==> (r.Some? <==> index < |ts| && Lookup(ts[index].value).Some?)
    ensures direction == 1 && r.Some? ==>
              Id(r.value.kind) == ts[index].value &&
              r.value.context == StrategyContext(ts, index, index, index, ScanBlockEnd(ts, index))
  {
    if direction == -1 then
      if index > 0 && ts[index - 1].value == "}" then
        var openIndex := StrategyUtils.FindMatchingOpen(ts, index - 1);
        if openIndex > 0 then
          var commandIndex := openIndex - 1;
          match Lookup(ts[commandIndex].value)
          case Some(kind) => Some(Located(kind, StrategyContext(ts, index, commandIndex, commandIndex, index - 1)))
          case None => None
        else None
      else None
    else if direction == 1 then
      if index < |ts| then
        match Lookup(ts[index].value)
        case Some(kind) => Some(Located(kind, StrategyContext(ts, index, index, index, ScanBlockEnd(ts, index))))
        case None => None
      else None
    else None
  }

  /**
   * Leftward dive-in as evidently intended: from the `{` of the block that
   * closes just before the cursor, walk back over markers and sibling blocks
   * to the command, as the context locator does. This reaches a fraction
   * from its denominator and an integral from its upper limit.
   */
  function FindLeftNeighbor(ts: seq<Token>, index: int): (r: Option<Located>)
    requires index <= |ts|
    ensures r.Some? ==>
              index > 0 && ts[index - 1].value == "}" && StrategyUtils.FindMatchingOpen(ts, index - 1) > 0 &&
              var c := r.value.context.commandIndex;
              c == WalkLeft(ts, StrategyUtils.FindMatchingOpen(ts, index - 1) - 1) && 0 <= c &&
              Id(r.value.kind) == ts[c].value && r.value.context == StrategyContext(ts, index, c, c, index - 1)
    ensures (index > 0 && ts[index - 1].value == "}" && StrategyUtils.FindMatchingOpen(ts, index - 1) > 0 &&
             WalkLeft(ts, StrategyUtils.FindMatchingOpen(ts, index - 1) - 1) >= 0 &&
             Lookup(ts[WalkLeft(ts, StrategyUtils.FindMatchingOpen(ts, index - 1) - 1)].value).Some?) ==> r.Some?
  {
    if index > 0 && ts[index - 1].value == "}" then
      var openIndex := StrategyUtils.FindMatchingOpen(ts, index - 1);
      if openIndex > 0 then
        var commandIndex := WalkLeft(ts, openIndex - 1);
        if commandIndex >= 0 then
          match Lookup(ts[commandIndex].value)
          case Some(kind) => Some(Located(kind, StrategyContext(ts, index, commandIndex, commandIndex, index - 1)))
          case None => None
        else None
      else None
    else None
  }

  /**
   * Where the token before the block's `{` is neither a marker nor a `}`,
   * the corrected lookup and the original one agree: powers are found as before.
   */
  lemma LeftNeighborAgrees(ts: seq<Token>, index: int)
    requires index <= |ts|
    requires index > 0 && ts[index - 1].value == "}" && StrategyUtils.FindMatchingOpen(ts, index - 1) > 0 ==>
               var o := StrategyUtils.FindMatchingOpen(ts, index - 1);
               ts[o - 1].kind != StructMarker && ts[o - 1].value != "}"
    ensures FindLeftNeighbor(ts, index) == FindNeighborStrategy(ts, index, -1)
  {
    if index > 0 && ts[index - 1].value == "}" && StrategyUtils.FindMatchingOpen(ts, index - 1) > 0 {
      var o := StrategyUtils.FindMatchingOpen(ts, index - 1);
      assert WalkLeft(ts, o - 1) == o - 1;
    }
  }
}
