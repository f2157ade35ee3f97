/**
 * Horizontal cursor movement. A cursor position `i` sits between `ts[i - 1]`
 * and `ts[i]`; some positions would split a command from its argument block
 * and are skipped over, for at most ten tries.
 */
module CursorLogic {
  import opened FormulaToken

  /** How many candidate positions a move tries before giving up. */
  const MaxTries := 10

  /** The token pairs the cursor may not stand between. */
  predicate GluedPair(prev: Token, next: Token) {
    (prev.kind == Command && next.value == "{") ||
    (prev.value == "}" && next.value == "{") ||
    (prev.kind == Command && next.value == "[") ||
    (prev.value == "]" && next.value == "{")
  }

  /** Whether the cursor may stand at `index`. */
  function IsValidPosition(ts: seq<Token>, index: int): (ok: bool)
    ensures ok <==> !(0 < index < |ts| && GluedPair(ts[index - 1], ts[index]))
    ensures (index <= 0 || index >= |ts|) ==> ok
  {
    if index <= 0 || index >= |ts| then true
    else
      var prev := ts[index - 1];
      var next := ts[index];
      if prev.kind == Command && next.value == "{" then false
      else if prev.value == "}" && next.value == "{" then false
      else if prev.kind == Command && next.value == "[" then false
      else if prev.value == "]" && next.value == "{" then false
      else true
  }

  /**
   * The move loop at try number `count`, looking at `target`. Out-of-range
   * targets clamp to the ends; after `MaxTries` invalid targets the cursor
   * stays at `cur`.
   */
  function MoveLoop(ts: seq<Token>, cur: int, delta: int, target: int, count: nat): (r: int)
    requires count <= MaxTries
    requires delta == 1 ==> target == cur + count + 1
    requires delta == -1 ==> target == cur - count - 1
    ensures r == cur || (0 <= r <= |ts| && IsValidPosition(ts, r))
    ensures delta == 1 && target >= 0 ==> forall j :: target <= j < r ==> !IsValidPosition(ts, j)
    ensures delta == -1 && target <= |ts| ==> forall j :: r < j <= target ==> !IsValidPosition(ts, j)
    ensures delta == 1 && target >= 0 ==> r == cur || target <= r || r == |ts|
    ensures delta == -1 && target <= |ts| ==> r == cur || r <= target || r == 0
    decreases MaxTries - count
  {
    if count >= MaxTries then cur
    else if target < 0 then 0
    else if target > |ts| then |ts|
    else if IsValidPosition(ts, target) then target
    else MoveLoop(ts, cur, delta, target + delta, count + 1)
  }

  /**
   * The position one step (`delta` = 1 right, -1 left) from `cur`, skipping
   * the glued positions: never a glued position, and every position jumped
   * over is glued.
   */
  function CalculateMove(ts: seq<Token>, cur: int, delta: int): (r: int)
    ensures r == cur || (0 <= r <= |ts| && IsValidPosition(ts, r))
    ensures delta == 1 && 0 <= cur <= |ts| ==> r == cur || (cur < r && forall j :: cur < j < r ==> !IsValidPosition(ts, j))
    ensures delta == -1 && 0 <= cur <= |ts| ==> r == cur || (r < cur && forall j :: r < j < cur ==> !IsValidPosition(ts, j))
  {
    MoveLoop(ts, cur, delta, cur + delta, 0)
  }

  /**
   * Moving right finds the first valid position within reach: if the
   * `k + 1`-th position to the right is valid and the ones before it are
   * glued, the move lands there.
   */
  lemma {:induction false} MoveRightFindsFirstValid(ts: seq<Token>, cur: int, target: int, count: nat, k: nat)
    requires count + k < MaxTries && 0 <= target && target + k <= |ts| && target == cur + count + 1
    requires IsValidPosition(ts, target + k)
    requires forall j :: target <= j < target + k ==> !IsValidPosition(ts, j)
    ensures MoveLoop(ts, cur, 1, target, count) == target + k
    decreases k
  {
    if k > 0 {
      MoveRightFindsFirstValid(ts, cur, target + 1, count + 1, k - 1);
    }
  }

  /** The same for moving left. */
  lemma {:induction false} MoveLeftFindsFirstValid(ts: seq<Token>, cur: int, target: int, count: nat, k: nat)
    requires count + k < MaxTries && 0 <= target - k && target <= |ts| && target == cur - count - 1
    requires IsValidPosition(ts, target - k)
    requires forall j :: target - k < j <= target ==> !IsValidPosition(ts, j)
    ensures MoveLoop(ts, cur, -1, target, count) == target - k
    decreases k
  {
    if k > 0 {
      MoveLeftFindsFirstValid(ts, cur, target - 1, count + 1, k - 1);
    }
  }

  /** Ten glued positions in a row to the right leave the cursor where it was. */
  lemma {:induction false} MoveRightGivesUp(ts: seq<Token>, cur: int, target: int, count: nat)
    requires count <= MaxTries && 0 <= target && target + (MaxTries - count) <= |ts| + 1 && target == cur + count + 1
    requires forall j :: target <= j < target + (MaxTries - count) ==> !IsValidPosition(ts, j)
    ensures MoveLoop(ts, cur, 1, target, count) == cur
    decreases MaxTries - count
  {
    if count < MaxTries {
      MoveRightGivesUp(ts, cur, target + 1, count + 1);
    }
  }

  /** Moving left gives up when every position within reach is glued. */
  lemma {:induction false} MoveLeftGivesUp(ts: seq<Token>, cur: int, target: int, count: nat)
    requires count <= MaxTries && target <= |ts| && target - (MaxTries - count) >= -1 && target == cur - count - 1
    requires forall j :: target - (MaxTries - count) < j <= target ==> !IsValidPosition(ts, j)
    ensures MoveLoop(ts, cur, -1, target, count) == cur
    decreases MaxTries - count
  {
    if count < MaxTries {
      MoveLeftGivesUp(ts, cur, target - 1, count + 1);
    }
  }

  /** A move right lands on the first valid position when one lies within ten steps. */
  lemma MoveRightLandsOnFirstValid(ts: seq<Token>, cur: int, r: int)
    requires 0 <= cur < r <= |ts| && r - cur <= MaxTries
    requires IsValidPosition(ts, r)
    requires forall j :: cur < j < r ==> !IsValidPosition(ts, j)
    ensures CalculateMove(ts, cur, 1) == r
  {
    var target, k := cur + 1, r - cur - 1;
    assert CalculateMove(ts, cur, 1) == MoveLoop(ts, cur, 1, target, 0);
    assert target + k == r;
    assert forall j :: target <= j < target + k ==> !IsValidPosition(ts, j);
    MoveRightFindsFirstValid(ts, cur, target, 0, k);
  }

  /** A move left lands on the first valid position when one lies within ten steps. */
  lemma MoveLeftLandsOnFirstValid(ts: seq<Token>, cur: int, r: int)
    requires 0 <= r < cur <= |ts| && cur - r <= MaxTries
    requires IsValidPosition(ts, r)
    requires forall j :: r < j < cur ==> !IsValidPosition(ts, j)
    ensures CalculateMove(ts, cur, -1) == r
  {
    var target, k := cur - 1, cur - r - 1;
    assert CalculateMove(ts, cur, -1) == MoveLoop(ts, cur, -1, target, 0);
    assert target - k == r;
    assert forall j :: target - k < j <= target ==> !IsValidPosition(ts, j);
    MoveLeftFindsFirstValid(ts, cur, target, 0, k);
  }

  /** Ten glued positions right of the cursor: the move right gives up and stays put. */
  lemma MoveRightStaysAfterTenGlued(ts: seq<Token>, cur: int)
    requires 0 <= cur && cur + MaxTries <= |ts|
    requires forall j :: cur < j <= cur + MaxTries ==> !IsValidPosition(ts, j)
    ensures CalculateMove(ts, cur, 1) == cur
  {
    MoveRightGivesUp(ts, cur, cur + 1, 0);
  }

  /** Ten glued positions left of the cursor: the move left gives up and stays put. */
  lemma MoveLeftStaysAfterTenGlued(ts: seq<Token>, cur: int)
    requires cur <= |ts| && cur - MaxTries >= 0
    requires forall j :: cur - MaxTries <= j < cur ==> !IsValidPosition(ts, j)
    ensures CalculateMove(ts, cur, -1) == cur
  {
    MoveLeftGivesUp(ts, cur, cur - 1, 0);
  }

  /** A cursor next to a command never lands between it and its block. */
  lemma CommandBlockNeverSplit(ts: seq<Token>, cur: int, delta: int)
    requires 0 < CalculateMove(ts, cur, delta) < |ts|
    requires CalculateMove(ts, cur, delta) != cur
    ensures var r := CalculateMove(ts, cur, delta);
            !(ts[r - 1].kind == Command && ts[r].value in {"{", "["})
  {
  }

  /** `|\sqrt{x}` moved right lands inside the block, `\sqrt{|x}`, and back left lands before the command. */
  lemma RootJumpExample()
    ensures var ts := [Tok("\\sqrt", Command), Tok("{", Bracket), Tok("x", Variable), Tok("}", Bracket)];
            CalculateMove(ts, 0, 1) == 2 && CalculateMove(ts, 2, -1) == 0
  {
  }
}
