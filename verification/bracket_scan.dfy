/**
 * Balance-counted bracket scanning, the primitive that stands in for a tree
 * throughout the editor. A scan starts with balance 1; a token whose value is
 * in `up` adds one, a token in `down` subtracts one, and the scan stops at the
 * first `down` token that brings the balance to zero. The source repeats this
 * loop in several places with different bracket sets; each of them is an
 * instance of `ScanRight` or `ScanLeft`.
 */
module BracketScan {
  import opened FormulaToken

  /** The balance change caused by one token value. */
  function Weight(v: string, up: set<string>, down: set<string>): int {
    if v in up then 1 else if v in down then -1 else 0
  }

  /** The summed weight of the tokens at positions [a, b). */
  function Net(ts: seq<Token>, up: set<string>, down: set<string>, a: int, b: int): int
    requires 0 <= a && b <= |ts|
    decreases b - a
  {
    if b <= a then 0 else Weight(ts[a].value, up, down) + Net(ts, up, down, a + 1, b)
  }

  lemma {:induction false} NetBack(ts: seq<Token>, up: set<string>, down: set<string>, a: int, b: int)
    requires 0 <= a < b <= |ts|
    ensures Net(ts, up, down, a, b) == Net(ts, up, down, a, b - 1) + Weight(ts[b - 1].value, up, down)
    decreases b - a
  {
    if a + 1 < b {
      NetBack(ts, up, down, a + 1, b);
    }
  }

  lemma {:induction false} NetSplit(ts: seq<Token>, up: set<string>, down: set<string>, a: int, b: int, c: int)
    requires 0 <= a <= b <= c <= |ts|
    ensures Net(ts, up, down, a, c) == Net(ts, up, down, a, b) + Net(ts, up, down, b, c)
    decreases b - a
  {
    if a < b {
      NetSplit(ts, up, down, a + 1, b, c);
    }
  }

  /** Swapping the roles of `up` and `down` negates the balance. */
  lemma {:induction false} NetSwap(ts: seq<Token>, up: set<string>, down: set<string>, a: int, b: int)
    requires 0 <= a && b <= |ts|
    requires up !! down
    ensures Net(ts, down, up, a, b) == -Net(ts, up, down, a, b)
    decreases b - a
  {
    if a < b {
      NetSwap(ts, up, down, a + 1, b);
    }
  }

  /**
   * Scans rightwards from `i` with the current balance `bal`: the result is the
   * first position where the balance reaches zero, or -1 when it never does.
   */
  function ScanRight(ts: seq<Token>, up: set<string>, down: set<string>, i: int, bal: int): (r: int)
    requires 0 <= i <= |ts|
    requires bal >= 1
    ensures r == -1 || (i <= r < |ts| && ts[r].value in down && ts[r].value !in up &&
                        bal + Net(ts, up, down, i, r + 1) == 0)
    ensures forall j :: i <= j <= (if r == -1 then |ts| else r) ==> bal + Net(ts, up, down, i, j) > 0
    decreases |ts| - i
  {
    if i == |ts| then -1
    else if ts[i].value in up then ScanRight(ts, up, down, i + 1, bal + 1)
    else if ts[i].value in down then (if bal == 1 then i else ScanRight(ts, up, down, i + 1, bal - 1))
    else ScanRight(ts, up, down, i + 1, bal)
  }

  /**
   * Scans leftwards over the positions below `hi` (hi - 1 down to 0) with the
   * current balance `bal`: the result is the first position, going left, where
   * the balance reaches zero, or -1 when it never does.
   */
  function ScanLeft(ts: seq<Token>, up: set<string>, down: set<string>, hi: int, bal: int): (r: int)
    requires 0 <= hi <= |ts|
    requires bal >= 1
    ensures r == -1 || (0 <= r < hi && ts[r].value in down && ts[r].value !in up &&
                        bal + Net(ts, up, down, r, hi) == 0)
    ensures forall j :: (if r == -1 then 0 else r + 1) <= j <= hi ==> bal + Net(ts, up, down, j, hi) > 0
    decreases hi
  {
    if hi == 0 then -1
    else
      NetBackAll(ts, up, down, hi);
      var v := ts[hi - 1].value;
      if v in up then ScanLeft(ts, up, down, hi - 1, bal + 1)
      else if v in down then (if bal == 1 then hi - 1 else ScanLeft(ts, up, down, hi - 1, bal - 1))
      else ScanLeft(ts, up, down, hi - 1, bal)
  }

  lemma NetBackAll(ts: seq<Token>, up: set<string>, down: set<string>, b: int)
    requires 0 < b <= |ts|
    ensures forall j :: 0 <= j < b ==>
      Net(ts, up, down, j, b) == Net(ts, up, down, j, b - 1) + Weight(ts[b - 1].value, up, down)
  {
    forall j | 0 <= j < b
      ensures Net(ts, up, down, j, b) == Net(ts, up, down, j, b - 1) + Weight(ts[b - 1].value, up, down)
    {
      NetBack(ts, up, down, j, b);
    }
  }

  /** The leftward scan is determined by its first-zero characterisation. */
  lemma ScanLeftUnique(ts: seq<Token>, up: set<string>, down: set<string>, hi: int, bal: int, k: int)
    requires 0 <= k < hi <= |ts|
    requires bal >= 1
    requires ts[k].value in down && bal + Net(ts, up, down, k, hi) == 0
    requires forall j :: k < j <= hi ==> bal + Net(ts, up, down, j, hi) > 0
    ensures ScanLeft(ts, up, down, hi, bal) == k
  {
    var r := ScanLeft(ts, up, down, hi, bal);
  }

  /** The rightward scan is determined by its first-zero characterisation. */
  lemma ScanRightUnique(ts: seq<Token>, up: set<string>, down: set<string>, i: int, bal: int, k: int)
    requires 0 <= i <= k < |ts|
    requires bal >= 1
    requires ts[k].value in down && bal + Net(ts, up, down, i, k + 1) == 0
    requires forall j :: i <= j <= k ==> bal + Net(ts, up, down, i, j) > 0
    ensures ScanRight(ts, up, down, i, bal) == k
  {
    var r := ScanRight(ts, up, down, i, bal);
  }

  /** Only the tokens in `up` and `down` matter: two sequences with the same
      weights from `i` onwards scan identically. */
  lemma {:induction false} ScanRightCongruent(ts: seq<Token>, us: seq<Token>, up: set<string>, down: set<string>, i: int, bal: int)
    requires |ts| == |us| && 0 <= i <= |ts| && bal >= 1
    requires forall k :: i <= k < |ts| ==> Weight(ts[k].value, up, down) == Weight(us[k].value, up, down)
    ensures ScanRight(ts, up, down, i, bal) == ScanRight(us, up, down, i, bal)
    decreases |ts| - i
  {
    if i < |ts| {
      if bal + Weight(ts[i].value, up, down) != 0 {
        ScanRightCongruent(ts, us, up, down, i + 1, bal + Weight(ts[i].value, up, down));
      }
    }
  }
}
