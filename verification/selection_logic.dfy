/**
 * Smart selection: a first expansion selects the innermost brace scope around
 * the cursor (or the token before it), further expansions climb to the
 * enclosing command, then the enclosing scope, then everything; expanding a
 * full selection clears it. Also the "preceding block" that reciprocal and
 * division wrap.
 */
module SelectionLogic {
  import opened Wrappers
  import opened FormulaToken
  import opened BracketScan
  import StrategyUtils

  /**
   * The content range of the innermost `{…}` around position `index`: from
   * just after the nearest unclosed `{` on the left (or 0) to the nearest
   * unopened `}` on the right (or the end).
   */
  function FindInnerScope(ts: seq<Token>, index: int): (r: ScopeRange)
    requires 0 <= index <= |ts|
    ensures 0 <= r.start <= index <= r.end <= |ts|
    // the left boundary is an opening brace left open before `index`
    ensures r.start > 0 ==> ts[r.start - 1].value == "{" && 1 + Net(ts, {"}"}, {"{"}, r.start - 1, index) == 0
    ensures forall j :: r.start <= j <= index ==> 1 + Net(ts, {"}"}, {"{"}, j, index) > 0
    // the right boundary is a closing brace not opened after `index`
    ensures r.end < |ts| ==> ts[r.end].value == "}" && 1 + Net(ts, {"{"}, {"}"}, index, r.end + 1) == 0
    ensures forall j :: index <= j <= r.end ==> 1 + Net(ts, {"{"}, {"}"}, index, j) > 0
  {
    var left := ScanLeft(ts, {"}"}, {"{"}, index, 1);
    var right := ScanRight(ts, {"{"}, {"}"}, index, 1);
    ScopeRange(if left == -1 then 0 else left + 1, if right == -1 then |ts| else right)
  }

  /** `[s, e)` is exactly the block of a command, `\cmd{s…e}`: the range with the command and braces. */
  function FindCommandBlockWrapping(ts: seq<Token>, s: int, e: int): (r: Option<ScopeRange>)
    requires s > 1 && e < |ts| ==> s <= |ts| && 0 <= e
    ensures r.Some? <==> s > 1 && e < |ts| && ts[s - 1].value == "{" && ts[e].value == "}" && ts[s - 2].kind == Command
    ensures r.Some? ==> r.value == ScopeRange(s - 2, e + 1) && r.value.start < s && e < r.value.end
  {
    if s > 1 && e < |ts| && ts[s - 1].value == "{" && ts[e].value == "}" && ts[s - 2].kind == Command then
      Some(ScopeRange(s - 2, e + 1))
    else None
  }

  /** A selection is present when neither end is -1. */
  predicate HasSelection(s: int, e: int) {
    s != -1 && e != -1
  }

  /** What the expansion needs of its inputs before it reads any token. */
  predicate ExpandInputsOk(ts: seq<Token>, cursorIndex: int, s: int, e: int) {
    (s == 0 && e == |ts|) ||
    (!HasSelection(s, e) && 0 <= cursorIndex <= |ts|) ||
    (HasSelection(s, e) && 0 <= s <= |ts| && (s > 1 && e < |ts| ==> 0 <= e))
  }

  /** One press of "expand selection". */
  function ExpandSelection(ts: seq<Token>, cursorIndex: int, s: int, e: int): (r: ScopeRange)
    requires ExpandInputsOk(ts, cursorIndex, s, e)
    // a full selection toggles off
    ensures s == 0 && e == |ts| ==> r == NoRange
    // without a selection: something non-empty around or before the cursor, unless there is nothing
    ensures !(s == 0 && e == |ts|) && !HasSelection(s, e) ==>
              (r == NoRange <==> |ts| == 0) &&
              (r != NoRange ==> 0 <= r.start < r.end <= |ts| && r.start <= cursorIndex <= r.end)
    // the scope around the cursor, or when that is empty the token before it, else the first one
    ensures !(s == 0 && e == |ts|) && !HasSelection(s, e) ==>
              var scope := FindInnerScope(ts, cursorIndex);
              (scope.start != scope.end ==> r == scope) &&
              (scope.start == scope.end && cursorIndex > 0 ==> r == ScopeRange(cursorIndex - 1, cursorIndex)) &&
              (scope.start == scope.end && cursorIndex == 0 && |ts| > 0 ==> r == ScopeRange(0, 1))
    // with a selection: the command around it, else the scope around its start, else everything
    ensures !(s == 0 && e == |ts|) && HasSelection(s, e) ==>
              (FindCommandBlockWrapping(ts, s, e).Some? ==> r == FindCommandBlockWrapping(ts, s, e).value) &&
              (FindCommandBlockWrapping(ts, s, e).None? ==>
                 0 <= r.start <= s && r.end <= |ts| &&
                 (r == ScopeRange(0, |ts|) || r == FindInnerScope(ts, s)))
    // the scope around the selection's start when it is wider on either side, otherwise everything
    ensures !(s == 0 && e == |ts|) && HasSelection(s, e) && FindCommandBlockWrapping(ts, s, e).None? ==>
              var outer := FindInnerScope(ts, s);
              ((outer.start < s || outer.end > e) ==> r == outer) &&
              (!(outer.start < s || outer.end > e) ==> r == ScopeRange(0, |ts|))
    // a proper selection only ever grows on the left, and stays a range
    ensures !(s == 0 && e == |ts|) && HasSelection(s, e) && 0 <= s <= e <= |ts| ==>
              0 <= r.start <= s && r.start <= r.end <= |ts|
  {
    if s == 0 && e == |ts| then NoRange
    else if !HasSelection(s, e) then
      var scope := FindInnerScope(ts, cursorIndex);
      if scope.start != scope.end then scope
      else if cursorIndex > 0 then ScopeRange(cursorIndex - 1, cursorIndex)
      else if |ts| > 0 then ScopeRange(0, 1)
      else NoRange
    else
      match FindCommandBlockWrapping(ts, s, e)
      case Some(wrapper) => wrapper
      case None =>
        var outer := FindInnerScope(ts, s);
        if outer.start < s || outer.end > e then outer else ScopeRange(0, |ts|)
  }

  /**
   * Each press moves the cycle on: it clears the selection only from a full
   * selection or in an empty formula, and otherwise yields a range inside
   * the formula that differs from the one given.
   */
  lemma ExpandSelectionMoves(ts: seq<Token>, cursorIndex: int, s: int, e: int)
    requires ExpandInputsOk(ts, cursorIndex, s, e)
    ensures var r := ExpandSelection(ts, cursorIndex, s, e);
            (r == NoRange <==> (s == 0 && e == |ts|) || (!HasSelection(s, e) && |ts| == 0)) &&
            (r != NoRange ==> 0 <= r.start && r.end <= |ts| && r != ScopeRange(s, e))
  {
  }

  /** The start of the run of number tokens that ends at `start`. */
  function NumberRunStart(ts: seq<Token>, start: int): (r: int)
    requires 0 <= start <= |ts|
    ensures 0 <= r <= start
    ensures forall k :: r <= k < start ==> ts[k].kind == Number
    ensures r == 0 || ts[r - 1].kind != Number
  {
    if start > 0 && ts[start - 1].kind == Number then NumberRunStart(ts, start - 1) else start
  }

  /** Whether `\frac` opens the numerator block that closes just before `start`. */
  predicate FollowsFractionNumerator(ts: seq<Token>, start: int)
    requires 0 <= start < |ts|
  {
    start > 0 && ts[start - 1].value == "}" &&
    var firstArgOpen := StrategyUtils.FindMatchingOpen(ts, start - 1);
    firstArgOpen > 0 && ts[firstArgOpen - 1].value == Frac
  }

  /** A closing bracket of any of the three kinds. */
  predicate ClosesOperand(v: string) {
    v == "}" || v == "]" || v == ")"
  }

  /**
   * The operand ending at the cursor: a bracketed group (with the whole
   * fraction when it is a denominator, and with a command or operator in
   * front), a run of digits, or the single token before the cursor.
   */
  function FindPrecedingBlock(ts: seq<Token>, cursorIndex: int): (r: ScopeRange)
    requires 0 <= cursorIndex <= |ts|
    ensures r.end == cursorIndex
    ensures 0 <= r.start <= cursorIndex
    ensures cursorIndex == 0 ==> r.start == 0
    ensures cursorIndex > 0 && !ClosesOperand(ts[cursorIndex - 1].value) && ts[cursorIndex - 1].kind != Number ==>
              r.start == cursorIndex - 1
    // a digit: the whole run of digits
    ensures cursorIndex > 0 && !ClosesOperand(ts[cursorIndex - 1].value) && ts[cursorIndex - 1].kind == Number ==>
              r.start < cursorIndex &&
              (forall k :: r.start <= k < cursorIndex ==> ts[k].kind == Number) &&
              (r.start == 0 || ts[r.start - 1].kind != Number)
    // a closing bracket: back to its partner, maybe a little further
    ensures cursorIndex > 0 && ClosesOperand(ts[cursorIndex - 1].value) ==>
              var o := StrategyUtils.FindMatchingOpen(ts, cursorIndex - 1);
              (o == -1 ==> r.start == cursorIndex - 1) &&
              (o != -1 && !(ts[cursorIndex - 1].value == "}" && FollowsFractionNumerator(ts, o)) ==>
                 r.start == (if o > 0 && ts[o - 1].kind in {Command, Operator} then o - 1 else o)) &&
              (o != -1 && ts[cursorIndex - 1].value == "}" && FollowsFractionNumerator(ts, o) ==>
                 var n := StrategyUtils.FindMatchingOpen(ts, o - 1);
                 r.start == (if ts[n - 1].kind in {Command, Operator} then n - 1 else n))
  {
    if cursorIndex == 0 then ScopeRange(0, 0)
    else
      var last := cursorIndex - 1;
      var prev := ts[last];
      if ClosesOperand(prev.value) then
        ScopeRange(BracketOperandStart(ts, last), cursorIndex)
      else if prev.kind == Number then ScopeRange(NumberRunStart(ts, last), cursorIndex)
      else ScopeRange(last, cursorIndex)
  }

  /**
   * Where the operand ending in the closing bracket at `last` starts: at the
   * partner bracket (at the numerator's `{` for a fraction's denominator),
   * one token earlier when a command or operator stands there, or at the
   * bracket itself when it has no partner.
   */
  function BracketOperandStart(ts: seq<Token>, last: int): (start: int)
    requires 0 <= last < |ts| && ClosesOperand(ts[last].value)
    ensures 0 <= start <= last
    ensures var o := StrategyUtils.FindMatchingOpen(ts, last);
            (o == -1 ==> start == last) &&
            (o != -1 && !(ts[last].value == "}" && FollowsFractionNumerator(ts, o)) ==>
               start == (if o > 0 && ts[o - 1].kind in {Command, Operator} then o - 1 else o)) &&
            (o != -1 && ts[last].value == "}" && FollowsFractionNumerator(ts, o) ==>
               var n := StrategyUtils.FindMatchingOpen(ts, o - 1);
               start == (if ts[n - 1].kind in {Command, Operator} then n - 1 else n))
  {
    var openIndex := StrategyUtils.FindMatchingOpen(ts, last);
    if openIndex == -1 then last
    else
      var partner := if ts[last].value == "}" && FollowsFractionNumerator(ts, openIndex)
                     then StrategyUtils.FindMatchingOpen(ts, openIndex - 1)
                     else openIndex;
      if partner > 0 && ts[partner - 1].kind in {Command, Operator} then partner - 1 else partner
  }

  /** The opening `{` or `[` for the closing bracket at `closeIndex`, mixing the two kinds, or -1. */
  function FindMatchingOpenBracket(ts: seq<Token>, closeIndex: int): (r: int)
    requires closeIndex <= |ts|
    ensures r == -1 || (0 <= r < closeIndex && ts[r].value in {"{", "["})
    ensures r != -1 ==> 1 + Net(ts, {"}", "]"}, {"{", "["}, r, closeIndex) == 0 &&
                        forall j :: r < j <= closeIndex ==> 1 + Net(ts, {"}", "]"}, {"{", "["}, j, closeIndex) > 0
    ensures r == -1 && closeIndex > 0 ==> forall j :: 0 <= j <= closeIndex ==> 1 + Net(ts, {"}", "]"}, {"{", "["}, j, closeIndex) > 0
  {
    if closeIndex <= 0 then -1 else ScanLeft(ts, {"}", "]"}, {"{", "["}, closeIndex, 1)
  }

  /** Right after the `{` of a block, the inner scope is exactly the block's content. */
  lemma InnerScopeOfBlock(ts: seq<Token>, o: int)
    requires 0 <= o < |ts| && ts[o].value == "{"
    ensures FindInnerScope(ts, o + 1).start == o + 1
    ensures StrategyUtils.FindMatchingClose(ts, o) != -1 ==>
              FindInnerScope(ts, o + 1).end == StrategyUtils.FindMatchingClose(ts, o)
    ensures StrategyUtils.FindMatchingClose(ts, o) == -1 ==> FindInnerScope(ts, o + 1).end == |ts|
  {
    NetBack(ts, {"}"}, {"{"}, o, o + 1);
    assert 1 + Net(ts, {"}"}, {"{"}, o, o + 1) == 0;
    ScanLeftUnique(ts, {"}"}, {"{"}, o + 1, 1, o);
  }

  /** `\sqrt{x}` with the cursor on `x`: `x`, then the whole root, then nothing. */
  lemma ExpandCycleExample()
    ensures var ts := [Tok("\\sqrt", Command), Tok("{", Bracket), Tok("x", Variable), Tok("}", Bracket)];
            ExpandSelection(ts, 2, -1, -1) == ScopeRange(2, 3) &&
            ExpandSelection(ts, 2, 2, 3) == ScopeRange(0, 4) &&
            ExpandSelection(ts, 2, 0, 4) == NoRange
  {
    var ts := [Tok("\\sqrt", Command), Tok("{", Bracket), Tok("x", Variable), Tok("}", Bracket)];
    InnerScopeOfBlock(ts, 1);
    assert ScanRight(ts, {"{"}, {"}"}, 3, 1) == 3;
    assert ScanRight(ts, {"{"}, {"}"}, 2, 1) == 3;
  }

  /** `12+34` with the cursor at the end: the preceding block is the digit run `34`. */
  lemma PrecedingNumberExample()
    ensures FindPrecedingBlock([Tok("1", Number), Tok("2", Number), Tok("+", Operator), Tok("3", Number), Tok("4", Number)], 5)
            == ScopeRange(3, 5)
  {
    var ts := [Tok("1", Number), Tok("2", Number), Tok("+", Operator), Tok("3", Number), Tok("4", Number)];
    assert NumberRunStart(ts, 3) == 3;
    assert NumberRunStart(ts, 4) == 3;
  }

  /** `2+\frac{1}{2}` with the cursor at the end: the preceding block is the whole fraction. */
  lemma PrecedingFractionExample()
    ensures FindPrecedingBlock([Tok("2", Number), Tok("+", Operator), Tok(Frac, Command),
                                Tok("{", Bracket), Tok("1", Number), Tok("}", Bracket),
                                Tok("{", Bracket), Tok("2", Number), Tok("}", Bracket)], 9)
            == ScopeRange(2, 9)
  {
    var ts := [Tok("2", Number), Tok("+", Operator), Tok(Frac, Command),
               Tok("{", Bracket), Tok("1", Number), Tok("}", Bracket),
               Tok("{", Bracket), Tok("2", Number), Tok("}", Bracket)];
    assert ScanLeft(ts, {"}"}, {"{"}, 7, 1) == 6;
    assert ScanLeft(ts, {"}"}, {"{"}, 8, 1) == 6;
    assert StrategyUtils.FindMatchingOpen(ts, 8) == 6;
    assert ScanLeft(ts, {"}"}, {"{"}, 4, 1) == 3;
    assert ScanLeft(ts, {"}"}, {"{"}, 5, 1) == 3;
    assert StrategyUtils.FindMatchingOpen(ts, 5) == 3;
  }
}
