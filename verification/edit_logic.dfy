/**
 * Insertion, range deletion and the structure-aware backspace of the editor.
 * The source splices the token array in place; here every edit returns the
 * new sequence together with the new cursor.
 */
module EditLogic {
  import opened Wrappers
  import opened FormulaToken
  import opened BracketScan
  import opened TokenFactory
  import Splice

  datatype EditResult = EditResult(tokens: seq<Token>, cursorIndex: int)

  /** Splices the key's tokens in at the cursor and moves the cursor to the key's stop. */
  function Insert(ts: seq<Token>, cursorIndex: int, key: KeyModel): (r: EditResult)
    ensures r.cursorIndex == cursorIndex + CreateTokens(key).offset
    ensures |r.tokens| == |ts| + |CreateTokens(key).tokens|
    ensures 0 <= cursorIndex <= |ts| ==>
      r.tokens == ts[..cursorIndex] + CreateTokens(key).tokens + ts[cursorIndex..] &&
      cursorIndex < r.cursorIndex <= cursorIndex + |CreateTokens(key).tokens|
  {
    var created := CreateTokens(key);
    EditResult(Splice.Insert(ts, cursorIndex, created.tokens), cursorIndex + created.offset)
  }

  /** Removes the tokens in [start, end) and puts the cursor at `start`. */
  function DeleteRange(ts: seq<Token>, start: int, end: int): (r: EditResult)
    ensures r.cursorIndex == start
    ensures |r.tokens| <= |ts|
    ensures 0 <= start <= end <= |ts| ==> r.tokens == ts[..start] + ts[end..]
  {
    EditResult(Splice.Remove(ts, start, end - start), start)
  }

  /** Deleting the range an insertion produced restores the original tokens. */
  lemma DeleteRangeUndoesInsert(ts: seq<Token>, c: int, key: KeyModel)
    requires 0 <= c <= |ts|
    ensures DeleteRange(Insert(ts, c, key).tokens, c, c + |CreateTokens(key).tokens|).tokens == ts
  {
    var created := CreateTokens(key).tokens;
    var ins := Insert(ts, c, key).tokens;
    assert ins[..c] == ts[..c];
    assert ins[c + |created|..] == ts[c..];
  }

  /** Backspace right after a freshly typed plain key takes it out again. */
  lemma BackspaceUndoesPlainInsert(ts: seq<Token>, c: int, key: KeyModel)
    requires 0 <= c <= |ts| && !HasTemplate(key) && key.value !in {"{", "}", "[", "]"}
    ensures Insert(ts, c, key).cursorIndex == c + 1
    ensures Backspace(Insert(ts, c, key).tokens, c + 1) == EditResult(ts, c)
  {
    var ins := Insert(ts, c, key).tokens;
    assert ins[c].value == key.value;
    assert ins[..c] + ins[c + 1..] == ts;
  }

  /** The `}` closing the `{` at `openIndex` (braces only), or -1. */
  function FindMatchingCloseBracket(ts: seq<Token>, openIndex: int): (r: int)
    requires 0 <= openIndex
    ensures r == -1 || (openIndex < r < |ts| && ts[r].value == "}")
    ensures r != -1 ==> 1 + Net(ts, {"{"}, {"}"}, openIndex + 1, r + 1) == 0
  {
    if openIndex + 1 > |ts| then -1 else ScanRight(ts, {"{"}, {"}"}, openIndex + 1, 1)
  }

  /** The `{` opening the `}` at `closeIndex` (braces only), or -1. */
  function FindMatchingOpenBracket(ts: seq<Token>, closeIndex: int): (r: int)
    requires closeIndex <= |ts|
    ensures r == -1 || (0 <= r < closeIndex && ts[r].value == "{")
    ensures r != -1 ==> 1 + Net(ts, {"}"}, {"{"}, r, closeIndex) == 0
  {
    if closeIndex <= 0 then -1 else ScanLeft(ts, {"}"}, {"{"}, closeIndex, 1)
  }

  /**
   * For a `{` at `openIndex` that opens a numerator: whether the block right
   * after the numerator is an empty `{}`.
   */
  predicate DenominatorEmpty(ts: seq<Token>, openIndex: int)
    requires 0 <= openIndex
  {
    var denStart := FindMatchingCloseBracket(ts, openIndex) + 1;
    FindMatchingCloseBracket(ts, denStart) - denStart == 1
  }

  /** The `}` at `closeIndex` closes a block that directly follows `\frac`. */
  predicate ClosesFractionNumerator(ts: seq<Token>, closeIndex: int)
    requires closeIndex <= |ts|
  {
    var numStart := FindMatchingOpenBracket(ts, closeIndex);
    numStart > 0 && ts[numStart - 1].value == Frac
  }

  /** A closing brace or square bracket: backspace steps into its block. */
  predicate ClosesBlock(v: string) {
    v == "}" || v == "]"
  }

  /** An opening brace or square bracket: backspace applies the structural rules. */
  predicate OpensBlock(v: string) {
    v == "{" || v == "["
  }

  /**
   * Backspace: before the start, nothing happens; after a closing bracket the
   * cursor dives in; after an opening bracket the structural rules apply;
   * otherwise the token on the left is deleted.
   */
  function Backspace(ts: seq<Token>, cursorIndex: int): (r: EditResult)
    requires cursorIndex <= |ts|
    ensures cursorIndex <= 0 ==> r == EditResult(ts, 0)
    ensures cursorIndex > 0 && ClosesBlock(ts[cursorIndex - 1].value) ==>
              r == EditResult(ts, cursorIndex - 1)
    ensures cursorIndex > 0 && !ClosesBlock(ts[cursorIndex - 1].value) && !OpensBlock(ts[cursorIndex - 1].value) ==>
              r == EditResult(ts[..cursorIndex - 1] + ts[cursorIndex..], cursorIndex - 1)
    ensures cursorIndex > 0 && OpensBlock(ts[cursorIndex - 1].value) ==> r == HandleStructuralDeletion(ts, cursorIndex)
    ensures 0 <= cursorIndex ==> 0 <= r.cursorIndex <= cursorIndex
    ensures |r.tokens| <= |ts|
    ensures |r.tokens| == |ts| ==> r.tokens == ts
  {
    if cursorIndex <= 0 then EditResult(ts, 0)
    else
      var prev := ts[cursorIndex - 1].value;
      if ClosesBlock(prev) then EditResult(ts, cursorIndex - 1)
      else if OpensBlock(prev) then HandleStructuralDeletion(ts, cursorIndex)
      else EditResult(Splice.Remove(ts, cursorIndex - 1, 1), cursorIndex - 1)
  }

  /** Which rule a backspace after an opening bracket falls under. */
  datatype DeletionCase =
    | AtStart       // the bracket is the first token
    | Blocked       // `\frac{|…}` with a non-empty denominator
    | Collapse      // `\frac{…}{|…}`: the fraction dissolves into its numerator
    | Unwrap        // a command or operator directly before the bracket
    | LoneBracket   // anything else

  /** The rule for the opening bracket at `ob`, tried in the order the editor tries them. */
  function Classify(ts: seq<Token>, ob: int): (k: DeletionCase)
    requires 0 <= ob < |ts|
    ensures k == AtStart <==> ob == 0
    ensures k == Blocked <==> ob >= 1 && ts[ob - 1].value == Frac && !DenominatorEmpty(ts, ob)
    ensures k == Collapse <==> ob >= 1 && ts[ob - 1].value == "}" && ClosesFractionNumerator(ts, ob - 1)
    ensures k == Unwrap <==> ob >= 1 && !(ts[ob - 1].value == Frac && !DenominatorEmpty(ts, ob)) &&
                             (ts[ob - 1].value != "}" || !ClosesFractionNumerator(ts, ob - 1)) &&
                             ts[ob - 1].kind in {Command, Operator}
  {
    if ob < 1 then AtStart
    else if ts[ob - 1].value == Frac && !DenominatorEmpty(ts, ob) then Blocked
    else if ts[ob - 1].value == "}" && ClosesFractionNumerator(ts, ob - 1) then Collapse
    else if ts[ob - 1].kind == Command || ts[ob - 1].kind == Operator then Unwrap
    else LoneBracket
  }

  /** Backspace with an opening bracket at `cursorIndex - 1`. */
  function HandleStructuralDeletion(ts: seq<Token>, cursorIndex: int): (r: EditResult)
    requires 1 <= cursorIndex <= |ts|
    // a bracket at the very start, or one no rule claims, is simply removed
    ensures Classify(ts, cursorIndex - 1) in {AtStart, LoneBracket} ==>
              r == EditResult(ts[..cursorIndex - 1] + ts[cursorIndex..], cursorIndex - 1)
    // numerator start with a non-empty denominator: nothing happens
    ensures Classify(ts, cursorIndex - 1) == Blocked ==> r == EditResult(ts, cursorIndex)
    // the two unwrapping rules
    ensures Classify(ts, cursorIndex - 1) == Collapse ==> r == CollapseFraction(ts, cursorIndex - 1)
    ensures Classify(ts, cursorIndex - 1) == Unwrap ==> r == UnwrapBlock(ts, cursorIndex - 1)
    ensures 0 <= r.cursorIndex <= cursorIndex
    ensures |r.tokens| <= |ts|
    ensures |r.tokens| == |ts| ==> r.tokens == ts
  {
    var ob := cursorIndex - 1;
    match Classify(ts, ob)
    case Blocked => EditResult(ts, cursorIndex)
    case Collapse => CollapseFraction(ts, ob)
    case Unwrap => UnwrapBlock(ts, ob)
    case _ => EditResult(Splice.Remove(ts, ob, 1), ob)
  }

  /** Where the numerator's `{` and the denominator's `}` of a fraction are. */
  datatype FractionShape = FractionShape(numOpen: int, denClose: int)

  /** The shape of the fraction whose denominator opens at `ob`; `denClose` is -1 when unclosed. */
  function ShapeOf(ts: seq<Token>, ob: int): (s: FractionShape)
    requires 1 <= ob < |ts| && Classify(ts, ob) == Collapse
    ensures s.numOpen == FindMatchingOpenBracket(ts, ob - 1)
    ensures s.denClose == FindMatchingCloseBracket(ts, ob)
    ensures 1 <= s.numOpen && s.numOpen + 1 < ob && ts[s.numOpen - 1].value == Frac
    ensures s.denClose == -1 || ob < s.denClose < |ts|
  {
    FractionShape(FindMatchingOpenBracket(ts, ob - 1), FindMatchingCloseBracket(ts, ob))
  }

  /** `\frac{num}{|den}`: keeps both contents, drops `\frac` and the four braces. */
  function CollapseFraction(ts: seq<Token>, ob: int): (r: EditResult)
    requires 1 <= ob < |ts| && Classify(ts, ob) == Collapse
    ensures r.cursorIndex == ob - 3 && 0 <= r.cursorIndex
    ensures |r.tokens| < |ts|
    ensures var s := ShapeOf(ts, ob);
            s.denClose != -1 ==>
              r.tokens == ts[..s.numOpen - 1] + ts[s.numOpen + 1..ob - 1] + ts[ob + 1..s.denClose] + ts[s.denClose + 1..]
    ensures var s := ShapeOf(ts, ob);
            s.denClose == -1 ==>
              r.tokens == ts[..s.numOpen - 1] + ts[s.numOpen + 1..ob - 1] + ts[ob + 1..]
  {
    var s := ShapeOf(ts, ob);
    EditResult(CollapseAt(ts, s.numOpen, ob, s.denClose), ob - 3)
  }

  /**
   * The splices of a fraction collapse, given the numerator's `{` at `n`, the
   * denominator's `{` at `ob` and its `}` at `d` (-1 when unclosed).
   */
  function CollapseAt(ts: seq<Token>, n: int, ob: int, d: int): (r: seq<Token>)
    requires 1 <= n && n + 1 < ob < |ts| && (d == -1 || ob < d < |ts|)
    ensures d != -1 ==> r == ts[..n - 1] + ts[n + 1..ob - 1] + ts[ob + 1..d] + ts[d + 1..]
    ensures d == -1 ==> r == ts[..n - 1] + ts[n + 1..ob - 1] + ts[ob + 1..]
  {
    if d != -1 then
      Splice.RemoveOneThenTwoPairs(ts, n - 1, ob - 1, d);
      Splice.RemoveEach(ts, [d, ob, ob - 1, n, n - 1])
    else
      Splice.RemoveTwoPairs(ts, n - 1, ob - 1);
      Splice.RemoveEach(ts, [ob, ob - 1, n, n - 1])
  }

  /** `cmd{|content}`: keeps the content, drops the command and its braces. */
  function UnwrapBlock(ts: seq<Token>, ob: int): (r: EditResult)
    requires 1 <= ob < |ts|
    ensures r.cursorIndex == ob - 1 && |r.tokens| < |ts|
    ensures var close := FindMatchingCloseBracket(ts, ob);
            close != -1 ==> r.tokens == ts[..ob - 1] + ts[ob + 1..close] + ts[close + 1..]
    ensures FindMatchingCloseBracket(ts, ob) == -1 ==> r.tokens == ts[..ob - 1] + ts[ob + 1..]
  {
    EditResult(UnwrapAt(ts, ob, FindMatchingCloseBracket(ts, ob)), ob - 1)
  }

  /** The splices of an unwrap, given the block's `{` at `ob` and its `}` at `close` (-1 when unclosed). */
  function UnwrapAt(ts: seq<Token>, ob: int, close: int): (r: seq<Token>)
    requires 1 <= ob < |ts| && (close == -1 || ob < close < |ts|)
    ensures close != -1 ==> r == ts[..ob - 1] + ts[ob + 1..close] + ts[close + 1..]
    ensures close == -1 ==> r == ts[..ob - 1] + ts[ob + 1..]
  {
    if close != -1 then
      Splice.RemoveOneThenPair(ts, ob - 1, close);
      Splice.RemoveEach(ts, [close, ob, ob - 1])
    else
      Splice.RemovePair(ts, ob - 1);
      Splice.RemoveEach(ts, [ob, ob - 1])
  }

  /** `\sqrt{|66}`: backspace strips the root and leaves `|66`. */
  lemma UnwrapRootExample()
    ensures var ts := [Tok("\\sqrt", Command), Tok("{", Bracket), Tok("6", Number), Tok("6", Number), Tok("}", Bracket)];
            Backspace(ts, 2) == EditResult([Tok("6", Number), Tok("6", Number)], 0)
  {
    var ts := [Tok("\\sqrt", Command), Tok("{", Bracket), Tok("6", Number), Tok("6", Number), Tok("}", Bracket)];
    assert FindMatchingCloseBracket(ts, 1) == 4;
    assert Classify(ts, 1) == Unwrap;
  }

  /** `\frac{|}{99}`: the empty numerator cannot be backspaced out of while the denominator holds something. */
  lemma BlockedFractionExample()
    ensures var ts := [Tok(Frac, Command), Tok("{", Bracket), Tok("}", Bracket), Tok("{", Bracket),
                       Tok("9", Number), Tok("9", Number), Tok("}", Bracket)];
            Backspace(ts, 2) == EditResult(ts, 2)
  {
    var ts := [Tok(Frac, Command), Tok("{", Bracket), Tok("}", Bracket), Tok("{", Bracket),
               Tok("9", Number), Tok("9", Number), Tok("}", Bracket)];
    assert FindMatchingCloseBracket(ts, 1) == 2;
    assert ScanRight(ts, {"{"}, {"}"}, 6, 1) == 6;
    assert ScanRight(ts, {"{"}, {"}"}, 5, 1) == 6;
    assert FindMatchingCloseBracket(ts, 3) == 6;
    assert Classify(ts, 1) == Blocked;
  }

  /** `\frac{99}{|}`: backspace at the empty denominator leaves `99|`. */
  lemma CollapseFractionExample()
    ensures var ts := [Tok(Frac, Command), Tok("{", Bracket), Tok("9", Number), Tok("9", Number),
                       Tok("}", Bracket), Tok("{", Bracket), Tok("}", Bracket)];
            Backspace(ts, 6) == EditResult([Tok("9", Number), Tok("9", Number)], 2)
  {
    var ts := [Tok(Frac, Command), Tok("{", Bracket), Tok("9", Number), Tok("9", Number),
               Tok("}", Bracket), Tok("{", Bracket), Tok("}", Bracket)];
    assert FindMatchingOpenBracket(ts, 4) == 1;
    assert FindMatchingCloseBracket(ts, 5) == 6;
    assert Classify(ts, 5) == Collapse;
  }
}
