/**
 * Rendering of the token list as display LaTeX: tokens are written one after
 * another, content tokens wrapped in `\textcolor`, and a coloured bar is
 * written at the cursor position.
 */
module RenderLogic {
  import opened Wrappers
  import opened FormulaToken
  import Splice

  /** The cursor bar. */
  const CursorMark := "\\textcolor{#FF0055}{|}"

  /** Structural symbols that must reach LaTeX uncoloured. */
  predicate IsStructural(t: Token) {
    t.value in {"{", "}", "[", "]"} || t.kind == StructMarker || t.value in {"^", "_"} || t.kind == Command
  }

  /** The colours that are left out of the markup because they are the default text colour. */
  predicate IsPlainColor(c: string) {
    c == "" || c == TokenDark || c == TokenBlack
  }

  /** The LaTeX for a single token. */
  function TokenMarkup(t: Token): (s: string)
    ensures IsStructural(t) || IsPlainColor(GetColor(t)) ==> s == t.value
    ensures !IsStructural(t) && !IsPlainColor(GetColor(t)) ==>
      s == "\\textcolor{" + GetColor(t) + "}{" + t.value + "}"
  {
    if t.value == "{" || t.value == "}" || t.value == "[" || t.value == "]" then t.value
    else if t.kind == StructMarker || t.value == "^" || t.value == "_" then t.value
    else if t.kind == Command then t.value
    else
      var color := GetColor(t);
      if color != "" && color != TokenDark && color != TokenBlack then
        "\\textcolor{" + color + "}{" + t.value + "}"
      else t.value
  }

  /** The markup of a run of tokens with no cursor in it. */
  function Body(ts: seq<Token>): string
  {
    if ts == [] then "" else TokenMarkup(ts[0]) + Body(ts[1..])
  }

  /** The rendering loop from position `i` on: the bar goes before token `cursorIndex`, or last. */
  function RenderFrom(ts: seq<Token>, cursorIndex: int, i: nat): (s: string)
    requires i <= |ts|
    decreases |ts| - i
  {
    if i == |ts| then (if cursorIndex == |ts| then CursorMark else "")
    else (if i == cursorIndex then CursorMark else "") + TokenMarkup(ts[i]) + RenderFrom(ts, cursorIndex, i + 1)
  }

  /** The display LaTeX of the formula with the cursor at `cursorIndex`. */
  function GenerateDisplayLatex(ts: seq<Token>, cursorIndex: int): (s: string)
    ensures ts == [] ==> s == CursorMark
    ensures ts != [] && 0 <= cursorIndex <= |ts| ==> s == Body(ts[..cursorIndex]) + CursorMark + Body(ts[cursorIndex..])
    ensures ts != [] && !(0 <= cursorIndex <= |ts|) ==> s == Body(ts)
  {
    if |ts| == 0 then CursorMark
    else
      RenderFromSplit(ts, cursorIndex, 0);
      RenderFrom(ts, cursorIndex, 0)
  }

  /**
   * From position `i`, the loop writes the markup of the tokens before the
   * cursor, the bar, then the markup of the rest; with the cursor behind `i`
   * or out of range it writes no bar.
   */
  lemma {:induction false} RenderFromSplit(ts: seq<Token>, cursorIndex: int, i: nat)
    requires i <= |ts|
    ensures i <= cursorIndex <= |ts| ==>
      RenderFrom(ts, cursorIndex, i) == Body(ts[i..cursorIndex]) + CursorMark + Body(ts[cursorIndex..])
    ensures !(i <= cursorIndex <= |ts|) ==> RenderFrom(ts, cursorIndex, i) == Body(ts[i..])
    decreases |ts| - i
  {
    if i < |ts| {
      RenderFromSplit(ts, cursorIndex, i + 1);
      var m := TokenMarkup(ts[i]);
      var rest := RenderFrom(ts, cursorIndex, i + 1);
      if i < cursorIndex <= |ts| {
        assert RenderFrom(ts, cursorIndex, i) == "" + m + rest;
        assert "" + m == m;
        var b1 := Body(ts[i + 1..cursorIndex]);
        var b2 := Body(ts[cursorIndex..]);
        assert ts[i..cursorIndex][0] == ts[i] && ts[i..cursorIndex][1..] == ts[i + 1..cursorIndex];
        assert Body(ts[i..cursorIndex]) == m + b1;
        assert rest == b1 + CursorMark + b2;
        Splice.SeqAssoc(m, b1 + CursorMark, b2);
        Splice.SeqAssoc(m, b1, CursorMark);
      } else if i == cursorIndex {
        assert RenderFrom(ts, cursorIndex, i) == CursorMark + m + rest;
        assert rest == Body(ts[i + 1..]);
        assert ts[i..][0] == ts[i] && ts[i..][1..] == ts[i + 1..];
        assert Body(ts[i..]) == m + rest;
        assert ts[i..i] == [];
        Splice.SeqAssoc(CursorMark, m, rest);
      } else {
        assert RenderFrom(ts, cursorIndex, i) == "" + m + rest;
        assert "" + m == m;
        assert rest == Body(ts[i + 1..]);
        assert ts[i..][0] == ts[i] && ts[i..][1..] == ts[i + 1..];
      }
    } else {
      assert ts[i..] == [];
    }
  }

  /** The markup of two runs is the two markups, one after the other. */
  lemma {:induction false} BodyAppend(a: seq<Token>, b: seq<Token>)
    ensures Body(a + b) == Body(a) + Body(b)
    decreases |a|
  {
    if a == [] {
      assert a + b == b;
    } else {
      assert (a + b)[0] == a[0] && (a + b)[1..] == a[1..] + b;
      BodyAppend(a[1..], b);
      Splice.SeqAssoc(TokenMarkup(a[0]), Body(a[1..]), Body(b));
    }
  }

  /** A token written without colour markup: a structural one, or a number or name in its default colour. */
  predicate Verbatim(t: Token) {
    IsStructural(t) || ((t.kind == Number || t.kind == Variable) && !HasOverride(t))
  }

  /** The token values, one after another. */
  function Values(ts: seq<Token>): string {
    if ts == [] then "" else ts[0].value + Values(ts[1..])
  }

  /** Verbatim tokens render as their values. */
  lemma {:induction false} BodyOfVerbatim(ts: seq<Token>)
    requires forall k :: 0 <= k < |ts| ==> Verbatim(ts[k])
    ensures Body(ts) == Values(ts)
    decreases |ts|
  {
    if ts != [] {
      assert Verbatim(ts[0]);
      assert TokenMarkup(ts[0]) == ts[0].value;
      BodyOfVerbatim(ts[1..]);
    }
  }

  /**
   * Round trip for uncoloured formulas: with the cursor at the end, the
   * display LaTeX is the token values followed by the cursor bar.
   */
  lemma RenderVerbatim(ts: seq<Token>)
    requires forall k :: 0 <= k < |ts| ==> Verbatim(ts[k])
    ensures GenerateDisplayLatex(ts, |ts|) == Values(ts) + CursorMark
  {
    BodyOfVerbatim(ts);
    RenderAtEnd(ts);
  }

  /** With the cursor at the end, the bar follows the markup of every token. */
  lemma RenderAtEnd(ts: seq<Token>)
    ensures GenerateDisplayLatex(ts, |ts|) == Body(ts) + CursorMark
  {
    if ts != [] {
      EndSlices(ts);
    } else {
      assert Body(ts) == "";
    }
  }

  lemma EndSlices(ts: seq<Token>)
    ensures ts[..|ts|] == ts && Body(ts[|ts|..]) == ""
  {
    assert ts[|ts|..] == [];
  }

  /** `1+x` with the cursor at the end: digits and variables stay plain, the operator is greyed. */
  lemma RenderExample()
    ensures GenerateDisplayLatex([Tok("1", Number), Tok("+", Operator), Tok("x", Variable)], 3)
            == "1" + "\\textcolor{#424242}{+}" + "x" + CursorMark
  {
    var ts := [Tok("1", Number), Tok("+", Operator), Tok("x", Variable)];
    assert ts[..3] == ts && ts[3..] == [];
    var m1, m2, m3 := TokenMarkup(ts[0]), TokenMarkup(ts[1]), TokenMarkup(ts[2]);
    assert m1 == "1";
    assert m2 == "\\textcolor{#424242}{+}";
    assert m3 == "x";
    assert Body([ts[2]]) == m3 by {
      assert [ts[2]][1..] == [];
    }
    assert Body(ts[1..]) == m2 + m3 by {
      assert ts[1..][0] == ts[1] && ts[1..][1..] == [ts[2]];
    }
    assert Body(ts) == m1 + (m2 + m3);
    Splice.SeqAssoc(m1, m2, m3);
    assert Body(ts[3..]) == "";
  }
}
