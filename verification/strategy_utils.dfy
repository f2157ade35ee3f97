/**
 * Kind-specific bracket matching shared by the structure strategies: `{}`,
 * `[]` and `()` never match across kinds.
 */
module StrategyUtils {
  import opened Wrappers
  import opened FormulaToken
  import opened BracketScan

  const BracketChars: set<string> := {"{", "}", "[", "]", "(", ")"}

  /** The partner of a bracket character, None for anything else. */
  function MatchingPair(c: string): (p: Option<string>)
    ensures p.Some? <==> c in BracketChars
    ensures p.Some? ==> p.value in BracketChars && p.value != c
  {
    match c
    case "{" => Some("}")
    case "}" => Some("{")
    case "[" => Some("]")
    case "]" => Some("[")
    case "(" => Some(")")
    case ")" => Some("(")
    case _ => None
  }

  /** Partnering is an involution. */
  lemma MatchingPairInvolution(c: string)
    requires c in BracketChars
    ensures MatchingPair(MatchingPair(c).value) == Some(c)
  {
  }

  /** Running balance after the tokens in (o, j) when scanning right from the bracket at `o`. */
  function DepthRight(ts: seq<Token>, o: int, j: int): int
    requires 0 <= o < j <= |ts| && MatchingPair(ts[o].value).Some?
  {
    1 + Net(ts, {ts[o].value}, {MatchingPair(ts[o].value).value}, o + 1, j)
  }

  /** Running balance after the tokens in [j, c) when scanning left from the bracket at `c`. */
  function DepthLeft(ts: seq<Token>, c: int, j: int): int
    requires 0 <= j <= c < |ts| && MatchingPair(ts[c].value).Some?
  {
    1 + Net(ts, {ts[c].value}, {MatchingPair(ts[c].value).value}, j, c)
  }

  /**
   * The bracket closing the one at `openIndex` (any of the six characters:
   * the partner is searched rightwards), or -1.
   */
  function FindMatchingClose(ts: seq<Token>, openIndex: int): (r: int)
    requires 0 <= openIndex < |ts|
    ensures MatchingPair(ts[openIndex].value).None? ==> r == -1
    ensures r != -1 ==> openIndex < r < |ts| && MatchingPair(ts[openIndex].value) == Some(ts[r].value)
    ensures r != -1 ==> DepthRight(ts, openIndex, r + 1) == 0 &&
                        forall j :: openIndex < j <= r ==> DepthRight(ts, openIndex, j) > 0
    ensures r == -1 && MatchingPair(ts[openIndex].value).Some? ==>
              forall j :: openIndex < j <= |ts| ==> DepthRight(ts, openIndex, j) > 0
  {
    match MatchingPair(ts[openIndex].value)
    case None => -1
    case Some(closeChar) => ScanRight(ts, {ts[openIndex].value}, {closeChar}, openIndex + 1, 1)
  }

  /** The bracket opening the one at `closeIndex` (searched leftwards), or -1. */
  function FindMatchingOpen(ts: seq<Token>, closeIndex: int): (r: int)
    requires 0 <= closeIndex < |ts|
    ensures MatchingPair(ts[closeIndex].value).None? ==> r == -1
    ensures r != -1 ==> 0 <= r < closeIndex && MatchingPair(ts[closeIndex].value) == Some(ts[r].value)
    ensures r != -1 ==> DepthLeft(ts, closeIndex, r) == 0 &&
                        forall j :: r < j <= closeIndex ==> DepthLeft(ts, closeIndex, j) > 0
    ensures r == -1 && MatchingPair(ts[closeIndex].value).Some? ==>
              forall j :: 0 <= j <= closeIndex ==> DepthLeft(ts, closeIndex, j) > 0
  {
    match MatchingPair(ts[closeIndex].value)
    case None => -1
    case Some(openChar) => ScanLeft(ts, {ts[closeIndex].value}, {openChar}, closeIndex, 1)
  }

  /** Matching back from the close found for `o` leads to `o` again. */
  lemma MatchRoundTrip(ts: seq<Token>, o: int)
    requires 0 <= o < |ts|
    requires FindMatchingClose(ts, o) != -1
    ensures FindMatchingOpen(ts, FindMatchingClose(ts, o)) == o
  {
    var c := FindMatchingClose(ts, o);
    var oc := ts[o].value;
    var cc := ts[c].value;
    MatchingPairInvolution(oc);
    var up, down := {oc}, {cc};
    // the content strictly between the pair is balanced
    NetBack(ts, up, down, o + 1, c + 1);
    assert Net(ts, up, down, o + 1, c) == 0;
    forall j | o < j <= c
      ensures 1 + Net(ts, down, up, j, c) > 0
    {
      NetSplit(ts, up, down, o + 1, j, c);
      NetSwap(ts, up, down, j, c);
      assert DepthRight(ts, o, j) > 0;
    }
    NetSwap(ts, up, down, o, c);
    assert 1 + Net(ts, down, up, o, c) == 0;
    ScanLeftUnique(ts, down, up, c, 1, o);
  }

  /** Matching forward from the open found for `c` leads to `c` again. */
  lemma MatchRoundTripBack(ts: seq<Token>, c: int)
    requires 0 <= c < |ts|
    requires FindMatchingOpen(ts, c) != -1
    ensures FindMatchingClose(ts, FindMatchingOpen(ts, c)) == c
  {
    var o := FindMatchingOpen(ts, c);
    var oc := ts[o].value;
    var cc := ts[c].value;
    MatchingPairInvolution(cc);
    var up, down := {oc}, {cc};
    var s := o + 1;
    assert Net(ts, down, up, s, c) == 0;
    forall j | s <= j <= c
      ensures 1 + Net(ts, up, down, s, j) > 0
    {
      NetSplit(ts, down, up, s, j, c);
      NetSwap(ts, down, up, s, j);
      assert DepthLeft(ts, c, j) > 0;
    }
    NetBack(ts, up, down, o + 1, c + 1);
    NetSwap(ts, down, up, o + 1, c);
    ScanRightUnique(ts, up, down, o + 1, 1, c);
  }

  /**
   * Kind-specific matching: replacing a token that is neither the opening
   * character nor its partner by another such token leaves the match unchanged.
   */
  lemma OtherKindsIgnored(ts: seq<Token>, o: int, k: int, t: Token)
    requires 0 <= o < |ts| && 0 <= k < |ts| && k != o
    requires MatchingPair(ts[o].value).Some?
    requires ts[k].value != ts[o].value && ts[k].value != MatchingPair(ts[o].value).value
    requires t.value != ts[o].value && t.value != MatchingPair(ts[o].value).value
    ensures FindMatchingClose(ts[k := t], o) == FindMatchingClose(ts, o)
  {
    var us := ts[k := t];
    var up, down := {ts[o].value}, {MatchingPair(ts[o].value).value};
    ScanRightCongruent(ts, us, up, down, o + 1, 1);
  }
}
