/**
 * Translation of the token list into the text of an expression for the
 * numeric engine: a recursive-descent pass where `ParseExpr` walks a span of
 * tokens and `ParseFactor` turns one factor (a number, a bracketed block, a
 * fraction, a root, a logarithm or a trigonometric call) into text. Formulas
 * with calculus symbols are refused before any translation. Only the string
 * translation is modelled; evaluation is left out.
 */
module CalculationService {
  import opened Wrappers
  import opened FormulaToken
  import BracketScan
  import Splice

  /** Symbols that make a formula too complex for the engine. */
  const ComplexSymbols: set<string> := {"\\int", "\\sum", "\\lim", "\\prod", "d", "dx"}

  /** The trigonometric and hyperbolic commands understood as function calls. */
  const TrigNames: set<string> := {"\\sin", "\\cos", "\\tan", "\\sinh", "\\cosh", "\\tanh", "\\arcsin", "\\arccos", "\\arctan"}

  /** The loop fuse of `ParseExpr`: at most this many steps per span. */
  const FuseLimit := 1000

  /** The operator table. */
  function OpMap(v: string): (r: Option<string>)
    ensures r.Some? <==> v in {"\\cdot", "\\times", "\\div", "+", "-", "^", "="}
    ensures r.Some? ==> r.value in {"*", "/", "+", "-", "^", "=="}
    // the three arithmetic signs and `^` pass through unchanged
    ensures v in {"+", "-", "^"} ==> r == Some(v)
  {
    match v
    case "\\cdot" => Some("*")
    case "\\times" => Some("*")
    case "\\div" => Some("/")
    case "+" => Some("+")
    case "-" => Some("-")
    case "^" => Some("^")
    case "=" => Some("==")
    case _ => None
  }

  /** The text produced for a span, and the position the scan stopped at. */
  datatype Parsed = Parsed(expression: string, nextIndex: int)

  /** A token that `ParseExpr` hands to `ParseFactor`. */
  predicate StartsFactor(t: Token) {
    t.kind == Command || t.kind == Number || t.kind == Variable || t.value in {"(", "{", "["}
  }

  /**
   * `findMatchingParen`: from `start + 1` on, `openChar` raises and
   * `closeChar` lowers a balance that starts at 1; the first position where it
   * is zero, or the end of the list when it never is.
   */
  function FindMatchingParen(ts: seq<Token>, start: int, openChar: string, closeChar: string): (r: int)
    requires -1 <= start
    ensures start < |ts| ==> start < r <= |ts|
    ensures start >= |ts| ==> r == start + 1
    ensures r < |ts| ==> ts[r].value == closeChar
  {
    ParenLoop(ts, start + 1, openChar, closeChar, 1)
  }

  function ParenLoop(ts: seq<Token>, i: int, openChar: string, closeChar: string, balance: int): (r: int)
    requires 0 <= i && balance >= 1
    ensures i <= r && (i <= |ts| ==> r <= |ts|) && (i > |ts| ==> r == i)
    ensures r < |ts| ==> ts[r].value == closeChar
    decreases |ts| - i
  {
    if i >= |ts| then i
    else
      var b := if ts[i].value == openChar then balance + 1 else if ts[i].value == closeChar then balance - 1 else balance;
      if b == 0 then i else ParenLoop(ts, i + 1, openChar, closeChar, b)
  }

  /**
   * For two different characters the loop finds what the shared bracket
   * scanner finds, and the end of the list where the scanner reports none.
   */
  lemma {:induction false} ParenLoopIsScan(ts: seq<Token>, i: int, openChar: string, closeChar: string, balance: int)
    requires 0 <= i <= |ts| && balance >= 1 && openChar != closeChar
    ensures var s := BracketScan.ScanRight(ts, {openChar}, {closeChar}, i, balance);
            ParenLoop(ts, i, openChar, closeChar, balance) == if s == -1 then |ts| else s
    decreases |ts| - i
  {
    if i < |ts| {
      var b := ParenStep(ts, i, openChar, closeChar, balance);
      if b != 0 {
        ParenLoopIsScan(ts, i + 1, openChar, closeChar, b);
      }
    }
  }

  /**
   * One token of both loops: the new balance, which is zero exactly when both
   * stop here, and otherwise both go on from the next token with it.
   */
  lemma ParenStep(ts: seq<Token>, i: int, openChar: string, closeChar: string, balance: int) returns (b: int)
    requires 0 <= i < |ts| && balance >= 1 && openChar != closeChar
    ensures b >= 0
    ensures b == 0 ==> ParenLoop(ts, i, openChar, closeChar, balance) == i &&
                       BracketScan.ScanRight(ts, {openChar}, {closeChar}, i, balance) == i
    ensures b != 0 ==> ParenLoop(ts, i, openChar, closeChar, balance) == ParenLoop(ts, i + 1, openChar, closeChar, b) &&
                       BracketScan.ScanRight(ts, {openChar}, {closeChar}, i, balance) ==
                       BracketScan.ScanRight(ts, {openChar}, {closeChar}, i + 1, b)
  {
    var v := ts[i].value;
    b := if v == openChar then balance + 1 else if v == closeChar then balance - 1 else balance;
  }

  /** `findMatchingParen` is the scanner's match, or the end of the list when the bracket is unclosed. */
  lemma FindMatchingParenIsScan(ts: seq<Token>, start: int, openChar: string, closeChar: string)
    requires -1 <= start < |ts| && openChar != closeChar
    ensures var s := BracketScan.ScanRight(ts, {openChar}, {closeChar}, start + 1, 1);
            FindMatchingParen(ts, start, openChar, closeChar) == if s == -1 then |ts| else s
  {
    ParenLoopIsScan(ts, start + 1, openChar, closeChar, 1);
  }

  /** Termination measure: how far a position is from running off the list. */
  function Rank(ts: seq<Token>, i: int): nat {
    if i <= |ts| then |ts| - i + 1 else 0
  }

  /** `parseExpr`: translates the span [start, end). */
  function ParseExpr(ts: seq<Token>, start: int, end: int): (r: Parsed)
    requires 0 <= start && end <= |ts|
    ensures start <= r.nextIndex && (start <= |ts| + 1 ==> r.nextIndex <= |ts| + 1)
    ensures end - start <= FuseLimit ==> r.nextIndex >= end
    decreases Rank(ts, start), 4
  {
    ExprLoop(ts, start, end, 0, "")
  }

  /**
   * The loop of `parseExpr` from position `i`, after `count` steps, with the
   * text `acc` produced so far: factors go to `ParseFactor`, operators through
   * the table, structure markers are skipped and anything else is copied.
   */
  function ExprLoop(ts: seq<Token>, i: int, end: int, count: nat, acc: string): (r: Parsed)
    requires 0 <= i && end <= |ts|
    ensures i <= r.nextIndex && (i <= |ts| + 1 ==> r.nextIndex <= |ts| + 1)
    ensures count + (end - i) <= FuseLimit ==> r.nextIndex >= end
    decreases Rank(ts, i), 3
  {
    if i >= end then Parsed(acc, i)
    else if count + 1 > FuseLimit then Parsed(acc, i)
    else
      var step := ExprStep(ts, i);
      ExprLoop(ts, step.nextIndex, end, count + 1, acc + step.expression)
  }

  /**
   * One pass of the loop at token `i`: a factor is parsed, an operator goes
   * through the table, a structure marker adds nothing, anything else is
   * copied; the next position is always further on.
   */
  function ExprStep(ts: seq<Token>, i: int): (r: Parsed)
    requires 0 <= i < |ts|
    ensures i < r.nextIndex <= |ts| + 1
    ensures !StartsFactor(ts[i]) ==> r.nextIndex == i + 1
    decreases Rank(ts, i), 2
  {
    var t := ts[i];
    if StartsFactor(t) then ParseFactor(ts, i)
    else if OpMap(t.value).Some? then Parsed(OpMap(t.value).value, i + 1)
    else if t.kind == StructMarker then Parsed("", i + 1)
    else Parsed(t.value, i + 1)
  }

  /**
   * `parseFactor`: one factor starting at `index`. Past the end it yields
   * nothing and stays put; otherwise it always consumes at least one token.
   */
  function ParseFactor(ts: seq<Token>, index: int): (r: Parsed)
    requires 0 <= index
    ensures index >= |ts| ==> r == Parsed("", index)
    ensures index < |ts| ==> index < r.nextIndex <= |ts| + 1
    decreases Rank(ts, index), 1
  {
    if index >= |ts| then Parsed("", index)
    else
      var v := ts[index].value;
      if v == "\\pi" then Parsed("pi", index + 1)
      else if v == "e" then Parsed("e", index + 1)
      else if v == Frac then ParseFraction(ts, index)
      else if v == "\\sqrt" then ParseRoot(ts, index)
      else if v == "\\log" then ParseLog(ts, index)
      else if v == "\\lg" then
        var arg := ParseFactor(ts, index + 1);
        Parsed("log10(" + arg.expression + ")", arg.nextIndex)
      else if v == "\\ln" then
        var arg := ParseFactor(ts, index + 1);
        Parsed("log(" + arg.expression + ")", arg.nextIndex)
      else if v in TrigNames then ParseTrig(ts, index)
      else if v == "(" then
        var end := FindMatchingParen(ts, index, "(", ")");
        var inner := ParseExpr(ts, index + 1, end);
        Parsed("(" + inner.expression + ")", end + 1)
      else if v == "{" then
        var inner := ExtractBlock(ts, index);
        Parsed("(" + inner.expression + ")", inner.nextIndex)
      else Parsed(v, index + 1)
  }

  /** `\frac` followed by two blocks: `(numerator) / (denominator)`. */
  function ParseFraction(ts: seq<Token>, index: int): (r: Parsed)
    requires 0 <= index < |ts|
    ensures index < r.nextIndex <= |ts| + 1
    decreases Rank(ts, index), 0
  {
    var num := ExtractBlock(ts, index + 1);
    var den := ExtractBlock(ts, num.nextIndex);
    Parsed("(" + num.expression + ") / (" + den.expression + ")", den.nextIndex)
  }

  /** `\sqrt{x}` or `\sqrt[n]{x}`: `nthRoot(x, n)`, the degree defaulting to 2. */
  function ParseRoot(ts: seq<Token>, index: int): (r: Parsed)
    requires 0 <= index < |ts|
    ensures index < r.nextIndex <= |ts| + 1
    decreases Rank(ts, index), 0
  {
    var hasDegree := index + 1 < |ts| && ts[index + 1].value == "[";
    var degreeEnd := if hasDegree then FindMatchingParen(ts, index + 1, "[", "]") else index;
    var degree := if hasDegree then ParseExpr(ts, index + 2, degreeEnd).expression else "2";
    var body := ExtractBlock(ts, if hasDegree then degreeEnd + 1 else index + 1);
    Parsed("nthRoot(" + body.expression + ", " + degree + ")", body.nextIndex)
  }

  /**
   * `\log`, optionally with a subscript base, then its argument factor:
   * `log10(arg)` when the base text is `10` or absent, `log(arg, base)` otherwise.
   */
  function ParseLog(ts: seq<Token>, index: int): (r: Parsed)
    requires 0 <= index < |ts|
    ensures index < r.nextIndex <= |ts| + 1
    decreases Rank(ts, index), 0
  {
    var base := TryExtractSubscript(ts, index + 1);
    var baseExpr := if base.Some? then base.value.expression else "10";
    var arg := ParseFactor(ts, if base.Some? then base.value.nextIndex else index + 1);
    if baseExpr == "10" then Parsed("log10(" + arg.expression + ")", arg.nextIndex)
    else Parsed("log(" + arg.expression + ", " + baseExpr + ")", arg.nextIndex)
  }

  /**
   * A trigonometric command: the name without its backslash, an `a` prefix
   * for a following `^{-1}`, otherwise a leading `arc` shortened to `a`, and
   * the argument factor in parentheses.
   */
  function ParseTrig(ts: seq<Token>, index: int): (r: Parsed)
    requires 0 <= index < |ts| && ts[index].value in TrigNames
    ensures index < r.nextIndex <= |ts| + 1
    decreases Rank(ts, index), 0
  {
    var name := TrigFunctionName(ts[index].value, TryExtractInverse(ts, index + 1).Some?);
    var arg := ParseFactor(ts, TryExtractInverse(ts, index + 1).GetOr(index + 1));
    Parsed(name + "(" + arg.expression + ")", arg.nextIndex)
  }

  /** The engine's name for a trigonometric command, given whether `^{-1}` follows it. */
  function TrigFunctionName(command: string, inverse: bool): (name: string)
    requires |command| >= 1
    ensures inverse ==> name == "a" + command[1..]
    ensures !inverse && |command| >= 4 && command[1..4] == "arc" ==> name == "a" + command[4..]
    ensures !inverse && !(|command| >= 4 && command[1..4] == "arc") ==> name == command[1..]
  {
    var bare := command[1..];
    if inverse then "a" + bare
    else if |bare| >= 3 && bare[..3] == "arc" then "a" + bare[3..]
    else bare
  }

  /** The trigonometric and hyperbolic functions the engine's scope defines. */
  const EngineTrigFunctions: set<string> :=
    {"sin", "cos", "tan", "asin", "acos", "atan", "sinh", "cosh", "tanh", "asinh", "acosh", "atanh"}

  /**
   * Every trigonometric command is named after a function the engine knows,
   * except an arc function raised to `^{-1}`: `\arcsin^{-1}` becomes `aarcsin`.
   */
  lemma TrigNamesKnownToEngine(command: string, inverse: bool)
    requires command in TrigNames
    ensures TrigFunctionName(command, inverse) in EngineTrigFunctions <==>
              !(inverse && command in {"\\arcsin", "\\arccos", "\\arctan"})
  {
    if command in {"\\arcsin", "\\arccos", "\\arctan"} {
      ArcTrigNames(command, inverse);
    } else {
      PlainTrigNames(command, inverse);
    }
  }

  /** The six plain and hyperbolic commands always name an engine function. */
  lemma PlainTrigNames(command: string, inverse: bool)
    requires command in TrigNames - {"\\arcsin", "\\arccos", "\\arctan"}
    ensures TrigFunctionName(command, inverse) in EngineTrigFunctions
  {
    if command == "\\sin" {
      assert command[1..] == "sin";
      assert command[1..][..3] == "sin";
      assert TrigFunctionName(command, inverse) == if inverse then "asin" else "sin";
    } else if command == "\\cos" {
      assert command[1..] == "cos";
      assert command[1..][..3] == "cos";
      assert TrigFunctionName(command, inverse) == if inverse then "acos" else "cos";
    } else if command == "\\tan" {
      assert command[1..] == "tan";
      assert command[1..][..3] == "tan";
      assert TrigFunctionName(command, inverse) == if inverse then "atan" else "tan";
    } else if command == "\\sinh" {
      assert command[1..] == "sinh";
      assert command[1..][..3] == "sin";
      assert TrigFunctionName(command, inverse) == if inverse then "asinh" else "sinh";
    } else if command == "\\cosh" {
      assert command[1..] == "cosh";
      assert command[1..][..3] == "cos";
      assert TrigFunctionName(command, inverse) == if inverse then "acosh" else "cosh";
    } else {
      assert command == "\\tanh";
      assert command[1..] == "tanh";
      assert command[1..][..3] == "tan";
      assert TrigFunctionName(command, inverse) == if inverse then "atanh" else "tanh";
    }
  }

  /** The arc commands name an engine function unless `^{-1}` follows them. */
  lemma ArcTrigNames(command: string, inverse: bool)
    requires command in {"\\arcsin", "\\arccos", "\\arctan"}
    ensures TrigFunctionName(command, inverse) in EngineTrigFunctions <==> !inverse
  {
    var name := TrigFunctionName(command, inverse);
    if inverse {
      // `a` and the whole arc name: longer than any engine name
      assert |name| == 7;
      assert forall f :: f in EngineTrigFunctions ==> |f| <= 5;
    } else if command == "\\arcsin" {
      assert command[1..][..3] == "arc" && command[1..][3..] == "sin";
      assert name == "asin";
    } else if command == "\\arccos" {
      assert command[1..][..3] == "arc" && command[1..][3..] == "cos";
      assert name == "acos";
    } else {
      assert command[1..][..3] == "arc" && command[1..][3..] == "tan";
      assert name == "atan";
    }
  }

  /** `extractBlock`: the inside of a `{…}` block, or the next factor when no `{` is there. */
  function ExtractBlock(ts: seq<Token>, startIndex: int): (r: Parsed)
    requires 0 <= startIndex
    ensures startIndex >= |ts| ==> r == Parsed("", startIndex)
    ensures startIndex < |ts| ==> startIndex < r.nextIndex <= |ts| + 1
    decreases Rank(ts, startIndex), if startIndex < |ts| && ts[startIndex].value == "{" then 0 else 2
  {
    if startIndex >= |ts| || ts[startIndex].value != "{" then ParseFactor(ts, startIndex)
    else
      var end := FindMatchingParen(ts, startIndex, "{", "}");
      var inner := ParseExpr(ts, startIndex + 1, end);
      Parsed(inner.expression, end + 1)
  }

  /** `tryExtractSubscript`: a `_` followed by a block, or nothing. */
  function TryExtractSubscript(ts: seq<Token>, startIndex: int): (r: Option<Parsed>)
    requires 0 <= startIndex
    ensures r.Some? <==> startIndex < |ts| && ts[startIndex].value == "_"
    ensures r.Some? ==> startIndex < r.value.nextIndex <= |ts| + 1
    ensures r.Some? ==> r.value == ExtractBlock(ts, startIndex + 1)
    decreases Rank(ts, startIndex), 3
  {
    if startIndex >= |ts| then None
    else if ts[startIndex].value == "_" then Some(ExtractBlock(ts, startIndex + 1))
    else None
  }

  /** `tryExtractInverse`: the five tokens `^ { - 1 }`, and the position after them. */
  function TryExtractInverse(ts: seq<Token>, startIndex: int): (r: Option<int>)
    requires startIndex + 4 < |ts| ==> 0 <= startIndex
    ensures r.Some? <==> startIndex + 4 < |ts| && ts[startIndex].value == "^" && ts[startIndex + 1].value == "{" &&
                         ts[startIndex + 2].value == "-" && ts[startIndex + 3].value == "1" && ts[startIndex + 4].value == "}"
    ensures r.Some? ==> r.value == startIndex + 5
  {
    if startIndex + 4 < |ts| && ts[startIndex].value == "^" && ts[startIndex + 1].value == "{" &&
       ts[startIndex + 2].value == "-" && ts[startIndex + 3].value == "1" && ts[startIndex + 4].value == "}"
    then Some(startIndex + 5)
    else None
  }

  /**
   * The characters JavaScript's `trim` removes: the ECMAScript white-space
   * and line-terminator characters.
   */
  function IsJsWhitespace(c: char): (b: bool)
    // among ASCII characters, exactly tab, the four line and page breaks, and space
    ensures c < '\U{0080}' ==> (b <==> c in {'\t', '\n', '\U{000B}', '\U{000C}', '\r', ' '})
    ensures b ==> c <= '\U{FEFF}'
  {
    c in {' ', '\t', '\n', '\r', '\U{000B}', '\U{000C}', '\U{00A0}', '\U{1680}', '\U{2028}', '\U{2029}', '\U{202F}', '\U{205F}', '\U{3000}', '\U{FEFF}'} ||
    '\U{2000}' <= c <= '\U{200A}'
  }

  /** `trimStart`: the text after its leading white space. */
  function TrimStart(s: string): (t: string)
    ensures |t| <= |s| && t == s[|s| - |t|..]
    ensures forall k :: 0 <= k < |s| - |t| ==> IsJsWhitespace(s[k])
    ensures t == [] || !IsJsWhitespace(t[0])
  {
    if |s| > 0 && IsJsWhitespace(s[0]) then TrimStart(s[1..]) else s
  }

  /** `trimEnd`: the text before its trailing white space. */
  function TrimEnd(s: string): (t: string)
    ensures |t| <= |s| && t == s[..|t|]
    ensures forall k :: |t| <= k < |s| ==> IsJsWhitespace(s[k])
    ensures t == [] || !IsJsWhitespace(t[|t| - 1])
  {
    if |s| > 0 && IsJsWhitespace(s[|s| - 1]) then TrimEnd(s[..|s| - 1]) else s
  }

  /** `t` is the piece of `s` starting at `i`, with only white space before and after it. */
  ghost predicate StrippedAt(s: string, t: string, i: int)
  {
    0 <= i && i + |t| <= |s| && t == s[i..i + |t|] &&
    (forall k :: 0 <= k < i ==> IsJsWhitespace(s[k])) &&
    (forall k :: i + |t| <= k < |s| ==> IsJsWhitespace(s[k]))
  }

  /**
   * A front cut `u` of `s` whose back cut is `t`, each dropping only white
   * space, leaves `t` as a piece of `s` with only white space around it.
   */
  lemma StrippedByCuts(s: string, u: string, t: string)
    requires |u| <= |s| && u == s[|s| - |u|..]
    requires forall k :: 0 <= k < |s| - |u| ==> IsJsWhitespace(s[k])
    requires |t| <= |u| && t == u[..|t|]
    requires forall k :: |t| <= k < |u| ==> IsJsWhitespace(u[k])
    ensures StrippedAt(s, t, |s| - |u|)
  {
    var i := |s| - |u|;
    assert t == s[i..i + |t|];
    forall k | i + |t| <= k < |s|
      ensures IsJsWhitespace(s[k])
    {
      assert s[k] == u[k - i];
    }
  }

  /** `trim`: the text without white space at either end. */
  function Trim(s: string): (t: string)
    ensures |t| <= |s|
    ensures t == [] || (!IsJsWhitespace(t[0]) && !IsJsWhitespace(t[|t| - 1]))
    ensures exists i :: StrippedAt(s, t, i)
  {
    StrippedByCuts(s, TrimStart(s), TrimEnd(TrimStart(s)));
    TrimEnd(TrimStart(s))
  }

  /** A text that trims to nothing: every character is white space. */
  function IsBlank(s: string): (b: bool)
    ensures b <==> Trim(s) == []
  {
    var u := TrimStart(s);
    assert Trim(s) == TrimEnd(u);
    assert Trim(s) == [] ==> forall k :: 0 <= k < |s| ==> IsJsWhitespace(s[k]) by {
      if Trim(s) == [] {
        var i :| StrippedAt(s, [], i);
      }
    }
    assert (forall k :: 0 <= k < |s| ==> IsJsWhitespace(s[k])) ==> u == [] by {
      if u != [] {
        assert u[0] == s[|s| - |u|];
      }
    }
    forall k :: 0 <= k < |s| ==> IsJsWhitespace(s[k])
  }

  /** The formula holds a symbol too complex for the engine. */
  predicate HasComplexSymbol(ts: seq<Token>) {
    exists k :: 0 <= k < |ts| && ts[k].value in ComplexSymbols
  }

  /** The early exit of `evaluateRealTime`: a scan that stops at the first complex symbol. */
  method ScanComplexSymbols(ts: seq<Token>) returns (found: bool)
    ensures found <==> HasComplexSymbol(ts)
  {
    for i := 0 to |ts|
      invariant forall k :: 0 <= k < i ==> ts[k].value !in ComplexSymbols
    {
      if ts[i].value in ComplexSymbols {
        return true;
      }
    }
    return false;
  }

  /**
   * The expression handed to the engine for a formula, or None when the
   * formula is refused: a calculus symbol anywhere, or a translation that is
   * blank or just `()`.
   */
  function Translate(ts: seq<Token>): (r: Option<string>)
    ensures HasComplexSymbol(ts) ==> r.None?
    ensures r.Some? ==> !IsBlank(r.value) && r.value != "()"
    ensures r.Some? ==> r.value == ParseExpr(ts, 0, |ts|).expression
    ensures r.None? <==> HasComplexSymbol(ts) || IsBlank(ParseExpr(ts, 0, |ts|).expression) ||
                         ParseExpr(ts, 0, |ts|).expression == "()"
  {
    if HasComplexSymbol(ts) then None
    else
      var e := ParseExpr(ts, 0, |ts|).expression;
      if IsBlank(e) || e == "()" then None else Some(e)
  }

  // ---------------------------------------------------------------------
  // A reference translation for formulas without nested structure
  // ---------------------------------------------------------------------

  /** The factor heads that consume more than their own token. */
  const CompoundHeads: seq<string> :=
    [Frac, "\\sqrt", "\\log", "\\lg", "\\ln", "(", "{",
     "\\sin", "\\cos", "\\tan", "\\sinh", "\\cosh", "\\tanh", "\\arcsin", "\\arccos", "\\arctan"]

  /** A token that `ParseExpr` translates on its own, one step per token. */
  predicate Simple(t: Token) {
    !StartsFactor(t) || !Listed(t.value, CompoundHeads)
  }

  /** Whether `v` is one of `vs`, looked up entry by entry. */
  predicate Listed(v: string, vs: seq<string>)
    decreases |vs|
  {
    vs != [] && (v == vs[0] || Listed(v, vs[1..]))
  }

  lemma {:induction false} ListedIsIn(v: string, vs: seq<string>)
    ensures Listed(v, vs) <==> v in vs
    decreases |vs|
  {
    if vs != [] {
      ListedIsIn(v, vs[1..]);
      assert vs == [vs[0]] + vs[1..];
    }
  }

  /** The compound heads are the heads `ParseFactor` hands to a parser of their own. */
  lemma CompoundHeadsCover(v: string)
    ensures Listed(v, CompoundHeads) <==> v in {Frac, "\\sqrt", "\\log", "\\lg", "\\ln", "(", "{"} + TrigNames
  {
    ListedIsIn(v, CompoundHeads);
  }

  /** The text a simple token contributes. */
  function Piece(t: Token): string {
    if StartsFactor(t) then (if t.value == "\\pi" then "pi" else t.value)
    else if OpMap(t.value).Some? then OpMap(t.value).value
    else if t.kind == StructMarker then ""
    else t.value
  }

  /** The pieces of a run of simple tokens, one after another. */
  function Pieces(ts: seq<Token>): string {
    if ts == [] then "" else Piece(ts[0]) + Pieces(ts[1..])
  }

  /**
   * Over simple tokens the loop takes one token per step, so it stops at
   * `end` or after the fuse's remaining steps, whichever comes first, having
   * produced exactly the pieces of the tokens it passed.
   */
  lemma {:induction false} ExprLoopOverSimple(ts: seq<Token>, i: int, end: int, count: nat, acc: string, stop: int)
    requires RunFrame(ts, i, end, count, stop)
    ensures ExprLoop(ts, i, end, count, acc) == Parsed(acc + Pieces(ts[i..stop]), stop)
    decreases end - i, 1
  {
    if i == end || count == FuseLimit {
      StopIsHere(ts, i, end, count, acc, stop);
    } else {
      ExprLoopTakesOne(ts, i, end, count, acc, stop);
    }
  }

  /** The run before it stops: one simple token, then the rest of the run. */
  lemma {:induction false} ExprLoopTakesOne(ts: seq<Token>, i: int, end: int, count: nat, acc: string, stop: int)
    requires RunFrame(ts, i, end, count, stop) && !(i == end || count == FuseLimit)
    ensures ExprLoop(ts, i, end, count, acc) == Parsed(acc + Pieces(ts[i..stop]), stop)
    decreases end - i, 0
  {
    var next := StepThenRest(ts, i, end, count, acc, stop);
    ExprLoopOverSimple(ts, i + 1, end, count + 1, next, stop);
  }

  /**
   * The loop at `i` with `count` steps taken runs over simple tokens up to
   * `end`, and stops at `stop`: the end, or where the fuse blows first.
   */
  predicate RunFrame(ts: seq<Token>, i: int, end: int, count: nat, stop: int) {
    0 <= i <= end <= |ts| && count <= FuseLimit &&
    stop == (if end - i <= FuseLimit - count then end else i + (FuseLimit - count)) &&
    SimpleRun(ts, i, end)
  }

  /** Every token from `i` up to `end` is simple. */
  predicate SimpleRun(ts: seq<Token>, i: int, end: int)
    requires 0 <= i <= end <= |ts|
    decreases end - i
  {
    i == end || (Simple(ts[i]) && SimpleRun(ts, i + 1, end))
  }

  lemma {:induction false} AllSimpleRun(ts: seq<Token>, i: int, end: int)
    requires 0 <= i <= end <= |ts|
    requires forall k :: i <= k < end ==> Simple(ts[k])
    ensures SimpleRun(ts, i, end)
    decreases end - i
  {
    if i < end {
      AllSimpleRun(ts, i + 1, end);
    }
  }

  /** When the loop stops it has collected nothing more. */
  lemma StopIsHere(ts: seq<Token>, i: int, end: int, count: nat, acc: string, stop: int)
    requires RunFrame(ts, i, end, count, stop) && (i == end || count == FuseLimit)
    ensures 0 <= i <= stop <= |ts| && ExprLoop(ts, i, end, count, acc) == Parsed(acc + Pieces(ts[i..stop]), stop)
  {
    assert ts[i..i] == [];
    assert acc + [] == acc;
    LoopStops(ts, i, end, count, acc);
  }

  /** One more token taken: the stopping point stays, and lies beyond `i`. */
  lemma NextStop(ts: seq<Token>, i: int, end: int, count: nat, stop: int)
    requires RunFrame(ts, i, end, count, stop) && !(i == end || count == FuseLimit)
    ensures StepFrame(ts, i, end, count, stop)
    ensures RunFrame(ts, i + 1, end, count + 1, stop)
  {
  }

  /** Position `i` is a simple token the loop still takes on its way to `stop`. */
  predicate StepFrame(ts: seq<Token>, i: int, end: int, count: nat, stop: int) {
    0 <= i < stop <= end <= |ts| && count < FuseLimit && Simple(ts[i])
  }

  /** A step over a simple token, then the rest of the run from the next token. */
  lemma StepThenRest(ts: seq<Token>, i: int, end: int, count: nat, acc: string, stop: int) returns (next: string)
    requires RunFrame(ts, i, end, count, stop) && !(i == end || count == FuseLimit)
    ensures 0 <= i < stop <= |ts| && RunFrame(ts, i + 1, end, count + 1, stop)
    ensures ExprLoop(ts, i, end, count, acc) == ExprLoop(ts, i + 1, end, count + 1, next)
    ensures acc + Pieces(ts[i..stop]) == next + Pieces(ts[i + 1..stop])
  {
    next := acc + Piece(ts[i]);
    NextStop(ts, i, end, count, stop);
    SimpleStep(ts, i, end, count, acc);
    PiecesCons(ts, i, stop);
    Splice.SeqAssoc(acc, Piece(ts[i]), Pieces(ts[i + 1..stop]));
  }

  /** The loop stops at the end of the span or when the fuse blows. */
  lemma LoopStops(ts: seq<Token>, i: int, end: int, count: nat, acc: string)
    requires 0 <= i && end <= |ts| && (i >= end || count >= FuseLimit)
    ensures ExprLoop(ts, i, end, count, acc) == Parsed(acc, i)
  {
  }

  /** One step of the loop over a simple token appends its piece. */
  lemma SimpleStep(ts: seq<Token>, i: int, end: int, count: nat, acc: string)
    requires 0 <= i < end <= |ts| && count < FuseLimit && Simple(ts[i])
    ensures ExprLoop(ts, i, end, count, acc) == ExprLoop(ts, i + 1, end, count + 1, acc + Piece(ts[i]))
  {
    var t := ts[i];
    CompoundHeadsCover(t.value);
    if StartsFactor(t) {
      assert ParseFactor(ts, i) == Parsed(Piece(t), i + 1);
    }
    assert ExprStep(ts, i) == Parsed(Piece(t), i + 1);
  }

  lemma PiecesCons(ts: seq<Token>, i: int, stop: int)
    requires 0 <= i < stop <= |ts|
    ensures Pieces(ts[i..stop]) == Piece(ts[i]) + Pieces(ts[i + 1..stop])
  {
    assert ts[i..stop][0] == ts[i] && ts[i..stop][1..] == ts[i + 1..stop];
  }

  /** A formula of at most a thousand simple tokens translates piece by piece. */
  lemma ParseExprOfSimple(ts: seq<Token>)
    requires |ts| <= FuseLimit
    requires forall k :: 0 <= k < |ts| ==> Simple(ts[k])
    ensures ParseExpr(ts, 0, |ts|) == Parsed(Pieces(ts), |ts|)
  {
    AllSimpleRun(ts, 0, |ts|);
    ExprLoopOverSimple(ts, 0, |ts|, 0, "", |ts|);
    assert ts[0..|ts|] == ts;
  }

  /** A span of more than a thousand simple tokens is cut off by the fuse after a thousand. */
  lemma FuseCutsLongSpans(ts: seq<Token>, start: int, end: int)
    requires 0 <= start && start + FuseLimit < end <= |ts|
    requires forall k :: start <= k < end ==> Simple(ts[k])
    ensures ParseExpr(ts, start, end) == Parsed(Pieces(ts[start..start + FuseLimit]), start + FuseLimit)
  {
    AllSimpleRun(ts, start, end);
    ExprLoopOverSimple(ts, start, end, 0, "", start + FuseLimit);
  }

  /** A formula of simple tokens without calculus symbols translates to its pieces, unless they are blank or `()`. */
  lemma TranslateOfSimple(ts: seq<Token>)
    requires !HasComplexSymbol(ts) && |ts| <= FuseLimit
    requires forall k :: 0 <= k < |ts| ==> Simple(ts[k])
    ensures Translate(ts) == if IsBlank(Pieces(ts)) || Pieces(ts) == "()" then None else Some(Pieces(ts))
  {
    ParseExprOfSimple(ts);
  }

  // ---------------------------------------------------------------------
  // Blocks of simple tokens
  // ---------------------------------------------------------------------

  /** With no bracket of either kind before it, the scan stops at the first closing character. */
  lemma {:induction false} ParenLoopToClose(ts: seq<Token>, i: int, e: int, openChar: string, closeChar: string)
    requires 0 <= i <= e < |ts| && ts[e].value == closeChar && openChar != closeChar
    requires forall k :: i <= k < e ==> ts[k].value != openChar && ts[k].value != closeChar
    ensures ParenLoop(ts, i, openChar, closeChar, 1) == e
    decreases e - i
  {
    if i < e {
      ParenLoopToClose(ts, i + 1, e, openChar, closeChar);
    }
  }

  /** A token that `ParseFactor` copies as it is: a one-character number or name other than a bracket. */
  predicate Plain(t: Token) {
    (t.kind == Number || t.kind == Variable) && |t.value| == 1 && t.value != "(" && t.value != "{" && t.value != "}" && t.value != ")"
  }

  lemma PlainFactor(ts: seq<Token>, i: int)
    requires 0 <= i < |ts| && Plain(ts[i])
    ensures ParseFactor(ts, i) == Parsed(ts[i].value, i + 1)
  {
  }

  /** A span holding one plain token translates to its value. */
  lemma PlainSpan(ts: seq<Token>, i: int)
    requires 0 <= i && i + 1 <= |ts| && Plain(ts[i])
    ensures ParseExpr(ts, i, i + 1) == Parsed(ts[i].value, i + 1)
  {
    PlainFactor(ts, i);
    assert ExprLoop(ts, i, i + 1, 0, "") == ExprLoop(ts, i + 1, i + 1, 1, "" + ts[i].value);
    assert "" + ts[i].value == ts[i].value;
  }

  /** `{v}` with a plain `v` is the block `v`. */
  lemma PlainBlock(ts: seq<Token>, s: int)
    requires 0 <= s && s + 2 < |ts| && ts[s].value == "{" && Plain(ts[s + 1]) && ts[s + 2].value == "}"
    ensures ExtractBlock(ts, s) == Parsed(ts[s + 1].value, s + 3)
  {
    ParenLoopToClose(ts, s + 1, s + 2, "{", "}");
    PlainSpan(ts, s + 1);
  }

  /** `(v)` with a plain `v` is the factor `(v)`. */
  lemma PlainParens(ts: seq<Token>, s: int)
    requires 0 <= s && s + 2 < |ts| && ts[s].value == "(" && Plain(ts[s + 1]) && ts[s + 2].value == ")"
    ensures ParseFactor(ts, s) == Parsed("(" + ts[s + 1].value + ")", s + 3)
  {
    ParenLoopToClose(ts, s + 1, s + 2, "(", ")");
    PlainSpan(ts, s + 1);
  }

  /** A formula that is one factor translates to that factor's text. */
  lemma SingleFactor(ts: seq<Token>, text: string)
    requires 0 < |ts| && StartsFactor(ts[0]) && ParseFactor(ts, 0) == Parsed(text, |ts|)
    requires !HasComplexSymbol(ts) && 0 < |text| && !IsJsWhitespace(text[0]) && text != "()"
    ensures Translate(ts) == Some(text)
  {
    assert ExprLoop(ts, 0, |ts|, 0, "") == ExprLoop(ts, |ts|, |ts|, 1, "" + text);
    assert "" + text == text;
  }

  // ---------------------------------------------------------------------
  // Concrete translations
  // ---------------------------------------------------------------------

  /** `ParseFactor` hands a `\frac` to `ParseFraction`. */
  lemma FractionDispatch(ts: seq<Token>, i: int)
    requires 0 <= i < |ts| && ts[i].value == Frac
    ensures ParseFactor(ts, i) == ParseFraction(ts, i)
  {
  }

  /** `ParseFactor` hands a `\sqrt` to `ParseRoot`. */
  lemma RootDispatch(ts: seq<Token>, i: int)
    requires 0 <= i < |ts| && ts[i].value == "\\sqrt"
    ensures ParseFactor(ts, i) == ParseRoot(ts, i)
  {
  }

  /** `ParseFactor` hands a `\log` to `ParseLog`. */
  lemma LogDispatch(ts: seq<Token>, i: int)
    requires 0 <= i < |ts| && ts[i].value == "\\log"
    ensures ParseFactor(ts, i) == ParseLog(ts, i)
  {
  }

  /** `ParseFactor` hands a trigonometric name to `ParseTrig`. */
  lemma TrigDispatch(ts: seq<Token>, i: int)
    requires 0 <= i < |ts| && ts[i].value in TrigNames
    ensures ParseFactor(ts, i) == ParseTrig(ts, i)
  {
    TrigIsNoOtherHead(ts[i].value);
  }

  /** A trigonometric name is none of the heads `ParseFactor` tests before it. */
  lemma TrigIsNoOtherHead(v: string)
    requires v in TrigNames
    ensures v != "\\pi" && v != "e" && v != Frac && v != "\\sqrt" && v != "\\log" && v != "\\lg" && v != "\\ln"
  {
  }

  // ---------------------------------------------------------------------
  // Factors with one-token arguments
  // ---------------------------------------------------------------------

  /** `\frac{a}{b}` with one-token arguments gives `(a) / (b)`. */
  lemma FractionOfPlain(ts: seq<Token>, i: int)
    requires 0 <= i && i + 6 < |ts| && ts[i].value == Frac
    requires ts[i + 1].value == "{" && Plain(ts[i + 2]) && ts[i + 3].value == "}"
    requires ts[i + 4].value == "{" && Plain(ts[i + 5]) && ts[i + 6].value == "}"
    ensures ParseFactor(ts, i) == Parsed("(" + ts[i + 2].value + ") / (" + ts[i + 5].value + ")", i + 7)
  {
    FractionDispatch(ts, i);
    PlainBlock(ts, i + 1);
    PlainBlock(ts, i + 4);
  }

  /** `\sqrt{x}` with a one-token radicand gives `nthRoot(x, 2)`. */
  lemma SquareRootOfPlain(ts: seq<Token>, i: int)
    requires 0 <= i && i + 3 < |ts| && ts[i].value == "\\sqrt"
    requires ts[i + 1].value == "{" && Plain(ts[i + 2]) && ts[i + 3].value == "}"
    ensures ParseFactor(ts, i) == Parsed("nthRoot(" + ts[i + 2].value + ", 2)", i + 4)
  {
    RootDispatch(ts, i);
    PlainBlock(ts, i + 1);
  }

  /** `\log_{b} x` with one-token base and argument gives `log(x, b)`: a one-character base is never `10`. */
  lemma LogOfPlainBase(ts: seq<Token>, i: int)
    requires 0 <= i && i + 5 < |ts| && ts[i].value == "\\log" && ts[i + 1].value == "_"
    requires ts[i + 2].value == "{" && Plain(ts[i + 3]) && ts[i + 4].value == "}" && Plain(ts[i + 5])
    ensures ParseFactor(ts, i) == Parsed("log(" + ts[i + 5].value + ", " + ts[i + 3].value + ")", i + 6)
  {
    LogDispatch(ts, i);
    PlainBlock(ts, i + 2);
    PlainFactor(ts, i + 5);
    assert ts[i + 3].value != "10";
  }

  /** `\log x` without a base gives `log10(x)`. */
  lemma LogOfPlain(ts: seq<Token>, i: int)
    requires 0 <= i && i + 1 < |ts| && ts[i].value == "\\log" && Plain(ts[i + 1]) && ts[i + 1].value != "_"
    ensures ParseFactor(ts, i) == Parsed("log10(" + ts[i + 1].value + ")", i + 2)
  {
    LogDispatch(ts, i);
    PlainFactor(ts, i + 1);
  }

  /** `\ln x` gives `log(x)` and `\lg x` gives `log10(x)`. */
  lemma NaturalAndCommonLogOfPlain(ts: seq<Token>, i: int)
    requires 0 <= i && i + 1 < |ts| && ts[i].value in {"\\ln", "\\lg"} && Plain(ts[i + 1])
    ensures ts[i].value == "\\ln" ==> ParseFactor(ts, i) == Parsed("log(" + ts[i + 1].value + ")", i + 2)
    ensures ts[i].value == "\\lg" ==> ParseFactor(ts, i) == Parsed("log10(" + ts[i + 1].value + ")", i + 2)
  {
    PlainFactor(ts, i + 1);
  }

  /** A trigonometric command before a one-token argument, with no `^{-1}`, gives `name(x)`. */
  lemma TrigOfPlain(ts: seq<Token>, i: int)
    requires 0 <= i && i + 1 < |ts| && ts[i].value in TrigNames && Plain(ts[i + 1]) && ts[i + 1].value != "^"
    ensures ParseFactor(ts, i) == Parsed(TrigFunctionName(ts[i].value, false) + "(" + ts[i + 1].value + ")", i + 2)
  {
    TrigDispatch(ts, i);
    PlainFactor(ts, i + 1);
  }

  const FractionTokens: seq<Token> :=
    [Tok(Frac, Command), Tok("{", Bracket), Tok("1", Number), Tok("}", Bracket), Tok("{", Bracket), Tok("2", Number), Tok("}", Bracket)]

  lemma FractionFactor()
    ensures ParseFactor(FractionTokens, 0) == Parsed("(1) / (2)", 7)
  {
    FractionDispatch(FractionTokens, 0);
    PlainBlock(FractionTokens, 1);
    PlainBlock(FractionTokens, 4);
  }

  /** `\frac{1}{2}` gives `(1) / (2)`. */
  lemma FractionExample()
    ensures Translate(FractionTokens) == Some("(1) / (2)")
  {
    assert !HasComplexSymbol(FractionTokens);
    FractionFactor();
    SingleFactor(FractionTokens, "(1) / (2)");
  }

  const CubeRootTokens: seq<Token> :=
    [Tok("\\sqrt", Command), Tok("[", Bracket), Tok("3", Number), Tok("]", Bracket), Tok("{", Bracket), Tok("8", Number), Tok("}", Bracket)]

  lemma CubeRootParts()
    ensures FindMatchingParen(CubeRootTokens, 1, "[", "]") == 3
    ensures ParseExpr(CubeRootTokens, 2, 3).expression == "3"
    ensures ExtractBlock(CubeRootTokens, 4) == Parsed("8", 7)
  {
    var ts := CubeRootTokens;
    assert FindMatchingParen(ts, 1, "[", "]") == 3;
    PlainSpan(ts, 2);
    PlainBlock(ts, 4);
  }

  lemma CubeRootFactor()
    ensures ParseFactor(CubeRootTokens, 0) == Parsed("nthRoot(8, 3)", 7)
  {
    RootDispatch(CubeRootTokens, 0);
    CubeRootParts();
  }

  /** `\sqrt[3]{8}` gives `nthRoot(8, 3)`; the degree is translated as an expression. */
  lemma CubeRootExample()
    ensures Translate(CubeRootTokens) == Some("nthRoot(8, 3)")
  {
    assert !HasComplexSymbol(CubeRootTokens);
    CubeRootFactor();
    SingleFactor(CubeRootTokens, "nthRoot(8, 3)");
  }

  const LogBaseTokens: seq<Token> :=
    [Tok("\\log", Command), Tok("_", StructMarker), Tok("{", Bracket), Tok("2", Number), Tok("}", Bracket),
     Tok("(", Bracket), Tok("8", Number), Tok(")", Bracket)]

  lemma LogBaseParts()
    ensures TryExtractSubscript(LogBaseTokens, 1) == Some(Parsed("2", 5))
    ensures ParseFactor(LogBaseTokens, 5) == Parsed("(8)", 8)
  {
    LogBaseSubscript();
    PlainParens(LogBaseTokens, 5);
  }

  lemma LogBaseSubscript()
    ensures TryExtractSubscript(LogBaseTokens, 1) == Some(Parsed("2", 5))
  {
    PlainBlock(LogBaseTokens, 2);
  }

  lemma LogBaseFactor()
    ensures ParseFactor(LogBaseTokens, 0) == Parsed("log((8), 2)", 8)
  {
    LogDispatch(LogBaseTokens, 0);
    LogBaseParts();
    assert "2" != "10";
    assert ParseLog(LogBaseTokens, 0) == Parsed("log(" + "(8)" + ", " + "2" + ")", 8);
    LogBaseText();
  }

  lemma LogBaseText()
    ensures "log(" + "(8)" + ", " + "2" + ")" == "log((8), 2)"
  {
  }

  /** `\log_{2}(8)` gives `log((8), 2)`: the argument keeps its parentheses. */
  lemma LogBaseExample()
    ensures Translate(LogBaseTokens) == Some("log((8), 2)")
  {
    assert !HasComplexSymbol(LogBaseTokens);
    LogBaseFactor();
    SingleFactor(LogBaseTokens, "log((8), 2)");
  }

  const LogTenTokens: seq<Token> :=
    [Tok("\\log", Command), Tok("_", StructMarker), Tok("{", Bracket), Tok("1", Number), Tok("0", Number),
     Tok("}", Bracket), Tok("x", Variable)]

  lemma LogTenParts()
    ensures TryExtractSubscript(LogTenTokens, 1) == Some(Parsed("10", 6))
  {
    var ts := LogTenTokens;
    assert FindMatchingParen(ts, 2, "{", "}") == 5;
    PlainFactor(ts, 3);
    PlainFactor(ts, 4);
    assert ExprStep(ts, 3) == Parsed("1", 4);
    assert ExprStep(ts, 4) == Parsed("0", 5);
    assert ExprLoop(ts, 3, 5, 0, "") == ExprLoop(ts, 4, 5, 1, "" + "1");
    assert ExprLoop(ts, 4, 5, 1, "1") == ExprLoop(ts, 5, 5, 2, "1" + "0");
    assert ParseExpr(ts, 3, 5).expression == "10";
  }

  lemma LogTenFactor()
    ensures ParseFactor(LogTenTokens, 0) == Parsed("log10(x)", 7)
  {
    LogDispatch(LogTenTokens, 0);
    LogTenParts();
    PlainFactor(LogTenTokens, 6);
  }

  /** A base whose text is `10` gives `log10`, the same as no base at all. */
  lemma LogBaseTenExample()
    ensures Translate(LogTenTokens) == Some("log10(x)")
  {
    assert !HasComplexSymbol(LogTenTokens);
    LogTenFactor();
    SingleFactor(LogTenTokens, "log10(x)");
  }

  const InverseSineTokens: seq<Token> :=
    [Tok("\\sin", Command), Tok("^", StructMarker), Tok("{", Bracket), Tok("-", Operator), Tok("1", Number),
     Tok("}", Bracket), Tok("(", Bracket), Tok("x", Variable), Tok(")", Bracket)]

  lemma InverseSineParts()
    ensures TryExtractInverse(InverseSineTokens, 1) == Some(6)
    ensures ParseFactor(InverseSineTokens, 6) == Parsed("(x)", 9)
    ensures TrigFunctionName("\\sin", true) == "asin"
  {
    PlainParens(InverseSineTokens, 6);
  }

  lemma InverseSineFactor()
    ensures ParseFactor(InverseSineTokens, 0) == Parsed("asin((x))", 9)
  {
    TrigDispatch(InverseSineTokens, 0);
    InverseSineParts();
  }

  /** `\sin^{-1}(x)` gives `asin((x))`. */
  lemma InverseTrigExample()
    ensures Translate(InverseSineTokens) == Some("asin((x))")
  {
    assert !HasComplexSymbol(InverseSineTokens);
    InverseSineFactor();
    SingleFactor(InverseSineTokens, "asin((x))");
  }

  /** `\arccos x` gives `acos(x)`. */
  lemma ArcTrigExample()
    ensures Translate([Tok("\\arccos", Command), Tok("x", Variable)]) == Some("acos(x)")
  {
    var ts := [Tok("\\arccos", Command), Tok("x", Variable)];
    assert !HasComplexSymbol(ts);
    assert TrigFunctionName("\\arccos", false) == "acos";
    assert ParseFactor(ts, 0) == Parsed("acos(x)", 2);
    SingleFactor(ts, "acos(x)");
  }

  const NaturalLogTokens: seq<Token> := [Tok("\\ln", Command), Tok("x", Variable)]

  lemma NaturalLogFactor()
    ensures ParseFactor(NaturalLogTokens, 0) == Parsed("log(x)", 2)
  {
    PlainFactor(NaturalLogTokens, 1);
  }

  /** `\ln x` gives `log(x)`, the engine's natural logarithm. */
  lemma NaturalLogExample()
    ensures Translate(NaturalLogTokens) == Some("log(x)")
  {
    assert !HasComplexSymbol(NaturalLogTokens);
    NaturalLogFactor();
    SingleFactor(NaturalLogTokens, "log(x)");
  }

  const CommonLogTokens: seq<Token> := [Tok("\\lg", Command), Tok("x", Variable)]

  lemma CommonLogFactor()
    ensures ParseFactor(CommonLogTokens, 0) == Parsed("log10(x)", 2)
  {
    PlainFactor(CommonLogTokens, 1);
  }

  /** `\lg x` gives `log10(x)`. */
  lemma CommonLogExample()
    ensures Translate(CommonLogTokens) == Some("log10(x)")
  {
    assert !HasComplexSymbol(CommonLogTokens);
    CommonLogFactor();
    SingleFactor(CommonLogTokens, "log10(x)");
  }

  const SquareRootTokens: seq<Token> :=
    [Tok("\\sqrt", Command), Tok("{", Bracket), Tok("x", Variable), Tok("}", Bracket)]

  lemma SquareRootFactor()
    ensures ParseFactor(SquareRootTokens, 0) == Parsed("nthRoot(x, 2)", 4)
  {
    RootDispatch(SquareRootTokens, 0);
    PlainBlock(SquareRootTokens, 1);
  }

  /** `\sqrt{x}` gives `nthRoot(x, 2)`: without a degree the root is square. */
  lemma SquareRootExample()
    ensures Translate(SquareRootTokens) == Some("nthRoot(x, 2)")
  {
    assert !HasComplexSymbol(SquareRootTokens);
    SquareRootFactor();
    SingleFactor(SquareRootTokens, "nthRoot(x, 2)");
  }

  /** An integral is refused whatever follows it, and so are an empty formula and an empty pair of parentheses. */
  lemma RefusedExamples()
    ensures Translate([Tok("\\int", Command), Tok("x", Variable)]) == None
    ensures Translate([Tok("(", Bracket), Tok(")", Bracket)]) == None
    ensures Translate([]) == None
  {
    var ts := [Tok("\\int", Command), Tok("x", Variable)];
    assert ts[0].value in ComplexSymbols;
    var us := [Tok("(", Bracket), Tok(")", Bracket)];
    ParenLoopToClose(us, 1, 1, "(", ")");
    assert ParseFactor(us, 0) == Parsed("()", 2);
    assert ExprLoop(us, 0, 2, 0, "") == ExprLoop(us, 2, 2, 1, "" + "()");
    assert "" + "()" == "()";
  }

  const OperatorTokens: seq<Token> :=
    [Tok("2", Number), Tok("\\times", Operator), Tok("3", Number), Tok("=", Operator), Tok("6", Number)]

  lemma OperatorPieces()
    ensures Pieces(OperatorTokens) == "2*3==6"
  {
    var ts := OperatorTokens;
    assert Pieces(ts[4..]) == "6";
    assert Pieces(ts[3..]) == "==" + "6";
    assert Pieces(ts[2..]) == "3" + "==6";
    assert Pieces(ts[1..]) == "*" + "3==6";
    assert Pieces(ts) == "2" + "*3==6";
  }

  /** `2 \times 3 = 6` uses the operator table: `2*3==6`. */
  lemma OperatorExample()
    ensures Translate(OperatorTokens) == Some("2*3==6")
  {
    OperatorIsSimple();
    OperatorPieces();
    OperatorTextKept();
    TranslateOfSimple(OperatorTokens);
  }

  /** `2*3==6` is neither blank nor `()`. */
  lemma OperatorTextKept()
    ensures !IsBlank("2*3==6") && "2*3==6" != "()"
  {
  }

  /** The operator formula holds no calculus symbol and no compound factor. */
  lemma OperatorIsSimple()
    ensures !HasComplexSymbol(OperatorTokens)
    ensures forall k :: 0 <= k < |OperatorTokens| ==> Simple(OperatorTokens[k])
  {
    assert !HasComplexSymbol(OperatorTokens);
    forall k | 0 <= k < |OperatorTokens|
      ensures Simple(OperatorTokens[k])
    {
      CompoundHeadsCover(OperatorTokens[k].value);
    }
  }
}
