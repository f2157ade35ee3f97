/**
 * The token model of the formula editor: a token is a literal symbol with a
 * category and an optional colour override. The random per-token id of the
 * source is not modelled; tokens are compared by value.
 */
module FormulaToken {
  import opened Wrappers

  /** Token categories. `StructMarker` is used throughout the editor for the
      `_`/`^` separators in front of limit and base blocks. */
  datatype TokenType = Number | Command | Bracket | Operator | Variable | Cursor | StructMarker

  datatype Token = Token(value: string, kind: TokenType, tokenColor: Option<string>)

  /** A half-open range of token positions; (-1, -1) means "nothing". */
  datatype ScopeRange = ScopeRange(start: int, end: int)

  const NoRange := ScopeRange(-1, -1)

  /** Display colours used by the token model. */
  const TextYellow := "#FFD700"
  const TokenBlue := "#2D9CDB"
  const TokenBlack := "#1F1F1F"
  const TokenGrey := "#424242"
  const TokenGrey60 := "#757575"
  const TokenDark := "#000000"

  /** The fraction command, which several editing rules single out. */
  const Frac := "\\frac"

  /** A token built without a colour override. */
  function Tok(value: string, kind: TokenType): Token {
    Token(value, kind, None)
  }

  /** The override counts only when it is a non-empty string (a JavaScript truthy value). */
  predicate HasOverride(t: Token) {
    t.tokenColor.Some? && t.tokenColor.value != ""
  }

  predicate IsBrace(v: string) {
    v == "{" || v == "}"
  }

  /** The colour a token is displayed in. */
  function GetColor(t: Token): (c: string)
    ensures HasOverride(t) ==> c == t.tokenColor.value
    ensures !HasOverride(t) && IsBrace(t.value) ==> c == TextYellow
    ensures !HasOverride(t) && !IsBrace(t.value) ==>
      (t.kind == Command ==> c == "#2D9CDB") &&
      (t.kind == Number ==> c == "#1F1F1F") &&
      (t.kind == Operator ==> c == "#424242") &&
      (t.kind == Bracket ==> c == "#757575") &&
      (t.kind in {Variable, Cursor, StructMarker} ==> c == "#000000")
    ensures c != ""
  {
    if HasOverride(t) then t.tokenColor.value
    else if IsBrace(t.value) then TextYellow
    else
      match t.kind
      case Command => TokenBlue
      case Number => TokenBlack
      case Operator => TokenGrey
      case Bracket => TokenGrey60
      case Variable => TokenDark
      case _ => TokenDark
  }
}
