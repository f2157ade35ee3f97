/**
 * Turning a key description into the tokens it inserts and the cursor offset
 * inside them. Only the insertion fields of a key are modelled; its label,
 * colours on the keyboard and variants belong to the key layout.
 */
module TokenFactory {
  import opened Wrappers
  import opened FormulaToken

  /** One item of a key's template; the cursor lands after the last flagged item. */
  datatype TemplateItem = TemplateItem(value: string, kind: TokenType, isCursorStop: bool)

  datatype KeyModel = KeyModel(
    value: string,
    insertType: Option<TokenType>,
    insertColor: Option<string>,
    template: Option<seq<TemplateItem>>)

  datatype Created = Created(tokens: seq<Token>, offset: int)

  predicate HasTemplate(key: KeyModel) {
    key.template.Some? && |key.template.value| > 0
  }

  /**
   * The offset after walking the template from item `i` on, starting from
   * `offset`: every flagged item sets it to its own position plus one.
   */
  function StopOffset(items: seq<TemplateItem>, i: nat, offset: int): (r: int)
    requires i <= |items|
    ensures (forall j :: i <= j < |items| ==> !items[j].isCursorStop) ==> r == offset
    ensures (exists j :: i <= j < |items| && items[j].isCursorStop) ==>
              i < r <= |items| && items[r - 1].isCursorStop &&
              forall j :: r <= j < |items| ==> !items[j].isCursorStop
    decreases |items| - i
  {
    if i == |items| then offset
    else StopOffset(items, i + 1, if items[i].isCursorStop then i + 1 else offset)
  }

  /** The tokens a key inserts and where the cursor lands among them. */
  function CreateTokens(key: KeyModel): (r: Created)
    ensures 1 <= r.offset <= |r.tokens|
    ensures HasTemplate(key) ==>
      |r.tokens| == |key.template.value| &&
      forall k :: 0 <= k < |r.tokens| ==>
        r.tokens[k] == Token(key.template.value[k].value, key.template.value[k].kind, None)
    ensures HasTemplate(key) && (exists j :: 0 <= j < |key.template.value| && key.template.value[j].isCursorStop) ==>
      key.template.value[r.offset - 1].isCursorStop &&
      forall j :: r.offset <= j < |key.template.value| ==> !key.template.value[j].isCursorStop
    ensures HasTemplate(key) && (forall j :: 0 <= j < |key.template.value| ==> !key.template.value[j].isCursorStop) ==>
      r.offset == |r.tokens|
    ensures !HasTemplate(key) ==>
      r.tokens == [Token(key.value, key.insertType.GetOr(Number), key.insertColor)] && r.offset == 1
  {
    if HasTemplate(key) then
      var items := key.template.value;
      var tokens := seq(|items|, k requires 0 <= k < |items| => Token(items[k].value, items[k].kind, None));
      var offset := StopOffset(items, 0, -1);
      Created(tokens, if offset == -1 then |tokens| else offset)
    else
      Created([Token(key.value, key.insertType.GetOr(Number), key.insertColor)], 1)
  }
}
