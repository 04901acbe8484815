/**
  * The keyboard input form
  * (lab-2-web/frontend/src/components/form/input/KeyboardArrayForm.js):
  * elements typed one at a time and appended on blur, or the whole array
  * typed into a textarea and reparsed on every change.
  */
module KeyboardArrayForm {
  import opened Options
  import opened Text
  import opened Tokens
  import opened Decimal
  import opened CreateArrayForm

  /** `handleWholeArrayInputChange`: flips the input mode and empties the draft. */
  method HandleWholeArrayInputChange(f: CreateForm)
    requires f.Valid() && f.fillMethod == Keyboard
    modifies f`isWholeArrayInput, f`draft
    ensures f.Valid()
    ensures f.isWholeArrayInput == !old(f.isWholeArrayInput) && f.draft == Elements([])
  {
    f.isWholeArrayInput := !f.isWholeArrayInput;
    f.draft := Elements([]);
  }

  /**
    * `handleInputChange` on the textarea named "data": the draft becomes an
    * object whose `data` is the parsed text (the spread of an array or of
    * such an object leaves no other field).
    */
  method HandleInputChange(f: CreateForm, value: string)
    requires f.Valid() && f.fillMethod == Keyboard && f.isWholeArrayInput
    modifies f`draft
    ensures f.Valid()
    ensures f.draft == WholeArray(ParseText(value))
    ensures |f.draft.data| == Count(value, ' ') + 1
  {
    f.draft := WholeArray(ParseText(value));
  }

  /**
    * What the textarea shows: the values joined by spaces, or "" while the
    * draft is still an array. Values the token rule could have produced
    * read back from the text as themselves.
    */
  function WholeText(d: Draft): (text: string)
    ensures d.Elements? ==> text == ""
    ensures d.WholeArray? && |d.data| > 0 && (forall i :: 0 <= i < |d.data| ==> Parsed(d.data[i])) ==>
      ParseText(text) == d.data
  {
    if d.WholeArray? then
      assert |d.data| > 0 && (forall i :: 0 <= i < |d.data| ==> Parsed(d.data[i])) ==>
        ParseText(JoinCells(d.data, " ")) == d.data
      by {
        if |d.data| > 0 && forall i :: 0 <= i < |d.data| ==> Parsed(d.data[i]) {
          ReparseJoined(d.data);
        }
      }
      JoinCells(d.data, " ")
    else ""
  }

  /** The number field's `onChange`. */
  method HandleCurrentElementChange(f: CreateForm, value: string)
    modifies f`currentElement
    ensures f.currentElement == value
  {
    f.currentElement := value;
  }

  /**
    * `handleInputBlur`: a non-empty current element is appended to the
    * draft, as the string it is, and cleared; an empty one changes nothing.
    */
  method HandleInputBlur(f: CreateForm)
    requires f.Valid() && f.fillMethod == Keyboard && !f.isWholeArrayInput
    modifies f`draft, f`currentElement
    ensures f.Valid() && f.currentElement == ""
    ensures old(f.currentElement) == "" ==> f.draft == old(f.draft)
    ensures old(f.currentElement) != "" ==> f.draft == Elements(old(f.draft.cells) + [Str(old(f.currentElement))])
  {
    if f.currentElement != "" {
      f.draft := Elements(f.draft.cells + [Str(f.currentElement)]);
      f.currentElement := "";
    }
  }

  /** Both submit buttons: `disabled={array.length === 0}`. */
  predicate ButtonsDisabled(d: Draft) {
    d.Length() == Some(0)
  }

  /**
    * Only the empty array disables the buttons: once the textarea has been
    * edited the draft is an object without a length and they are enabled.
    */
  lemma ButtonsDisabledIffEmpty(d: Draft)
    ensures ButtonsDisabled(d) <==> d == Elements([])
  {
    if ButtonsDisabled(d) {
      assert d.Elements? && |d.cells| == 0;
    }
  }

  /** An element typed as the decimal text of `x` is sent as the number `x`. */
  lemma TypedElementIsSent(cells: seq<Cell>, x: int)
    ensures Coerce(Elements(cells + [Str(IntToString(x))]), false) == Some(ToNumbers(cells) + [Int(x)])
  {
    ToNumberOfDecimal(x);
    var d := Elements(cells + [Str(IntToString(x))]);
    assert Coerce(d, false).value == ToNumbers(cells) + [Int(x)];
  }
}
