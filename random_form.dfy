/**
  * The random input form
  * (lab-2-web/frontend/src/components/form/input/RandomArrayForm.js): the
  * three fields are read with `parseInt`, checked in order (the first
  * failing check sets its message and leaves the draft alone), and a draft
  * of `count` decimal strings drawn from [min, max] is generated. Each
  * `Math.random()` draw is given as `draw(i)` for the i-th element.
  *
  * As written, the first check tests min and count for NaN but not max
  * (`CheckAsWritten`); with a max that is not a number the two count
  * checks still apply, but the min-not-below-max check passes, since a
  * comparison with NaN is false, and an accepted draft becomes `count`
  * copies of "NaN"; `HandleAddRandomArray` runs that chain.
  * `Check` is the intended chain, with max checked too, and
  * `HandleAddRandomArrayChecked` is the handler built on it.
  */
module RandomArrayForm {
  import opened Options
  import opened Text
  import opened Decimal
  import opened Tokens
  import opened Messages
  import opened CreateArrayForm

  /** Generation is limited to fewer than three million elements. */
  const COUNT_LIMIT := 3000000

  /**
    * The outcome of the checks: the first failing check's message, or the
    * values read, with None standing for a NaN maximum.
    */
  datatype Verdict = Rejected(msg: Msg) | Accepted(min: int, max: Option<int>, count: nat)

  /** The checks as the source writes them: max is never checked for NaN. */
  function CheckAsWritten(minValue: string, maxValue: string, numElements: string): (v: Verdict)
    ensures var minVal, maxVal, numElem := JsParseInt(minValue), JsParseInt(maxValue), JsParseInt(numElements);
      && (v == Rejected(NotNumbers) <==> minVal.None? || numElem.None?)
      && (v == Rejected(CountNotPositive) <==> minVal.Some? && numElem.Some? && numElem.value <= 0)
      && (v == Rejected(CountTooLarge) <==>
            minVal.Some? && numElem.Some? && numElem.value > 0 && numElem.value >= COUNT_LIMIT)
      && (v == Rejected(MaxNotAboveMin) <==>
            minVal.Some? && maxVal.Some? && numElem.Some? && 0 < numElem.value < COUNT_LIMIT &&
            minVal.value >= maxVal.value)
      && (v.Accepted? ==>
            v == Accepted(minVal.value, maxVal, numElem.value) && (v.max.Some? ==> v.min < v.max.value) &&
            0 < v.count < COUNT_LIMIT)
  {
    var minVal := JsParseInt(minValue);
    var maxVal := JsParseInt(maxValue);
    var numElem := JsParseInt(numElements);
    if minVal.None? || numElem.None? then Rejected(NotNumbers)
    else if numElem.value <= 0 then Rejected(CountNotPositive)
    else if numElem.value >= COUNT_LIMIT then Rejected(CountTooLarge)
    else if maxVal.Some? && minVal.value >= maxVal.value then Rejected(MaxNotAboveMin)
    else Accepted(minVal.value, maxVal, numElem.value)
  }

  /**
    * The checks in order, the first failure winning: any field not a number;
    * a count not above 0; a count of three million or more; a minimum not
    * below the maximum.
    */
  function Check(minValue: string, maxValue: string, numElements: string): (v: Verdict)
    ensures var minVal, maxVal, numElem := JsParseInt(minValue), JsParseInt(maxValue), JsParseInt(numElements);
      && (v == Rejected(NotNumbers) <==> minVal.None? || maxVal.None? || numElem.None?)
      && (v == Rejected(CountNotPositive) <==> minVal.Some? && maxVal.Some? && numElem.Some? && numElem.value <= 0)
      && (v == Rejected(CountTooLarge) <==>
            minVal.Some? && maxVal.Some? && numElem.Some? && numElem.value > 0 && numElem.value >= COUNT_LIMIT)
      && (v == Rejected(MaxNotAboveMin) <==>
            minVal.Some? && maxVal.Some? && numElem.Some? && 0 < numElem.value < COUNT_LIMIT &&
            minVal.value >= maxVal.value)
      && (v.Accepted? ==>
            v == Accepted(minVal.value, maxVal, numElem.value) && v.max.Some? && v.min < v.max.value &&
            0 < v.count < COUNT_LIMIT)
  {
    var minVal := JsParseInt(minValue);
    var maxVal := JsParseInt(maxValue);
    var numElem := JsParseInt(numElements);
    if minVal.None? || maxVal.None? || numElem.None? then Rejected(NotNumbers)
    else if numElem.value <= 0 then Rejected(CountNotPositive)
    else if numElem.value >= COUNT_LIMIT then Rejected(CountTooLarge)
    else if minVal.value >= maxVal.value then Rejected(MaxNotAboveMin)
    else Accepted(minVal.value, maxVal, numElem.value)
  }

  /** The two chains agree whenever the maximum is a number. */
  lemma ChecksAgreeOnNumericMax(minValue: string, maxValue: string, numElements: string)
    requires JsParseInt(maxValue).Some?
    ensures CheckAsWritten(minValue, maxValue, numElements) == Check(minValue, maxValue, numElements)
  {
  }

  /** `Math.floor(draw * (max - min + 1) + min)` for a draw in [0, 1): always in [min, max]. */
  function Pick(draw: real, min: int, max: int): (v: int)
    requires 0.0 <= draw < 1.0 && min <= max
    ensures min <= v <= max
  {
    var span := (max - min + 1) as real;
    assert 0.0 <= draw * span < span by {
      assert draw * span < 1.0 * span;
    }
    (draw * span + min as real).Floor
  }

  /** A draw sequence as `Math.random()` yields it. */
  ghost predicate Draws(draw: nat -> real) {
    forall i: nat :: 0.0 <= draw(i) < 1.0
  }

  /**
    * The generated draft: `count` strings, each the decimal text of one
    * pick, or "NaN" when the maximum is not a number.
    */
  function Generated(v: Verdict, draw: nat -> real): (cells: seq<Cell>)
    requires v.Accepted? && (v.max.Some? ==> v.min < v.max.value) && Draws(draw)
    ensures |cells| == v.count
    ensures v.max.None? ==> forall i :: 0 <= i < |cells| ==> cells[i] == Str("NaN")
    ensures v.max.Some? ==> forall i :: 0 <= i < |cells| ==> InRange(cells[i], v.min, v.max.value)
  {
    var cells := seq(v.count, i requires 0 <= i < v.count =>
      if v.max.None? then Str("NaN") else Str(IntToString(Pick(draw(i), v.min, v.max.value))));
    forall i | 0 <= i < |cells| && v.max.Some? ensures InRange(cells[i], v.min, v.max.value) {
      ToNumberOfDecimal(Pick(draw(i), v.min, v.max.value));
    }
    cells
  }

  /** A string that `Number` reads as an integer between the bounds. */
  predicate InRange(c: Cell, min: int, max: int) {
    c.Str? && ToNumber(c).Int? && min <= ToNumber(c).value <= max
  }

  /**
    * `handleAddRandomArray` as written: on a failed check only the error is
    * set; on success the draft is replaced by the generated strings and the
    * error is cleared. A maximum that is not a number reaches the draft as
    * `count` copies of "NaN".
    */
  method HandleAddRandomArray(f: CreateForm, draw: nat -> real)
    requires f.Valid() && f.fillMethod == Random && Draws(draw)
    modifies f`draft, f`error
    ensures f.Valid()
    ensures var v := CheckAsWritten(f.minValue, f.maxValue, f.numElements);
      && (v.Rejected? ==> f.error == Some(v.msg) && f.draft == old(f.draft))
      && (v.Accepted? ==> f.error == None && f.draft == Elements(Generated(v, draw)))
      && (v.Accepted? ==> 0 < |f.draft.cells| < COUNT_LIMIT)
  {
    var v := CheckAsWritten(f.minValue, f.maxValue, f.numElements);
    match v {
      case Rejected(msg) =>
        f.error := Some(msg);
      case Accepted(_, _, _) =>
        f.draft := Elements(Generated(v, draw));
        f.error := None;
    }
  }

  /**
    * The handler with the intended chain: a maximum that is not a number is
    * rejected like the other two fields, so every accepted draft holds
    * integers in [min, max] (see `RandomDraftIsSent`).
    */
  method HandleAddRandomArrayChecked(f: CreateForm, draw: nat -> real)
    requires f.Valid() && f.fillMethod == Random && Draws(draw)
    modifies f`draft, f`error
    ensures f.Valid()
    ensures var v := Check(f.minValue, f.maxValue, f.numElements);
      && (v.Rejected? ==> f.error == Some(v.msg) && f.draft == old(f.draft))
      && (v.Accepted? ==> f.error == None && f.draft == Elements(Generated(v, draw)))
  {
    var v := Check(f.minValue, f.maxValue, f.numElements);
    if v.Rejected? {
      f.error := Some(v.msg);
      return;
    }
    f.draft := Elements(Generated(v, draw));
    f.error := None;
  }

  /**
    * Every element of an accepted random draft is sent as an integer in
    * [min, max], and there are `count` of them.
    */
  lemma RandomDraftIsSent(minValue: string, maxValue: string, numElements: string, draw: nat -> real)
    requires Check(minValue, maxValue, numElements).Accepted? && Draws(draw)
    ensures var v := Check(minValue, maxValue, numElements);
      var sent := Coerce(Elements(Generated(v, draw)), false);
      && sent.Some? && |sent.value| == v.count
      && forall i :: 0 <= i < v.count ==> sent.value[i].Int? && v.min <= sent.value[i].value <= v.max.value
  {
    var v := Check(minValue, maxValue, numElements);
    var cells := Generated(v, draw);
    assert forall i :: 0 <= i < |cells| ==> InRange(cells[i], v.min, v.max.value);
  }

  /**
    * The finding: min "1", max "" (NaN) and count "10" pass every check as
    * written, and the draft becomes ten "NaN" strings, which `Number` turns
    * into non-integers; the intended chain rejects the same fields.
    */
  lemma MaxNotANumberSlipsThrough(minValue: string, maxValue: string, numElements: string, draw: nat -> real)
    requires minValue == "1" && maxValue == "" && numElements == "10" && Draws(draw)
    ensures CheckAsWritten(minValue, maxValue, numElements) == Accepted(1, None, 10)
    ensures forall i :: 0 <= i < 10 ==> Generated(Accepted(1, None, 10), draw)[i] == Str("NaN")
    ensures ToNumber(Str("NaN")) == NotInteger
    ensures Check(minValue, maxValue, numElements) == Rejected(NotNumbers)
  {
    ReadsDigits(minValue, 1);
    ReadsDigits(numElements, 10);
    assert JsParseInt(maxValue).None?;
    NaNIsNotInteger(Str("NaN"));
  }

  /**
    * A maximum that is not a number does not skip the count checks: min
    * "1", max "" and count "0" are rejected with the count message by the
    * chain as written.
    */
  lemma CountCheckedDespiteNaNMax(minValue: string, maxValue: string, numElements: string)
    requires minValue == "1" && maxValue == "" && numElements == "0"
    ensures CheckAsWritten(minValue, maxValue, numElements) == Rejected(CountNotPositive)
  {
    ReadsDigits(minValue, 1);
    ReadsDigits(numElements, 0);
  }

  lemma ReadsDigits(s: string, n: nat)
    requires (s == "0" && n == 0) || (s == "1" && n == 1) || (s == "10" && n == 10)
    ensures JsParseInt(s) == Some(n)
  {
    assert IntToString(n) + [] == s;
    JsParseIntPrefix(n, []);
  }

  lemma NaNIsNotInteger(c: Cell)
    requires c == Str("NaN")
    ensures ToNumber(c) == NotInteger
  {
    assert !IsDigit(c.s[0]) && c.s[0] != '-' && c.s[0] != '+';
  }
}
