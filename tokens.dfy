/**
  * The values a draft array holds in the web client, and the rule by which
  * the three text editors (KeyboardArrayForm.js, DatabaseArrayForm.js and
  * EditArrayModal.js, each with its own verbatim copy) turn the text of a
  * textarea into such values: split at every single space; keep "" and "-"
  * as they are, so that typing can go on; read a `^-?\d+$` piece as its
  * integer; read anything else as 0. Also the `Number` coercion applied
  * before an array is sent to the server.
  */
module Tokens {
  import opened Options
  import opened Text
  import opened Decimal

  /** A draft element: a number, or a string not (yet) read as one. */
  datatype Cell = Num(n: int) | Str(s: string)

  /** The rule applied to each space-separated piece. */
  function ParseToken(t: string): (c: Cell)
    ensures t == "" || t == "-" ==> c == Str(t)
    ensures t != "" && t != "-" ==> c.Num?
    ensures c.Num? && IsIntegerText(t, false) ==> ParseInteger(t, false) == Some(c.n)
    ensures c.Num? && !IsIntegerText(t, false) ==> c.n == 0
  {
    if t == "" || t == "-" then Str(t)
    else if IsIntegerText(t, false) then Num(ParseInteger(t, false).value)
    else Num(0)
  }

  /** `value.split(" ").map(rule)`: one value per piece, in order. */
  function ParseText(value: string): (cells: seq<Cell>)
    ensures |cells| == Count(value, ' ') + 1
    ensures forall i :: 0 <= i < |cells| ==> cells[i] == ParseToken(Split(value, ' ')[i])
  {
    var pieces := Split(value, ' ');
    seq(|pieces|, i requires 0 <= i < |pieces| => ParseToken(pieces[i]))
  }

  /** How `join` writes a value: a number in decimal, a string as it is. */
  function CellText(c: Cell): string {
    match c
    case Num(n) => IntToString(n)
    case Str(s) => s
  }

  /** `cells.join(sep)` */
  function JoinCells(cells: seq<Cell>, sep: string): string {
    Join(seq(|cells|, i requires 0 <= i < |cells| => CellText(cells[i])), sep)
  }

  /** A value the rule produced reads back as itself. */
  lemma ParseTokenOfText(c: Cell)
    requires Parsed(c)
    ensures ' ' !in CellText(c)
    ensures ParseToken(CellText(c)) == c
  {
    if c.Num? {
      var t := IntToString(c.n);
      IntToStringChars(c.n);
      ParseIntToString(c.n, false);
      assert IsIntegerText(t, false);
      assert t != "-" by {
        if c.n < 0 {
          assert |t| > 1;
        } else {
          assert IsDigit(t[0]);
        }
      }
    }
  }

  /** The values the rule can produce: placeholders and numbers. */
  predicate Parsed(c: Cell) {
    c == Str("") || c == Str("-") || c.Num?
  }

  /**
    * Values the rule could have produced, joined by single spaces, parse
    * back to themselves.
    */
  lemma ReparseJoined(cells: seq<Cell>)
    requires |cells| > 0 && forall i :: 0 <= i < |cells| ==> Parsed(cells[i])
    ensures ParseText(JoinCells(cells, " ")) == cells
  {
    var texts := seq(|cells|, i requires 0 <= i < |cells| => CellText(cells[i]));
    forall i | 0 <= i < |cells| ensures ' ' !in texts[i] && ParseToken(texts[i]) == cells[i] {
      ParseTokenOfText(cells[i]);
    }
    forall t | t in texts ensures ' ' !in t {
      var i :| 0 <= i < |texts| && texts[i] == t;
    }
    SplitJoin(texts, ' ');
    assert Split(JoinCells(cells, " "), ' ') == texts;
  }

  /**
    * The textareas show the values joined by single spaces and reparse the
    * text on every change, so what is shown reads back as the same values:
    * parsing is idempotent through the display.
    */
  lemma ReparseDisplayed(value: string)
    ensures ParseText(JoinCells(ParseText(value), " ")) == ParseText(value)
  {
    var cells := ParseText(value);
    assert forall i :: 0 <= i < |cells| ==> Parsed(cells[i]);
    ReparseJoined(cells);
  }

  /** Numbers as draft values. */
  function Nums(xs: seq<int>): (cells: seq<Cell>)
    ensures |cells| == |xs| && forall i :: 0 <= i < |xs| ==> cells[i] == Num(xs[i])
  {
    seq(|xs|, i requires 0 <= i < |xs| => Num(xs[i]))
  }

  /**
    * JavaScript's `Number(x)` on a draft value, as far as the model tells
    * numbers apart: an integer, or anything else (NaN and fractions).
    */
  datatype JsNumber = Int(value: int) | NotInteger

  /** `Number(x)`: a number stays itself; "" is 0; an integer text is its value; any other string is not an integer. */
  function ToNumber(c: Cell): (v: JsNumber)
    ensures c.Num? ==> v == Int(c.n)
    ensures c == Str("") ==> v == Int(0)
    ensures c == Str("-") ==> v == NotInteger
    ensures c.Str? && c.s != "" ==> (v.Int? <==> IsIntegerText(c.s, true))
  {
    match c
    case Num(n) => Int(n)
    case Str(s) =>
      if s == "" then Int(0)
      else match ParseInteger(s, true)
        case Some(n) => Int(n)
        case None => NotInteger
  }

  /** `cells.map(Number)` */
  function ToNumbers(cells: seq<Cell>): (vs: seq<JsNumber>)
    ensures |vs| == |cells| && forall i :: 0 <= i < |cells| ==> vs[i] == ToNumber(cells[i])
  {
    seq(|cells|, i requires 0 <= i < |cells| => ToNumber(cells[i]))
  }

  /** A decimal string, such as the random form produces, becomes the integer it spells. */
  lemma ToNumberOfDecimal(x: int)
    ensures ToNumber(Str(IntToString(x))) == Int(x)
  {
    ParseIntToString(x, true);
  }
}
