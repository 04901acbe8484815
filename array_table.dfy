/**
  * The table of stored arrays (lab-2-web/frontend/src/components/table/ArrayTable.js):
  * one row per record, in list order, with at most 30 elements of its data
  * shown. The two date columns are left out.
  */
module ArrayTable {
  import opened Options
  import opened Text
  import opened Decimal
  import opened Tokens
  import opened Api

  const PREVIEW_LENGTH := 30

  /** A rendered row: the id, the data preview, the sorted mark and the record a click hands to `onEdit`. */
  datatype Row = Row(id: int, preview: string, sortedMark: bool, record: Record)

  /** The data cell: all elements joined by ", ", or the first 30 and "...". */
  function Preview(data: seq<Cell>): (text: string)
    ensures |data| > PREVIEW_LENGTH ==> text == JoinCells(data[..PREVIEW_LENGTH], ", ") + "..."
    ensures |data| <= PREVIEW_LENGTH ==> text == JoinCells(data, ", ")
    ensures |data| > PREVIEW_LENGTH ==> EndsWith(text, "...")
  {
    if |data| > PREVIEW_LENGTH then JoinCells(data[..PREVIEW_LENGTH], ", ") + "..."
    else JoinCells(data, ", ")
  }

  /** `arrays.map(...)`: one row per record, in order; a click on row i edits record i. */
  function Rows(arrays: seq<Record>): (rows: seq<Row>)
    ensures |rows| == |arrays|
    ensures forall i :: 0 <= i < |arrays| ==>
      rows[i].record == arrays[i] && rows[i].id == arrays[i].id && rows[i].sortedMark == arrays[i].isSorted &&
      rows[i].preview == Preview(arrays[i].data)
  {
    seq(|arrays|, i requires 0 <= i < |arrays| =>
      Row(arrays[i].id, Preview(arrays[i].data), arrays[i].isSorted, arrays[i]))
  }

  /**
    * For stored data, which is numbers, the preview ends in "..." exactly
    * when elements were cut off.
    */
  lemma EllipsisIffCut(xs: seq<int>)
    ensures EndsWith(Preview(Nums(xs)), "...") <==> |xs| > PREVIEW_LENGTH
  {
    if |xs| <= PREVIEW_LENGTH {
      var p := Preview(Nums(xs));
      assert p == JoinCells(Nums(xs), ", ");
      if xs != [] {
        JoinedNumbersEnd(xs);
      }
      NoEllipsis(p);
    }
  }

  /** Numbers joined by ", " end with the last number's last digit. */
  lemma JoinedNumbersEnd(xs: seq<int>)
    requires xs != []
    ensures var j := JoinCells(Nums(xs), ", "); j != [] && j[|j| - 1] != '.'
  {
    var cells := Nums(xs);
    var texts := seq(|cells|, i requires 0 <= i < |cells| => CellText(cells[i]));
    var j, t := JoinCells(cells, ", "), texts[|texts| - 1];
    assert t == IntToString(xs[|xs| - 1]);
    NumberEndsInDigit(xs[|xs| - 1]);
    JoinLastChar(texts, ", ");
    assert j == Join(texts, ", ");
    assert j[|j| - 1] == t[|t| - 1];
  }

  lemma NumberEndsInDigit(x: int)
    ensures var t := IntToString(x); IsDigit(t[|t| - 1])
  {
    var t := IntToString(x);
    if x < 0 {
      assert t[|t| - 1] == t[1..][|t| - 2];
    }
  }

  lemma NoEllipsis(s: string)
    requires s == [] || s[|s| - 1] != '.'
    ensures !EndsWith(s, "...")
  {
    if |s| >= 3 {
      assert s[|s| - 3..][2] == s[|s| - 1];
    }
  }

  /** A join ends with the last character of its last piece. */
  lemma {:induction false} JoinLastChar(parts: seq<string>, sep: string)
    requires |parts| > 0 && parts[|parts| - 1] != []
    ensures var j, last := Join(parts, sep), parts[|parts| - 1]; j != [] && j[|j| - 1] == last[|last| - 1]
  {
    if |parts| > 1 {
      JoinLastChar(parts[1..], sep);
    }
  }

  /**
    * The numbers a preview shows read back: without its "...", the text cut
    * at each ',' gives one piece for each of the first (at most 30)
    * elements, and piece i, trimmed, is the decimal form of element i and
    * reads as it.
    */
  lemma {:induction false} PreviewReadsBack(xs: seq<int>, i: nat)
    requires i < |xs| && i < PREVIEW_LENGTH
    ensures var p := Preview(Nums(xs));
      var shown := if |xs| > PREVIEW_LENGTH then p[..|p| - 3] else p;
      var pieces := Split(shown, ',');
      && |pieces| == (if |xs| > PREVIEW_LENGTH then PREVIEW_LENGTH else |xs|)
      && Strip(pieces[i]) == IntToString(xs[i])
      && ParseInteger(Strip(pieces[i]), false) == Some(xs[i])
  {
    var k := if |xs| > PREVIEW_LENGTH then PREVIEW_LENGTH else |xs|;
    var p := Preview(Nums(xs));
    assert Nums(xs)[..k] == Nums(xs[..k]);
    CommaPieces(xs[..k], i);
    if |xs| > PREVIEW_LENGTH {
      assert p[..|p| - 3] == JoinCells(Nums(xs[..k]), ", ");
    } else {
      assert xs[..k] == xs;
    }
    ParseIntToString(xs[i], false);
  }

  /** Numbers joined by ", " and cut at each ',' give, trimmed, their decimal forms. */
  lemma {:induction false} CommaPieces(ys: seq<int>, i: nat)
    requires i < |ys|
    ensures var ps := Split(JoinCells(Nums(ys), ", "), ',');
      |ps| == |ys| && Strip(ps[i]) == IntToString(ys[i])
  {
    var ts := Decimals(ys);
    JoinCellsOfNums(ys, ", ");
    JoinCommaSpace(ts);
    SpacedCommaFree(ys);
    SplitJoin(Spaced(ts), ',');
    SpacedAt(ts, i);
    DecimalStrip(ys[i], i == 0);
  }

  /** The decimal forms of the numbers, in order. */
  function Decimals(ys: seq<int>): (ts: seq<string>)
    ensures |ts| == |ys| && forall i :: 0 <= i < |ys| ==> ts[i] == IntToString(ys[i])
  {
    seq(|ys|, i requires 0 <= i < |ys| => IntToString(ys[i]))
  }

  lemma {:induction false} JoinCellsOfNums(ys: seq<int>, sep: string)
    ensures JoinCells(Nums(ys), sep) == Join(Decimals(ys), sep)
  {
    var cells := Nums(ys);
    assert seq(|cells|, i requires 0 <= i < |cells| => CellText(cells[i])) == Decimals(ys);
  }

  lemma {:induction false} SpacedCommaFree(ys: seq<int>)
    requires ys != []
    ensures forall q :: q in Spaced(Decimals(ys)) ==> ',' !in q
  {
    var ps := Spaced(Decimals(ys));
    forall i | 0 <= i < |ys| ensures ',' !in ps[i] {
      SpacedAt(Decimals(ys), i);
      DecimalComma(ys[i], i == 0);
    }
  }

  /** A number's decimal form, bare or after a space, holds no comma. */
  lemma DecimalComma(y: int, first: bool)
    ensures ',' !in (if first then IntToString(y) else " " + IntToString(y))
  {
    IntToStringChars(y);
  }

  /** A number's decimal form, bare or after a space, trims to itself. */
  lemma DecimalStrip(y: int, first: bool)
    ensures Strip(if first then IntToString(y) else " " + IntToString(y)) == IntToString(y)
  {
    var t := IntToString(y);
    if first {
      IntToStringTrimmed(y);
    } else {
      IntToStringChars(y);
      StripAfterSpace(t);
    }
  }

  /** The pieces between the commas of a ", "-join: the first, then each later one after a space. */
  function Spaced(ts: seq<string>): (ps: seq<string>)
    requires |ts| > 0
    ensures |ps| == |ts|
  {
    [ts[0]] + seq(|ts| - 1, i requires 0 <= i < |ts| - 1 => " " + ts[i + 1])
  }

  lemma SpacedTail(ts: seq<string>)
    requires |ts| > 1
    ensures Spaced(ts)[1..] == [" " + Spaced(ts[1..])[0]] + Spaced(ts[1..])[1..]
  {
    var tail := ts[1..];
    var a := seq(|ts| - 1, i requires 0 <= i < |ts| - 1 => " " + ts[i + 1]);
    var b := seq(|tail| - 1, i requires 0 <= i < |tail| - 1 => " " + tail[i + 1]);
    assert Spaced(ts) == [ts[0]] + a;
    assert Spaced(tail) == [tail[0]] + b;
    assert a == [" " + tail[0]] + b;
  }

  lemma SpacedAt(ts: seq<string>, i: nat)
    requires i < |ts|
    ensures Spaced(ts)[i] == if i == 0 then ts[0] else " " + ts[i]
  {
  }

  /** Joining with ", " is joining with "," the pieces that, after the first, start with a space. */
  lemma {:induction false} JoinCommaSpace(ts: seq<string>)
    requires |ts| > 0
    ensures Join(ts, ", ") == Join(Spaced(ts), ",")
  {
    if |ts| > 1 {
      JoinCommaSpace(ts[1..]);
      var q := Spaced(ts[1..]);
      SpacedTail(ts);
      JoinPrefixed(" ", q, ",");
    }
  }

  lemma JoinPrefixed(s: string, q: seq<string>, sep: string)
    requires |q| > 0
    ensures Join([s + q[0]] + q[1..], sep) == s + Join(q, sep)
  {
    if |q| > 1 {
      assert ([s + q[0]] + q[1..])[1..] == q[1..];
    }
  }

  lemma StripAfterSpace(t: string)
    requires t != [] && forall c :: c in t ==> !IsSpace(c)
    ensures Strip(" " + t) == t
  {
    assert (" " + t)[1..] == t;
    assert t[0] in t;
    assert TrimStart(" " + t) == t;
    StripNoSpace(t);
  }
}
