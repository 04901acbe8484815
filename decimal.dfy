/**
  * Decimal integer text, as the two languages read and write it: Python's
  * `str(int)` and `int(text)`, JavaScript's `String(number)`,
  * `parseInt(text)` and the `^-?\d+$` test. Only ASCII digits and an
  * optional leading sign are modelled.
  */
module Decimal {
  import opened Options
  import opened Text

  predicate IsDigit(c: char) {
    '0' <= c <= '9'
  }

  predicate AllDigits(s: string) {
    forall i :: 0 <= i < |s| ==> IsDigit(s[i])
  }

  function DigitChar(d: int): (c: char)
    requires 0 <= d < 10
    ensures IsDigit(c) && c as int - '0' as int == d
  {
    ('0' as int + d) as char
  }

  /** The value of a string of decimal digits, most significant first. */
  function DigitsValue(s: string): nat
    requires AllDigits(s)
  {
    if s == [] then 0 else DigitsValue(s[..|s| - 1]) * 10 + (s[|s| - 1] as int - '0' as int)
  }

  /**
    * The canonical decimal form of a natural number: digits only, no
    * leading zero except for "0" itself, and reading it back gives `n`.
    */
  function NatToString(n: nat): (r: string)
    ensures |r| > 0 && AllDigits(r) && DigitsValue(r) == n
    ensures r[0] == '0' ==> r == "0"
    decreases n
  {
    if n < 10 then [DigitChar(n)]
    else
      var r := NatToString(n / 10) + [DigitChar(n % 10)];
      assert r[..|r| - 1] == NatToString(n / 10);
      r
  }

  /** `str(i)` in Python, `String(i)` in JavaScript: a minus sign for negatives, then the digits. */
  function IntToString(i: int): (r: string)
    ensures |r| > 0 && (r[0] == '-' <==> i < 0)
    ensures i < 0 ==> AllDigits(r[1..]) && |r| > 1 && DigitsValue(r[1..]) == -i
    ensures i >= 0 ==> AllDigits(r) && DigitsValue(r) == i
  {
    if i < 0 then
      var r := "-" + NatToString(-i);
      assert r[1..] == NatToString(-i);
      r
    else NatToString(i)
  }

  /** The text of an integer never holds whitespace, a comma, a dot or a plus sign. */
  lemma IntToStringChars(i: int)
    ensures forall c :: c in IntToString(i) ==> IsDigit(c) || c == '-'
  {
    var r := IntToString(i);
    forall c | c in r ensures IsDigit(c) || c == '-' {
      var k :| 0 <= k < |r| && r[k] == c;
      if i < 0 && k > 0 {
        assert r[k] == r[1..][k - 1];
      }
    }
  }

  /** The text of an integer has no whitespace to strip. */
  lemma IntToStringTrimmed(i: int)
    ensures Strip(IntToString(i)) == IntToString(i)
  {
    var r := IntToString(i);
    IntToStringChars(i);
    assert forall c :: c in r ==> !IsSpace(c);
    StripNoSpace(r);
  }

  /**
    * An optional sign followed by one or more digits: the `^-?\d+$` pattern
    * when `allowPlus` is false, Python's `int(text)` and JavaScript's
    * `Number(text)` when it is true.
    */
  predicate IsIntegerText(s: string, allowPlus: bool) {
    (|s| > 0 && AllDigits(s)) ||
    (|s| > 1 && (s[0] == '-' || (allowPlus && s[0] == '+')) && AllDigits(s[1..]))
  }

  /** The value of an integer text, or None when the text is not one. */
  function ParseInteger(s: string, allowPlus: bool): (r: Option<int>)
    ensures r.Some? <==> IsIntegerText(s, allowPlus)
    ensures r.Some? && |s| > 0 && s[0] == '-' ==> r.value <= 0
    ensures r.Some? && s[0] != '-' ==> r.value >= 0
  {
    if |s| > 1 && s[0] == '-' && AllDigits(s[1..]) then Some(-(DigitsValue(s[1..]) as int))
    else if |s| > 1 && allowPlus && s[0] == '+' && AllDigits(s[1..]) then Some(DigitsValue(s[1..]))
    else if |s| > 0 && AllDigits(s) then Some(DigitsValue(s))
    else None
  }

  /** Reading back the text of an integer gives the integer, with or without `+` allowed. */
  lemma ParseIntToString(x: int, allowPlus: bool)
    ensures ParseInteger(IntToString(x), allowPlus) == Some(x)
  {
    var r := IntToString(x);
    if x >= 0 {
      assert r[0] != '-';
      assert r[0] != '+' by {
        assert IsDigit(r[0]);
      }
    }
  }

  /** The longest prefix of `s` made of digits. */
  function DigitPrefix(s: string): (p: string)
    ensures |p| <= |s| && p == s[..|p|] && AllDigits(p)
    ensures |p| < |s| ==> !IsDigit(s[|p|])
  {
    if s != [] && IsDigit(s[0]) then
      var p := [s[0]] + DigitPrefix(s[1..]);
      assert forall i :: 1 <= i < |p| ==> p[i] == DigitPrefix(s[1..])[i - 1];
      p
    else []
  }

  /** A digit, or a sign and a digit, at the start of `t`. */
  predicate StartsWithNumber(t: string) {
    (|t| > 0 && IsDigit(t[0])) || (|t| > 1 && (t[0] == '-' || t[0] == '+') && IsDigit(t[1]))
  }

  /**
    * JavaScript's `parseInt(text)`: skips leading whitespace, reads an
    * optional sign and then as many digits as follow; None stands for NaN,
    * the result when no digit follows.
    */
  function JsParseInt(s: string): (r: Option<int>)
    ensures r.Some? <==> StartsWithNumber(TrimStart(s))
  {
    var t := TrimStart(s);
    if t != [] && (t[0] == '-' || t[0] == '+') then
      var d := DigitPrefix(t[1..]);
      assert d != [] ==> t[1] == d[0];
      if d == [] then None
      else if t[0] == '-' then Some(-(DigitsValue(d) as int))
      else Some(DigitsValue(d))
    else
      var d := DigitPrefix(t);
      if d == [] then None else Some(DigitsValue(d))
  }

  /** On an integer text `parseInt` agrees with the strict reading. */
  lemma JsParseIntOfIntegerText(s: string)
    requires IsIntegerText(s, true)
    ensures JsParseInt(s) == ParseInteger(s, true)
  {
    assert !IsSpace(s[0]) by {
      if s[0] != '-' && s[0] != '+' {
        assert IsDigit(s[0]);
      }
    }
    assert TrimStart(s) == s;
    if s[0] == '-' || s[0] == '+' {
      AllDigitsPrefix(s[1..]);
    } else {
      AllDigitsPrefix(s);
    }
  }

  lemma AllDigitsPrefix(s: string)
    requires AllDigits(s)
    ensures DigitPrefix(s) == s
  {
  }

  /** `parseInt` reads the leading integer and ignores what follows it: "12abc" gives 12, "3.7" gives 3. */
  lemma JsParseIntPrefix(x: int, rest: string)
    requires rest == [] || !IsDigit(rest[0])
    ensures JsParseInt(IntToString(x) + rest) == Some(x)
  {
    var r := IntToString(x);
    var s := r + rest;
    if x < 0 {
      assert s[0] == '-' && !IsSpace(s[0]);
      assert TrimStart(s) == s;
      assert s[1..] == r[1..] + rest;
      DigitPrefixOf(r[1..], rest);
    } else {
      assert IsDigit(r[0]) && s[0] == r[0] && !IsSpace(s[0]);
      assert TrimStart(s) == s;
      DigitPrefixOf(r, rest);
    }
  }

  lemma {:induction false} DigitPrefixOf(d: string, rest: string)
    requires AllDigits(d) && (rest == [] || !IsDigit(rest[0]))
    ensures DigitPrefix(d + rest) == d
  {
    if d != [] {
      assert (d + rest)[1..] == d[1..] + rest;
      DigitPrefixOf(d[1..], rest);
      assert d == [d[0]] + d[1..];
    } else {
      assert d + rest == rest;
    }
  }
}
