/**
  * String helpers shared by the Python and JavaScript code: whitespace
  * trimming (`str.strip`, `String.prototype.trim`), splitting on one
  * character (`str.split`, `String.prototype.split`), joining with a
  * separator (`Array.prototype.join`), suffix tests and lower-casing.
  * Strings are sequences of characters; only ASCII whitespace and ASCII
  * letters are given their special meaning.
  */
module Text {

  /** ASCII whitespace: space, tab, line feed, vertical tab, form feed, carriage return. */
  predicate IsSpace(c: char) {
    c == ' ' || c == '\t' || c == '\n' || c == '\U{000B}' || c == '\U{000C}' || c == '\r'
  }

  /** Drops leading whitespace. */
  function TrimStart(s: string): (r: string)
    ensures |r| <= |s| && r == s[|s| - |r|..]
    ensures forall i :: 0 <= i < |s| - |r| ==> IsSpace(s[i])
    ensures r != [] ==> !IsSpace(r[0])
  {
    if s != [] && IsSpace(s[0]) then TrimStart(s[1..]) else s
  }

  /** Drops trailing whitespace. */
  function TrimEnd(s: string): (r: string)
    ensures |r| <= |s| && r == s[..|r|]
    ensures forall i :: |r| <= i < |s| ==> IsSpace(s[i])
    ensures r != [] ==> !IsSpace(r[|r| - 1])
  {
    if s != [] && IsSpace(s[|s| - 1]) then TrimEnd(s[..|s| - 1]) else s
  }

  /** The number of whitespace characters in front of the first other character. */
  function LeadingSpaces(s: string): (k: nat)
    ensures k <= |s| && TrimStart(s) == s[k..]
    ensures forall i :: 0 <= i < k ==> IsSpace(s[i])
  {
    |s| - |TrimStart(s)|
  }

  /**
    * `str.strip()` / `String.prototype.trim()`: the part of `s` between its
    * leading and its trailing whitespace (see `StripSpec`).
    */
  function Strip(s: string): string {
    TrimEnd(TrimStart(s))
  }

  /**
    * Stripping removes exactly the leading whitespace and the trailing
    * whitespace: what remains is a slice of `s` that neither starts nor
    * ends with whitespace, and everything cut off around it is whitespace.
    */
  lemma StripSpec(s: string)
    ensures LeadingSpaces(s) + |Strip(s)| <= |s|
    ensures Strip(s) == s[LeadingSpaces(s)..LeadingSpaces(s) + |Strip(s)|]
    ensures forall i :: 0 <= i < LeadingSpaces(s) ==> IsSpace(s[i])
    ensures forall i :: LeadingSpaces(s) + |Strip(s)| <= i < |s| ==> IsSpace(s[i])
    ensures Strip(s) != [] ==> !IsSpace(Strip(s)[0]) && !IsSpace(Strip(s)[|Strip(s)| - 1])
  {
    var k, t, r := LeadingSpaces(s), TrimStart(s), Strip(s);
    assert r != [] ==> r[0] == t[0];
    TrailingSpaces(s, k, r);
  }

  lemma TrailingSpaces(s: string, k: nat, r: string)
    requires k <= |s| && r == TrimEnd(s[k..])
    ensures k + |r| <= |s| && r == s[k..k + |r|]
    ensures forall i :: k + |r| <= i < |s| ==> IsSpace(s[i])
  {
    var t := s[k..];
    forall i | k + |r| <= i < |s| ensures IsSpace(s[i]) {
      assert s[i] == t[i - k];
    }
  }

  /** A string with no whitespace at either end is its own stripped form. */
  lemma StripTrimmed(s: string)
    requires s != [] && !IsSpace(s[0]) && !IsSpace(s[|s| - 1])
    ensures Strip(s) == s
  {
    assert TrimStart(s) == s;
    assert TrimEnd(s) == s;
  }

  /** So is a string with no whitespace at all. */
  lemma StripNoSpace(s: string)
    requires forall c :: c in s ==> !IsSpace(c)
    ensures Strip(s) == s
  {
    if s != [] {
      assert s[0] in s && s[|s| - 1] in s;
      StripTrimmed(s);
    }
  }

  /** Number of occurrences of `c` in `s`. */
  function Count(s: string, c: char): nat {
    if s == [] then 0 else (if s[0] == c then 1 else 0) + Count(s[1..], c)
  }

  /**
    * `s.split(sep)` for a one-character separator: the maximal pieces between
    * separators, empty pieces included; the empty string gives `[""]`.
    */
  function Split(s: string, sep: char): (parts: seq<string>)
    ensures |parts| == Count(s, sep) + 1
    ensures forall p :: p in parts ==> sep !in p
  {
    if s == [] then [""]
    else
      var rest := Split(s[1..], sep);
      if s[0] == sep then [""] + rest
      else
        assert rest[0] in rest;
        assert forall p :: p in rest[1..] ==> p in rest;
        [[s[0]] + rest[0]] + rest[1..]
  }

  /** Two strings with a separator between them split as the first's pieces, then the second's. */
  lemma {:induction false} SplitConcat(a: string, b: string, sep: char)
    ensures Split(a + [sep] + b, sep) == Split(a, sep) + Split(b, sep)
  {
    var s := a + [sep] + b;
    if a == [] {
      assert s == [sep] + b && s[1..] == b;
    } else {
      assert s[0] == a[0] && s[1..] == a[1..] + [sep] + b;
      SplitConcat(a[1..], b, sep);
      if a[0] != sep {
        ExtendFirstPiece([a[0]], Split(a[1..], sep), Split(b, sep));
      }
    }
  }

  lemma ExtendFirstPiece(c: string, first: seq<string>, more: seq<string>)
    requires |first| > 0
    ensures [c + (first + more)[0]] + (first + more)[1..] == ([c + first[0]] + first[1..]) + more
  {
    assert (first + more)[0] == first[0];
    assert (first + more)[1..] == first[1..] + more;
  }

  /** A character the string does not hold is in none of its pieces. */
  lemma {:induction false} SplitAvoids(s: string, sep: char, c: char)
    requires c !in s
    ensures forall p :: p in Split(s, sep) ==> c !in p
  {
    if s != [] {
      assert c !in s[1..] by {
        assert forall d :: d in s[1..] ==> d in s;
      }
      SplitAvoids(s[1..], sep, c);
      var rest := Split(s[1..], sep);
      if s[0] != sep {
        assert rest[0] in rest;
        assert forall p :: p in rest[1..] ==> p in rest;
      }
    }
  }

  /** `parts.join(sep)`: the pieces with `sep` between neighbours. */
  function Join(parts: seq<string>, sep: string): string {
    if |parts| == 0 then ""
    else if |parts| == 1 then parts[0]
    else parts[0] + sep + Join(parts[1..], sep)
  }

  /** Joining the pieces of a split restores the string. */
  lemma {:induction false} JoinSplit(s: string, sep: char)
    ensures Join(Split(s, sep), [sep]) == s
  {
    if s != [] {
      JoinSplit(s[1..], sep);
      var rest := Split(s[1..], sep);
      if s[0] == sep {
        assert Split(s, sep) == [""] + rest;
        assert s == [s[0]] + s[1..];
      } else {
        var parts := Split(s, sep);
        assert parts == [[s[0]] + rest[0]] + rest[1..];
        if |rest| == 1 {
          assert s == [s[0]] + rest[0];
        } else {
          assert rest == [rest[0]] + rest[1..];
          assert Join(rest, [sep]) == rest[0] + [sep] + Join(rest[1..], [sep]);
          assert parts[1..] == rest[1..];
          assert s == [s[0]] + s[1..];
        }
      }
    }
  }

  /** Splitting a join of separator-free pieces gives the pieces back. */
  lemma {:induction false} SplitJoin(parts: seq<string>, sep: char)
    requires |parts| > 0
    requires forall p :: p in parts ==> sep !in p
    ensures Split(Join(parts, [sep]), sep) == parts
  {
    if |parts| == 1 {
      SplitPiece(parts[0], [], sep);
      assert parts[0] + [] == parts[0];
    } else {
      assert forall p :: p in parts[1..] ==> p in parts;
      SplitJoin(parts[1..], sep);
      var tail := Join(parts[1..], [sep]);
      assert Join(parts, [sep]) == parts[0] + ([sep] + tail);
      SplitPiece(parts[0], [sep] + tail, sep);
      assert ([sep] + tail)[1..] == tail;
    }
  }

  /** A separator-free piece in front of the rest extends the rest's first part. */
  lemma {:induction false} SplitPiece(p: string, rest: string, sep: char)
    requires sep !in p
    ensures rest == [] ==> Split(p + rest, sep) == [p]
    ensures rest != [] && rest[0] == sep ==> Split(p + rest, sep) == [p] + Split(rest[1..], sep)
  {
    if p == [] {
      assert p + rest == rest;
      if rest != [] && rest[0] == sep {
        assert Split(rest, sep) == [""] + Split(rest[1..], sep);
      }
    } else {
      assert sep !in p[1..] by {
        assert forall c :: c in p[1..] ==> c in p;
      }
      SplitPiece(p[1..], rest, sep);
      assert (p + rest)[1..] == p[1..] + rest;
      assert p == [p[0]] + p[1..];
    }
  }

  /** `s.endswith(suffix)` / `s.endsWith(suffix)`. */
  predicate EndsWith(s: string, suffix: string) {
    |suffix| <= |s| && s[|s| - |suffix|..] == suffix
  }

  /** Lower-cases ASCII letters and leaves every other character as it is. */
  function Lower(s: string): (r: string)
    ensures |r| == |s|
    ensures forall i :: 0 <= i < |s| ==> r[i] == LowerChar(s[i])
  {
    if s == [] then [] else [LowerChar(s[0])] + Lower(s[1..])
  }

  function LowerChar(c: char): char {
    if 'A' <= c <= 'Z' then (c as int + 32) as char else c
  }
}
