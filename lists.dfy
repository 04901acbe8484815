/**
  * Python lists of integers as the sorting code uses them: one object whose
  * contents are replaced in place, plus the reference notions the sort is
  * specified against (sortedness, the minimum and maximum, the spread, and
  * the unique sorted permutation `SortedOf`).
  */
module Lists {

  /** A Python `list` of `int`: a mutable object; `items` is its current contents. */
  class IntList {
    var items: seq<int>

    constructor (xs: seq<int>)
      ensures items == xs
    {
      items := xs;
    }

    /** `list.append(x)` */
    method Append(x: int)
      modifies this
      ensures items == old(items) + [x]
    {
      items := items + [x];
    }
  }

  /** Non-decreasing order. */
  ghost predicate Sorted(s: seq<int>) {
    forall i, j :: 0 <= i < j < |s| ==> s[i] <= s[j]
  }

  function Min(s: seq<int>): (m: int)
    requires |s| > 0
    ensures m in s && forall x :: x in s ==> m <= x
  {
    if |s| == 1 then s[0]
    else
      var m' := Min(s[1..]);
      assert s == [s[0]] + s[1..];
      if s[0] <= m' then s[0] else m'
  }

  function Max(s: seq<int>): (m: int)
    requires |s| > 0
    ensures m in s && forall x :: x in s ==> x <= m
  {
    if |s| == 1 then s[0]
    else
      var m' := Max(s[1..]);
      assert s == [s[0]] + s[1..];
      if s[0] >= m' then s[0] else m'
  }

  /** max - min of a list, 0 for the empty list: the bucket sort's termination measure. */
  function Spread(s: seq<int>): nat {
    if |s| == 0 then 0 else Max(s) - Min(s)
  }

  /** Insert `x` before the first element not smaller than it. */
  function Insert(x: int, s: seq<int>): seq<int> {
    if s == [] || x <= s[0] then [x] + s else [s[0]] + Insert(x, s[1..])
  }

  /** The reference sort (Python's `sorted`), as a functional insertion sort. */
  function SortedOf(s: seq<int>): seq<int> {
    if s == [] then [] else Insert(s[0], SortedOf(s[1..]))
  }

  /** Prepending an element no larger than any element keeps a list sorted. */
  lemma SortedCons(h: int, r: seq<int>)
    requires Sorted(r) && forall y :: y in r ==> h <= y
    ensures Sorted([h] + r)
  {
    var s := [h] + r;
    forall i, j | 0 <= i < j < |s| ensures s[i] <= s[j] {
      if i > 0 {
        assert s[i] == r[i - 1] && s[j] == r[j - 1];
      } else {
        assert s[j] == r[j - 1];
        assert r[j - 1] in r;
      }
    }
  }

  lemma {:induction false} InsertSpec(x: int, s: seq<int>)
    requires Sorted(s)
    ensures Sorted(Insert(x, s)) && multiset(Insert(x, s)) == multiset(s) + multiset{x}
  {
    if s == [] || x <= s[0] {
      HeadBound(s, x);
      SortedCons(x, s);
    } else {
      var h, t := s[0], s[1..];
      assert s == [h] + t;
      SortedTail(s);
      InsertSpec(x, t);
      var r := Insert(x, t);
      assert Insert(x, s) == [h] + r;
      HeadBound(s, h);
      assert forall y :: y in t ==> y in s;
      BoundThroughPermutation(h, t, x, r);
      SortedCons(h, r);
    }
  }

  /** A bound on a sorted list's head bounds all of it. */
  lemma HeadBound(s: seq<int>, x: int)
    requires Sorted(s) && (s == [] || x <= s[0])
    ensures forall y :: y in s ==> x <= y
  {
    forall y | y in s ensures x <= y {
      var k :| 0 <= k < |s| && s[k] == y;
      assert s[0] <= s[k];
    }
  }

  /** A lower bound of `t` and of `x` bounds every permutation of `t` plus `x`. */
  lemma BoundThroughPermutation(b: int, t: seq<int>, x: int, r: seq<int>)
    requires multiset(r) == multiset(t) + multiset{x}
    requires b <= x && forall y :: y in t ==> b <= y
    ensures forall y :: y in r ==> b <= y
  {
    forall y | y in r ensures b <= y {
      assert y in multiset(r);
      if y != x {
        assert y in multiset(t);
        assert y in t;
      }
    }
  }

  /** `SortedOf` is sorted and a permutation of its input. */
  lemma {:induction false} SortedOfSpec(s: seq<int>)
    ensures Sorted(SortedOf(s)) && multiset(SortedOf(s)) == multiset(s)
  {
    if s != [] {
      SortedOfSpec(s[1..]);
      InsertSpec(s[0], SortedOf(s[1..]));
      assert s == [s[0]] + s[1..];
    }
  }

  /** Two sorted lists with the same elements are equal. */
  lemma {:induction false} SortedUnique(a: seq<int>, b: seq<int>)
    requires Sorted(a) && Sorted(b) && multiset(a) == multiset(b)
    ensures a == b
  {
    if a == [] {
      assert |b| == |multiset(b)| == 0;
    } else {
      assert |b| == |multiset(b)| == |multiset(a)| == |a|;
      SameHead(a, b);
      SortedTail(a);
      SortedTail(b);
      TailPermutation(a, b);
      SortedUnique(a[1..], b[1..]);
      assert a == [a[0]] + a[1..];
      assert b == [b[0]] + b[1..];
    }
  }

  lemma SameHead(a: seq<int>, b: seq<int>)
    requires Sorted(a) && Sorted(b) && multiset(a) == multiset(b) && |a| > 0 && |b| > 0
    ensures a[0] == b[0]
  {
    assert a[0] in multiset(b);
    var j :| 0 <= j < |b| && b[j] == a[0];
    assert b[0] <= b[j];
    assert b[0] in multiset(a);
    var k :| 0 <= k < |a| && a[k] == b[0];
    assert a[0] <= a[k];
  }

  lemma TailPermutation(a: seq<int>, b: seq<int>)
    requires |a| > 0 && |b| > 0 && a[0] == b[0] && multiset(a) == multiset(b)
    ensures multiset(a[1..]) == multiset(b[1..])
  {
    assert a == [a[0]] + a[1..];
    assert b == [b[0]] + b[1..];
    assert multiset(a) == multiset{a[0]} + multiset(a[1..]);
    assert multiset(b) == multiset{a[0]} + multiset(b[1..]);
    assert multiset(a[1..]) == multiset(a) - multiset{a[0]};
    assert multiset(b[1..]) == multiset(b) - multiset{a[0]};
  }

  lemma SortedTail(a: seq<int>)
    requires Sorted(a) && |a| > 0
    ensures Sorted(a[1..])
  {
    forall i, j | 0 <= i < j < |a| - 1 ensures a[1..][i] <= a[1..][j] {
      assert a[1..][i] == a[i + 1] && a[1..][j] == a[j + 1];
    }
  }

  /** Any sorted permutation of `s` is `SortedOf(s)`: what `sorted(s)` returns. */
  lemma SortedPermutationIsSortedOf(a: seq<int>, s: seq<int>)
    requires Sorted(a) && multiset(a) == multiset(s)
    ensures a == SortedOf(s)
  {
    SortedOfSpec(s);
    SortedUnique(a, SortedOf(s));
  }

  /** A list whose minimum equals its maximum is constant, hence already sorted. */
  lemma ZeroSpreadSorted(s: seq<int>)
    requires Spread(s) == 0
    ensures Sorted(s)
  {
    if |s| > 0 {
      forall i, j | 0 <= i < j < |s| ensures s[i] <= s[j] {
        assert s[i] in s && s[j] in s;
      }
    }
  }

  /** Sorting a sorted list leaves it as it is, so sorting twice is sorting once. */
  lemma SortedOfIdempotent(s: seq<int>)
    ensures SortedOf(SortedOf(s)) == SortedOf(s)
  {
    SortedOfSpec(s);
    SortedPermutationIsSortedOf(SortedOf(s), SortedOf(s));
  }
}
