/**
  * The server-side bucket sort (lab-2-web/backend/bucket/sorting.py):
  * `get_min_max`, `insertion_sort` and `bucket_sort`, each working in place on
  * a Python list. Buckets are fresh lists; a bucket of more than 32 items is
  * sorted by a recursive call whose result is discarded, so the bucket is
  * sorted only because the recursive call overwrites it in place.
  */
module BucketSorting {
  import opened Options
  import opened Lists

  /** Buckets of at most this many items are insertion-sorted, larger ones recursed on. */
  const INSERTION_SORT_LIMIT := 32

  /**
    * `get_min_max`: (None, None) for an empty list, otherwise two elements of
    * the list bounding every element.
    */
  method GetMinMax(list: IntList) returns (lo: Option<int>, hi: Option<int>)
    ensures |list.items| == 0 ==> lo == None && hi == None
    ensures |list.items| > 0 ==>
      lo.Some? && hi.Some? && lo.value in list.items && hi.value in list.items &&
      forall x :: x in list.items ==> lo.value <= x <= hi.value
  {
    if |list.items| == 0 {
      return None, None;
    }
    var s := list.items;
    var minValue, maxValue := s[0], s[0];
    var i := 0;
    while i < |s|
      invariant 0 <= i <= |s|
      invariant minValue in s && maxValue in s && minValue <= maxValue
      invariant forall k :: 0 <= k < i ==> minValue <= s[k] <= maxValue
    {
      var item := s[i];
      if item < minValue {
        minValue := item;
      } else if item > maxValue {
        maxValue := item;
      }
      i := i + 1;
    }
    return Some(minValue), Some(maxValue);
  }

  /**
    * `insertion_sort`: sorts the list in place (shifting larger elements one
    * place right) and returns the same list.
    */
  method InsertionSort(list: IntList) returns (r: IntList)
    modifies list
    ensures r == list
    ensures Sorted(list.items) && multiset(list.items) == multiset(old(list.items))
  {
    var n := |list.items|;
    var i := 1;
    if n == 0 {
      return list;
    }
    while i < n
      invariant 1 <= i <= n == |list.items|
      invariant Sorted(list.items[..i])
      invariant multiset(list.items) == multiset(old(list.items))
    {
      ghost var cur := list.items;
      ghost var p := ShiftInsert(list, i);
      ShiftedLayout(cur, list.items, i, p);
      InsertStep(cur, list.items, i, p);
      i := i + 1;
    }
    return list;
  }

  /**
    * One pass of the outer loop: `element = array[i]`, the larger elements
    * before it shifted one place right, and the element written at the gap
    * `p` the shifting stops at; everything else stays where it was.
    */
  method ShiftInsert(list: IntList, i: int) returns (ghost p: int)
    requires 0 < i < |list.items|
    modifies list
    ensures 0 <= p <= i && |list.items| == |old(list.items)|
    ensures forall k :: 0 <= k < p ==> list.items[k] == old(list.items[k])
    ensures list.items[p] == old(list.items[i])
    ensures forall k :: p + 1 <= k <= i ==> list.items[k] == old(list.items[k - 1])
    ensures forall k :: i < k < |list.items| ==> list.items[k] == old(list.items[k])
    ensures forall k :: p <= k < i ==> old(list.items[k]) > old(list.items[i])
    ensures p > 0 ==> old(list.items[p - 1]) <= old(list.items[i])
  {
    ghost var cur := list.items;
    var n := |list.items|;
    var element := list.items[i];
    var pos := i - 1;
    while pos >= 0 && list.items[pos] > element
      invariant -1 <= pos < i
      invariant |list.items| == n
      invariant forall k :: 0 <= k <= pos ==> list.items[k] == cur[k]
      invariant forall k :: pos + 2 <= k <= i ==> list.items[k] == cur[k - 1]
      invariant forall k :: i < k < n ==> list.items[k] == cur[k]
      invariant forall k :: pos + 1 <= k < i ==> cur[k] > element
    {
      list.items := list.items[pos + 1 := list.items[pos]];
      pos := pos - 1;
    }
    list.items := list.items[pos + 1 := element];
    p := pos + 1;
  }

  /**
    * One outer step of the insertion sort: the element taken from position
    * `i` is put back at `p`, after the sorted elements not above it and
    * before those above it.
    */
  lemma InsertStep(cur: seq<int>, next: seq<int>, i: int, p: int)
    requires 0 <= p <= i < |cur| == |next|
    requires Sorted(cur[..i])
    requires next == cur[..p] + [cur[i]] + cur[p..i] + cur[i + 1..]
    requires forall k :: p <= k < i ==> cur[k] > cur[i]
    requires p > 0 ==> cur[p - 1] <= cur[i]
    ensures Sorted(next[..i + 1])
    ensures multiset(next) == multiset(cur)
  {
    InsertStepPermutes(cur, next, i, p);
    InsertStepSorts(cur, next, i, p);
  }

  /** The pointwise layout left by the shifting loop, as a concatenation. */
  lemma ShiftedLayout(cur: seq<int>, next: seq<int>, i: int, p: int)
    requires 0 <= p <= i < |cur| == |next|
    requires forall k :: 0 <= k < p ==> next[k] == cur[k]
    requires next[p] == cur[i]
    requires forall k :: p + 1 <= k <= i ==> next[k] == cur[k - 1]
    requires forall k :: i < k < |cur| ==> next[k] == cur[k]
    ensures next == cur[..p] + [cur[i]] + cur[p..i] + cur[i + 1..]
  {
    var r := cur[..p] + [cur[i]] + cur[p..i] + cur[i + 1..];
    assert |r| == |next|;
    forall k | 0 <= k < |r| ensures r[k] == next[k] {
      if k < p {
      } else if k == p {
      } else if k <= i {
        assert r[k] == cur[p..i][k - p - 1];
      } else {
        assert r[k] == cur[i + 1..][k - i - 1];
      }
    }
  }

  lemma InsertStepPermutes(cur: seq<int>, next: seq<int>, i: int, p: int)
    requires 0 <= p <= i < |cur| == |next|
    requires next == cur[..p] + [cur[i]] + cur[p..i] + cur[i + 1..]
    ensures multiset(next) == multiset(cur)
  {
    var a, b, c, e := cur[..p], cur[p..i], cur[i + 1..], cur[i];
    assert cur == a + b + [e] + c by {
      assert cur == cur[..i] + [cur[i]] + cur[i + 1..];
      assert cur[..i] == a + b;
    }
  }

  lemma InsertStepSorts(cur: seq<int>, next: seq<int>, i: int, p: int)
    requires 0 <= p <= i < |cur| == |next|
    requires Sorted(cur[..i])
    requires next == cur[..p] + [cur[i]] + cur[p..i] + cur[i + 1..]
    requires forall k :: p <= k < i ==> cur[k] > cur[i]
    requires p > 0 ==> cur[p - 1] <= cur[i]
    ensures Sorted(next[..i + 1])
  {
    var a, b, e := cur[..p], cur[p..i], cur[i];
    LayoutPrefix(cur, next, i, p);
    assert cur[..i] == a + b;
    forall k | 0 <= k < |b| ensures e < b[k] {
      assert b[k] == cur[p + k];
    }
    SortedInsertMiddle(a, e, b);
  }

  lemma LayoutPrefix(cur: seq<int>, next: seq<int>, i: int, p: int)
    requires 0 <= p <= i < |cur| == |next|
    requires next == cur[..p] + [cur[i]] + cur[p..i] + cur[i + 1..]
    ensures next[..i + 1] == cur[..p] + [cur[i]] + cur[p..i]
  {
    var front := cur[..p] + [cur[i]] + cur[p..i];
    assert next == front + cur[i + 1..];
    assert |front| == i + 1;
  }

  lemma SortedInsertMiddle(a: seq<int>, e: int, b: seq<int>)
    requires Sorted(a + b)
    requires |a| > 0 ==> a[|a| - 1] <= e
    requires forall k :: 0 <= k < |b| ==> e < b[k]
    ensures Sorted(a + [e] + b)
  {
    var ab, s := a + b, a + [e] + b;
    forall x, y | 0 <= x < y < |s| ensures s[x] <= s[y] {
      if y < |a| {
        assert s[x] == ab[x] && s[y] == ab[y];
      } else if y == |a| {
        assert s[x] == ab[x] && ab[x] <= ab[|a| - 1];
      } else if x < |a| {
        assert s[x] == ab[x] && s[y] == ab[y - 1];
      } else if x == |a| {
        assert s[y] == b[y - |a| - 1];
      } else {
        assert s[x] == ab[x - 1] && s[y] == ab[y - 1];
      }
    }
  }

  /**
    * The bucket an item goes to: `n * (item - min) // (max - min + 1)`. With
    * min <= item <= max, min < max and n >= 1 it lies in [0, n).
    */
  function BucketIndex(n: int, item: int, lo: int, hi: int): (k: int)
    requires n >= 1 && lo <= item <= hi && lo < hi
    ensures 0 <= k < n
  {
    MulBelow(n, item - lo, hi - lo + 1);
    (n * (item - lo)) / (hi - lo + 1)
  }

  /** n * a < n * d when 0 <= a < d and n >= 1, so (n * a) / d < n. */
  lemma MulBelow(n: int, a: int, d: int)
    requires n >= 1 && 0 <= a < d
    ensures 0 <= n * a < n * d && 0 <= (n * a) / d < n
  {
    assert n * a < n * d by {
      assert n * (d - a) >= 1 * (d - a) by { MulMono(1, n, d - a); }
    }
    DivBelow(n * a, d, n);
  }

  lemma MulMono(x: int, y: int, c: int)
    requires x <= y && c >= 0
    ensures x * c <= y * c
  {
  }

  lemma DivBelow(a: int, d: int, n: int)
    requires 0 <= a < n * d && d > 0
    ensures 0 <= a / d < n
  {
    var q := a / d;
    assert d * q <= a;
    MulCancel(d, q, n);
  }

  lemma MulCancel(d: int, q: int, n: int)
    requires d > 0 && d * q < d * n
    ensures q < n
  {
  }

  /** Larger items never go to an earlier bucket. */
  lemma BucketIndexMonotone(n: int, x: int, y: int, lo: int, hi: int)
    requires n >= 1 && lo <= x <= y <= hi && lo < hi
    ensures BucketIndex(n, x, lo, hi) <= BucketIndex(n, y, lo, hi)
  {
    var d := hi - lo + 1;
    MulMono(x - lo, y - lo, n);
    assert n * (x - lo) <= n * (y - lo);
    DivMono(n * (x - lo), n * (y - lo), d);
  }

  lemma DivMono(a: int, b: int, d: int)
    requires 0 <= a <= b && d > 0
    ensures a / d <= b / d
  {
    var qa, qb := a / d, b / d;
    assert d * qa <= a && b < d * qb + d;
    assert d * qa < d * (qb + 1);
    MulCancel(d, qa, qb + 1);
  }

  /** With n >= 2 the minimum goes to bucket 0 and the maximum to a later one. */
  lemma ExtremesSplit(n: int, lo: int, hi: int)
    requires n >= 2 && lo < hi
    ensures BucketIndex(n, lo, lo, hi) == 0
    ensures BucketIndex(n, hi, lo, hi) >= 1
  {
    var d := hi - lo + 1;
    MulMono(2, n, hi - lo);
    assert n * (hi - lo) >= d;
    DivMono(d, n * (hi - lo), d);
  }

  /** Every item of `s` lies in [lo, hi] and goes to bucket `k`. */
  ghost predicate InBucket(s: seq<int>, n: int, k: int, lo: int, hi: int)
    requires n >= 1 && lo < hi
  {
    forall x :: x in s ==> lo <= x <= hi && BucketIndex(n, x, lo, hi) == k
  }

  /**
    * A bucket's spread is strictly below its parent's: it cannot hold both the
    * parent's minimum and maximum. This is why the recursion terminates for n >= 2.
    */
  lemma BucketSpreadShrinks(s: seq<int>, n: int, k: int, lo: int, hi: int)
    requires n >= 2 && lo < hi && InBucket(s, n, k, lo, hi)
    ensures Spread(s) < hi - lo
  {
    if |s| > 0 {
      ExtremesSplit(n, lo, hi);
      var a, b := Min(s), Max(s);
      assert BucketIndex(n, a, lo, hi) == k && BucketIndex(n, b, lo, hi) == k;
      assert lo < a || b < hi;
    }
  }

  function Flatten(ss: seq<seq<int>>): seq<int> {
    if ss == [] then [] else ss[0] + Flatten(ss[1..])
  }

  /** Appending `x` to one bucket adds `x` to the flattened multiset. */
  lemma {:induction false} FlattenAppend(ss: seq<seq<int>>, b: int, x: int)
    requires 0 <= b < |ss|
    ensures multiset(Flatten(ss[b := ss[b] + [x]])) == multiset(Flatten(ss)) + multiset{x}
  {
    var u := ss[b := ss[b] + [x]];
    assert Flatten(ss) == ss[0] + Flatten(ss[1..]);
    assert Flatten(u) == u[0] + Flatten(u[1..]);
    if b > 0 {
      assert u[1..] == ss[1..][b - 1 := ss[1..][b - 1] + [x]];
      FlattenAppend(ss[1..], b - 1, x);
    } else {
      assert u[1..] == ss[1..];
    }
  }

  /** Permuting one bucket leaves the flattened multiset unchanged. */
  lemma {:induction false} FlattenPermute(ss: seq<seq<int>>, b: int, t: seq<int>)
    requires 0 <= b < |ss| && multiset(t) == multiset(ss[b])
    ensures multiset(Flatten(ss[b := t])) == multiset(Flatten(ss))
  {
    var u := ss[b := t];
    assert Flatten(ss) == ss[0] + Flatten(ss[1..]);
    assert Flatten(u) == u[0] + Flatten(u[1..]);
    if b > 0 {
      assert u[1..] == ss[1..][b - 1 := t];
      FlattenPermute(ss[1..], b - 1, t);
    } else {
      assert u[1..] == ss[1..];
    }
  }

  lemma {:induction false} FlattenMember(ss: seq<seq<int>>, x: int)
    requires x in Flatten(ss)
    ensures exists k :: 0 <= k < |ss| && x in ss[k]
  {
    if x !in ss[0] {
      FlattenMember(ss[1..], x);
      var k :| 0 <= k < |ss[1..]| && x in ss[1..][k];
      assert x in ss[k + 1];
    }
  }

  /** Sorted buckets whose items are ordered across buckets flatten to a sorted list. */
  lemma {:induction false} FlattenSorted(ss: seq<seq<int>>)
    requires forall k :: 0 <= k < |ss| ==> Sorted(ss[k])
    requires forall k1, k2, x, y :: 0 <= k1 < k2 < |ss| && x in ss[k1] && y in ss[k2] ==> x <= y
    ensures Sorted(Flatten(ss))
  {
    if ss != [] {
      FlattenSorted(ss[1..]);
      var h, t := ss[0], Flatten(ss[1..]);
      forall i, j | 0 <= i < j < |h + t| ensures (h + t)[i] <= (h + t)[j] {
        if j >= |h| && i < |h| {
          assert h[i] in ss[0];
          assert t[j - |h|] in t;
          FlattenMember(ss[1..], t[j - |h|]);
        } else if j >= |h| {
          assert (h + t)[i] == t[i - |h|] && (h + t)[j] == t[j - |h|];
        }
      }
    }
  }

  /**
    * `bucket_sort(array, n)`: sorts the list in place and returns the same
    * list. An empty list, or one whose minimum equals its maximum, is returned
    * unchanged. Otherwise every item goes to bucket `BucketIndex`, each bucket
    * is sorted in place (insertion sort up to 32 items, a recursive call whose
    * result is discarded above that), and the list's contents are overwritten
    * by the buckets' concatenation.
    */
  method BucketSort(list: IntList, n: int) returns (r: IntList)
    requires n >= 2
    modifies list
    decreases Spread(list.items), 1
    ensures r == list
    ensures Sorted(list.items) && multiset(list.items) == multiset(old(list.items))
    ensures list.items == SortedOf(old(list.items))
    ensures Spread(old(list.items)) == 0 ==> list.items == old(list.items)
  {
    if |list.items| == 0 {
      return list;
    }
    var lo, hi := GetMinMax(list);
    if lo == hi {
      assert Min(list.items) == lo.value && Max(list.items) == hi.value;
      ZeroSpreadSorted(list.items);
      SortedPermutationIsSortedOf(list.items, list.items);
      return list;
    }
    var minValue, maxValue := lo.value, hi.value;
    assert minValue < maxValue;
    assert Spread(list.items) == maxValue - minValue by {
      assert Min(list.items) == minValue && Max(list.items) == maxValue;
    }
    ghost var s := list.items;
    var buckets, ss := Distribute(list, n, minValue, maxValue);
    ghost var sorted := SortBuckets(buckets, n, minValue, maxValue, ss);
    FlattenPermuteAll(ss, sorted);
    forall k1, k2, x, y | 0 <= k1 < k2 < n && x in sorted[k1] && y in sorted[k2] ensures x <= y {
      InBucketPermutation(ss[k1], sorted[k1], n, k1, minValue, maxValue);
      InBucketPermutation(ss[k2], sorted[k2], n, k2, minValue, maxValue);
      if x > y {
        BucketIndexMonotone(n, y, x, minValue, maxValue);
      }
    }
    FlattenSorted(sorted);
    ConcatIsFlatten(buckets, sorted);
    list.items := Concat(buckets);
    SortedPermutationIsSortedOf(list.items, s);
    return list;
  }

  /** The buckets are pairwise different list objects. */
  ghost predicate Distinct(bs: seq<IntList>) {
    forall k1, k2 :: 0 <= k1 < k2 < |bs| ==> bs[k1] != bs[k2]
  }

  /**
    * The distribution phase of `bucket_sort`: `n` fresh empty buckets, then
    * every item of the list, in list order, appended to bucket `BucketIndex`.
    * `ss` is each bucket's resulting contents.
    */
  method Distribute(list: IntList, n: int, lo: int, hi: int) returns (buckets: seq<IntList>, ghost ss: seq<seq<int>>)
    requires n >= 2 && lo < hi
    requires forall x :: x in list.items ==> lo <= x <= hi
    ensures |buckets| == |ss| == n && Distinct(buckets)
    ensures forall k :: 0 <= k < n ==> fresh(buckets[k]) && buckets[k].items == ss[k]
    ensures forall k :: 0 <= k < n ==> InBucket(ss[k], n, k, lo, hi)
    ensures multiset(Flatten(ss)) == multiset(list.items)
  {
    ghost var s := list.items;
    buckets := NewBuckets(n);
    ss := seq(n, _ => []);
    EmptyFlatten(ss);

    var i := 0;
    while i < |list.items|
      invariant 0 <= i <= |list.items|
      invariant |buckets| == |ss| == n && Distinct(buckets)
      invariant forall k :: 0 <= k < n ==> fresh(buckets[k]) && buckets[k].items == ss[k]
      invariant forall k :: 0 <= k < n ==> InBucket(ss[k], n, k, lo, hi)
      invariant multiset(Flatten(ss)) == multiset(s[..i])
    {
      var item := list.items[i];
      assert item in s;
      var k := BucketIndex(n, item, lo, hi);
      buckets[k].Append(item);
      FlattenAppend(ss, k, item);
      InBucketAppend(ss[k], n, k, lo, hi, item);
      ss := ss[k := ss[k] + [item]];
      assert s[..i + 1] == s[..i] + [item];
      i := i + 1;
    }
    assert s[..i] == s;
  }

  /** `[[] for _ in range(n)]`: `n` fresh, pairwise different, empty lists. */
  method NewBuckets(n: int) returns (buckets: seq<IntList>)
    requires n >= 0
    ensures |buckets| == n && Distinct(buckets)
    ensures forall k :: 0 <= k < n ==> fresh(buckets[k]) && buckets[k].items == []
  {
    buckets := [];
    while |buckets| < n
      invariant |buckets| <= n && Distinct(buckets)
      invariant forall k :: 0 <= k < |buckets| ==> fresh(buckets[k]) && buckets[k].items == []
    {
      var b := new IntList([]);
      buckets := buckets + [b];
    }
  }

  lemma InBucketAppend(s: seq<int>, n: int, k: int, lo: int, hi: int, x: int)
    requires n >= 1 && lo <= x <= hi && lo < hi
    requires InBucket(s, n, k, lo, hi) && BucketIndex(n, x, lo, hi) == k
    ensures InBucket(s + [x], n, k, lo, hi)
  {
  }

  /**
    * The sorting phase of `bucket_sort`: each bucket in turn is sorted in
    * place, by `insertion_sort` when it holds at most 32 items and otherwise by
    * a recursive `bucket_sort` whose returned list is ignored. `sorted` is each
    * bucket's resulting contents.
    */
  method SortBuckets(buckets: seq<IntList>, n: int, lo: int, hi: int, ghost ss: seq<seq<int>>)
    returns (ghost sorted: seq<seq<int>>)
    requires n >= 2 && lo < hi
    requires |buckets| == |ss| == n && Distinct(buckets)
    requires forall k :: 0 <= k < n ==> buckets[k].items == ss[k] && InBucket(ss[k], n, k, lo, hi)
    modifies set k | 0 <= k < |buckets| :: buckets[k]
    decreases hi - lo, 0
    ensures |sorted| == n
    ensures forall k :: 0 <= k < n ==> buckets[k].items == sorted[k]
    ensures forall k :: 0 <= k < n ==> Sorted(sorted[k]) && multiset(sorted[k]) == multiset(ss[k])
  {
    sorted := ss;
    var j := 0;
    while j < n
      invariant 0 <= j <= n && |sorted| == n
      invariant forall k :: 0 <= k < n ==> buckets[k].items == sorted[k]
      invariant forall k :: 0 <= k < j ==> Sorted(sorted[k])
      invariant forall k :: 0 <= k < n ==> multiset(sorted[k]) == multiset(ss[k])
      invariant forall k :: j <= k < n ==> sorted[k] == ss[k]
    {
      var bucket := buckets[j];
      if |bucket.items| <= INSERTION_SORT_LIMIT {
        var _ := InsertionSort(bucket);
      } else {
        BucketSpreadShrinks(bucket.items, n, j, lo, hi);
        var _ := BucketSort(bucket, n);
      }
      sorted := sorted[j := bucket.items];
      j := j + 1;
    }
  }

  lemma {:induction false} FlattenPermuteAll(ss: seq<seq<int>>, ts: seq<seq<int>>)
    requires |ss| == |ts| && forall k :: 0 <= k < |ss| ==> multiset(ts[k]) == multiset(ss[k])
    ensures multiset(Flatten(ts)) == multiset(Flatten(ss))
  {
    if ss != [] {
      FlattenPermuteAll(ss[1..], ts[1..]);
    }
  }

  /** `[item for bucket in buckets for item in bucket]` */
  function Concat(bs: seq<IntList>): seq<int>
    reads bs
  {
    if bs == [] then [] else bs[0].items + Concat(bs[1..])
  }

  lemma {:induction false} ConcatIsFlatten(bs: seq<IntList>, ss: seq<seq<int>>)
    requires |bs| == |ss| && forall k :: 0 <= k < |bs| ==> bs[k].items == ss[k]
    ensures Concat(bs) == Flatten(ss)
  {
    if bs != [] {
      ConcatIsFlatten(bs[1..], ss[1..]);
    }
  }

  /** Sorting a bucket permutes it, so its items still belong to it. */
  lemma InBucketPermutation(s: seq<int>, t: seq<int>, n: int, k: int, lo: int, hi: int)
    requires n >= 1 && lo < hi && InBucket(s, n, k, lo, hi)
    requires multiset(t) == multiset(s)
    ensures InBucket(t, n, k, lo, hi)
  {
    forall x | x in t ensures lo <= x <= hi && BucketIndex(n, x, lo, hi) == k {
      assert x in multiset(t);
      assert x in s;
    }
  }

  lemma EmptyFlatten(ss: seq<seq<int>>)
    requires forall k :: 0 <= k < |ss| ==> ss[k] == []
    ensures Flatten(ss) == []
  {
    if ss != [] {
      EmptyFlatten(ss[1..]);
    }
  }
}
