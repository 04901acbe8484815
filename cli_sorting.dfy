/**
  * The console program's copy of the bucket sort (lab-2-main/src/sorting_module.py).
  * Its `insertion_sort` and `get_min_max` are the server's, statement for
  * statement, and so is `bucket_sort` once the list is known to be non-empty;
  * the one difference is the empty case: this copy answers a missing list
  * (`None`) or an empty one with a new empty list instead of the argument.
  */
module CliSorting {
  import opened Lists
  import BucketSorting

  /** Number of buckets the console program sorts with. */
  const BUCKET_COUNT := 5

  /**
    * `bucket_sort(array, num_buckets)`: `null` stands for `None`. A missing or
    * empty list gives a fresh empty list; any other list is sorted in place
    * and returned.
    */
  method BucketSort(list: IntList?, n: int) returns (r: IntList)
    requires n >= 2
    modifies list
    ensures list == null || old(list.items) == [] ==> fresh(r) && r.items == []
    ensures list != null && old(list.items) != [] ==>
      r == list && list.items == SortedOf(old(list.items))
    ensures list != null ==> Sorted(list.items) && multiset(list.items) == multiset(old(list.items))
  {
    if list == null || list.items == [] {
      r := new IntList([]);
      return;
    }
    r := BucketSorting.BucketSort(list, n);
  }
}
