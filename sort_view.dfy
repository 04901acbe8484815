/**
  * The server's sort endpoint (lab-2-web/backend/bucket/views.py,
  * `sort_view`): the request body names a stored array by id; the array's
  * data is bucket-sorted with five buckets, marked sorted and saved, and the
  * response carries the saved data. The database is a store mapping ids to
  * records; the clock and the measured duration are parameters. An element
  * of stored data is an integer or JSON null (what a NaN from the client
  * becomes).
  */
module SortView {
  import opened Options
  import opened Lists
  import BucketSorting

  /** `BUCKET_SIZE`: the number of buckets the endpoint sorts with. */
  const BUCKET_SIZE := 5

  /** An element of a stored JSON list: an integer or null. */
  datatype Element = Int(value: int) | Null

  /** A stored `Array` row: its JSON list, the sorted flag and its two timestamps. */
  datatype StoredArray = StoredArray(data: seq<Element>, isSorted: bool, creationDate: int, updateDate: int)

  /** Data every element of which is an integer. */
  predicate Integers(data: seq<Element>) {
    forall i :: 0 <= i < |data| ==> data[i].Int?
  }

  /** The integers of integer data, in order. */
  function Values(data: seq<Element>): (xs: seq<int>)
    requires Integers(data)
    ensures |xs| == |data| && forall i :: 0 <= i < |data| ==> data[i] == Int(xs[i])
  {
    seq(|data|, i requires 0 <= i < |data| => data[i].value)
  }

  /** Integers stored as JSON elements. */
  function Ints(xs: seq<int>): (data: seq<Element>)
    ensures Integers(data) && Values(data) == xs
  {
    seq(|xs|, i requires 0 <= i < |xs| => Int(xs[i]))
  }

  /**
    * The request body after JSON decoding: not JSON at all, a JSON value
    * that is not an object, or an object whose "id" is an integer or is
    * absent or null.
    */
  datatype SortRequest = Malformed | NotAnObject | Object(id: Option<int>)

  /**
    * The response: an error status (400 for a body that is not JSON, 404 for
    * an id with no record, 500 for a body that is not an object), or the
    * sorted data with the measured time.
    */
  datatype SortResponse = Failure(status: int) | Sorted(data: seq<int>, executionTime: real)

  /** What saving a sorted record leaves in the store. */
  function SortedRecord(r: StoredArray, now: int): (s: StoredArray)
    requires Integers(r.data)
    ensures Integers(s.data)
    ensures Lists.Sorted(Values(s.data)) && multiset(Values(s.data)) == multiset(Values(r.data))
    ensures s.isSorted && s.creationDate == r.creationDate && s.updateDate == now
  {
    SortedOfSpec(Values(r.data));
    r.(data := Ints(SortedOf(Values(r.data))), isSorted := true, updateDate := now)
  }

  /** Sorting a record a second time leaves its data as the first sort left it. */
  lemma SortTwice(r: StoredArray, t1: int, t2: int)
    requires Integers(r.data)
    ensures SortedRecord(SortedRecord(r, t1), t2).data == SortedRecord(r, t1).data
  {
    SortedOfIdempotent(Values(r.data));
  }

  /** The `Array` table, keyed by primary key. */
  class ArrayStore {
    var records: map<int, StoredArray>

    constructor (initial: map<int, StoredArray>)
      ensures records == initial
    {
      records := initial;
    }

    /**
      * `sort_view`: a body that is not JSON gives 400 and a body that is not
      * an object 500, a missing, null or unknown id gives 404, all without
      * touching the store. A record whose data holds a null gives 500, the
      * store unchanged: `get_min_max` compares the null with `<`, which
      * raises. Otherwise the record's data is bucket-sorted, its flag set
      * and its update time stamped, the other records are left as they
      * were, and the response carries the stored data.
      */
    method SortView(request: SortRequest, now: int, executionTime: real) returns (response: SortResponse)
      modifies this
      ensures request.Malformed? ==> response == Failure(400) && records == old(records)
      ensures request.NotAnObject? ==> response == Failure(500) && records == old(records)
      ensures request.Object? && (request.id.None? || request.id.value !in old(records)) ==>
        response == Failure(404) && records == old(records)
      ensures request.Object? && request.id.Some? && request.id.value in old(records) &&
              !Integers(old(records)[request.id.value].data) ==>
        response == Failure(500) && records == old(records)
      ensures request.Object? && request.id.Some? && request.id.value in old(records) &&
              Integers(old(records)[request.id.value].data) ==>
        records == old(records)[request.id.value := SortedRecord(old(records)[request.id.value], now)] &&
        response == Sorted(Values(records[request.id.value].data), executionTime)
    {
      if request.Malformed? {
        return Failure(400);
      }
      if request.NotAnObject? {
        return Failure(500);
      }
      var arrayId := request.id;
      if arrayId.None? || arrayId.value !in records {
        return Failure(404);
      }
      var id := arrayId.value;
      var stored := records[id];
      if !Integers(stored.data) {
        return Failure(500);
      }
      var arrayData := new IntList(Values(stored.data));
      var sortedArray := BucketSorting.BucketSort(arrayData, BUCKET_SIZE);
      stored := stored.(data := Ints(sortedArray.items), isSorted := true, updateDate := now);
      records := records[id := stored];
      return Sorted(sortedArray.items, executionTime);
    }
  }
}
