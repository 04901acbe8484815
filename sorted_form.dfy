/**
  * The output side of the create page
  * (lab-2-web/frontend/src/components/form/output/SortedArrayForm.js): the
  * shared sorted-array state it shows (ArrayContext.js) and
  * `performBucketSort`, which asks the server to sort a stored array and
  * writes the answer into that state.
  */
module SortedArrayForm {
  import opened Options
  import opened Text
  import opened Decimal
  import opened Tokens
  import opened Api
  import opened ArrayTable

  /** The context's two state fields. */
  class ArrayContext {
    var sortedArray: seq<int>
    var executionTime: Option<real>

    /** The provider's initial state: `[]` and null. */
    constructor()
      ensures sortedArray == [] && executionTime == None
      ensures !TimeShown()
    {
      sortedArray := [];
      executionTime := None;
    }

    /**
      * The read-only textarea: the sorted values joined by ", ". Cut at each
      * ',', the text gives one piece per value, and piece i, trimmed, is
      * the decimal form of value i and reads back as it.
      */
    function SortedText(): (text: string)
      reads this
      ensures sortedArray == [] <==> text == ""
      ensures sortedArray != [] ==> |Split(text, ',')| == |sortedArray|
      ensures sortedArray != [] ==> forall i :: 0 <= i < |sortedArray| ==>
        Strip(Split(text, ',')[i]) == IntToString(sortedArray[i]) &&
        ParseInteger(Strip(Split(text, ',')[i]), false) == Some(sortedArray[i])
    {
      var xs := sortedArray;
      var text := JoinCells(Nums(xs), ", ");
      assert xs != [] ==> |Split(text, ',')| == |xs| by {
        if xs != [] {
          CommaPieces(xs, 0);
        }
      }
      assert forall i :: 0 <= i < |xs| ==>
        Strip(Split(text, ',')[i]) == IntToString(xs[i]) && ParseInteger(Strip(Split(text, ',')[i]), false) == Some(xs[i])
      by {
        forall i | 0 <= i < |xs|
          ensures Strip(Split(text, ',')[i]) == IntToString(xs[i])
          ensures ParseInteger(Strip(Split(text, ',')[i]), false) == Some(xs[i])
        {
          CommaPieces(xs, i);
          ParseIntToString(xs[i], false);
        }
      }
      text
    }

    /** The running time is shown once one has been received. */
    predicate TimeShown()
      reads this
    {
      executionTime.Some?
    }
  }

  /**
    * `performBucketSort(apiUrl, id, ...)`: sends a sort request for `id`
    * with a no-op `onSuccess` and no `onError`. A 200 answer sets both
    * outputs from its body; another success status changes nothing; a
    * failure rejects (`threw`), the outputs unchanged.
    */
  method PerformBucketSort(ctx: ArrayContext, id: int, reply: Outcome<SortBody>) returns (request: Request, threw: bool)
    modifies ctx
    ensures request == SortPost(id)
    ensures threw <==> !reply.Ok?
    ensures reply.Ok? && reply.status == 200 ==>
      ctx.sortedArray == reply.body.data && ctx.executionTime == Some(reply.body.executionTime)
    ensures reply.Ok? && reply.status == 200 ==> ctx.TimeShown()
    ensures !(reply.Ok? && reply.status == 200) ==> unchanged(ctx) && ctx.TimeShown() == old(ctx.TimeShown())
  {
    request := SortPost(id);
    var result := SortArray(reply, false);
    if result.Threw? {
      return request, true;
    }
    threw := false;
    if result.returned.Some? {
      ctx.sortedArray := result.returned.value.data;
      ctx.executionTime := Some(result.returned.value.executionTime);
    }
  }
}
