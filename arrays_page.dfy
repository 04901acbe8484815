/**
  * The arrays page (lab-2-web/frontend/src/pages/ArraysPage.jsx): one page
  * of stored arrays, or the one found by id, with handlers that save, sort
  * and delete an array through the server and then reload the list. The
  * list itself is only ever replaced by a reload. Each handler is given the
  * server's replies to the requests it may send, and the calls run one
  * after the other.
  */
module ArraysPage {
  import opened Options
  import opened Tokens
  import opened Messages
  import opened Api

  /** What the page shows under the search field. */
  datatype View = ErrorMessage(msg: Msg) | Table(rows: seq<Record>) | NotFound

  class PageState {
    var showEditModal: bool
    var editingArray: Option<Record>
    var searchId: Option<string>
    var numArrays: Option<int>
    var error: Option<Msg>
    var arrays: seq<Record>
    var page: int
    /** The requests the page has sent, oldest first. */
    var sent: seq<Request>

    /** The initial state; `numArrays` starts undefined. */
    constructor()
      ensures !showEditModal && editingArray == None && searchId == None && numArrays == None
      ensures error == None && arrays == [] && page == 1 && sent == []
    {
      showEditModal := false;
      editingArray := None;
      searchId := None;
      numArrays := None;
      error := None;
      arrays := [];
      page := 1;
      sent := [];
    }

    /** The listing state after applying the effect `e` of a fetch to `arrays0` and `count0`. */
    ghost predicate Shows(e: ListingEffect, arrays0: seq<Record>, count0: Option<int>)
      reads this
    {
      && arrays == (if e.arrays.Some? then e.arrays.value else arrays0)
      && numArrays == (if e.count.Some? then e.count else count0)
      && error == e.error
    }

    /** `fetchDataCallback`: `fetchData` with the current search id and page. */
    method Refetch(byId: Outcome<Record>, listing: Outcome<Page>)
      modifies this`arrays, this`numArrays, this`error, this`sent
      ensures sent == old(sent) + [Get(FetchUrl(searchId, page))]
      ensures Shows(FetchData(searchId, page, byId, listing), old(arrays), old(numArrays))
      ensures searchId.None? ==> (TotalShown() <==> !Failed(listing))
      ensures searchId.None? && listing.Ok? && listing.status == 200 ==>
        TotalShown() && numArrays == Some(listing.body.count)
    {
      var e := FetchData(searchId, page, byId, listing);
      sent := sent + [e.request];
      if e.arrays.Some? {
        arrays := e.arrays.value;
      }
      if e.count.Some? {
        numArrays := e.count;
      }
      error := e.error;
    }

    /** `setPage`: the effect refetches only when the page really changes. */
    method SetPage(newPage: int, byId: Outcome<Record>, listing: Outcome<Page>)
      modifies this`page, this`arrays, this`numArrays, this`error, this`sent
      ensures page == newPage
      ensures newPage == old(page) ==>
        arrays == old(arrays) && numArrays == old(numArrays) && error == old(error) && sent == old(sent)
      ensures newPage != old(page) ==>
        sent == old(sent) + [Get(FetchUrl(searchId, newPage))] &&
        Shows(FetchData(searchId, newPage, byId, listing), old(arrays), old(numArrays))
    {
      if newPage != page {
        page := newPage;
        Refetch(byId, listing);
      }
    }

    /** `setSearchId` from the search form: refetches only when the id really changes. */
    method SetSearchId(newId: Option<string>, byId: Outcome<Record>, listing: Outcome<Page>)
      modifies this`searchId, this`arrays, this`numArrays, this`error, this`sent
      ensures searchId == newId
      ensures newId == old(searchId) ==>
        arrays == old(arrays) && numArrays == old(numArrays) && error == old(error) && sent == old(sent)
      ensures newId != old(searchId) ==>
        sent == old(sent) + [Get(FetchUrl(newId, page))] &&
        Shows(FetchData(newId, page, byId, listing), old(arrays), old(numArrays))
    {
      if newId != searchId {
        searchId := newId;
        Refetch(byId, listing);
      }
    }

    /**
      * `handleSave`: sends the edited data, coerced by `Number`, with
      * `is_sorted` false; reloads only on a 200. There is no `onError`, so a
      * failure rejects and nothing else happens.
      */
    method HandleSave(edited: Record, editReply: Outcome<()>, byId: Outcome<Record>, listing: Outcome<Page>)
      returns (threw: bool)
      modifies this`arrays, this`numArrays, this`error, this`sent
      ensures threw <==> !editReply.Ok?
      ensures editReply.Ok? && editReply.status == 200 ==>
        sent == old(sent) + [Put(edited.id, ToNumbers(edited.data), false), Get(FetchUrl(searchId, page))] &&
        Shows(FetchData(searchId, page, byId, listing), old(arrays), old(numArrays))
      ensures !(editReply.Ok? && editReply.status == 200) ==>
        sent == old(sent) + [Put(edited.id, ToNumbers(edited.data), false)] &&
        arrays == old(arrays) && numArrays == old(numArrays) && error == old(error)
    {
      sent := sent + [Put(edited.id, ToNumbers(edited.data), false)];
      var c := EditArray(editReply, false);
      if c.Threw? {
        return true;
      }
      threw := false;
      if c.succeeded {
        Refetch(byId, listing);
      }
    }

    /**
      * `handleSort`: first the same update as a save; only in its success
      * callback the sort request, and only on the sort's success the reload.
      * The callback is not awaited, so a failed sort is lost: the handler
      * itself rejects only when the update fails.
      */
    method HandleSort(edited: Record, editReply: Outcome<()>, sortReply: Outcome<SortBody>,
                      byId: Outcome<Record>, listing: Outcome<Page>)
      returns (threw: bool)
      modifies this`arrays, this`numArrays, this`error, this`sent
      ensures threw <==> !editReply.Ok?
      ensures var put := Put(edited.id, ToNumbers(edited.data), false);
        && (!(editReply.Ok? && editReply.status == 200) ==> sent == old(sent) + [put])
        && (editReply.Ok? && editReply.status == 200 && !(sortReply.Ok? && sortReply.status == 200) ==>
              sent == old(sent) + [put, SortPost(edited.id)])
        && (editReply.Ok? && editReply.status == 200 && sortReply.Ok? && sortReply.status == 200 ==>
              sent == old(sent) + [put, SortPost(edited.id), Get(FetchUrl(searchId, page))] &&
              Shows(FetchData(searchId, page, byId, listing), old(arrays), old(numArrays)))
      ensures !(editReply.Ok? && editReply.status == 200 && sortReply.Ok? && sortReply.status == 200) ==>
        arrays == old(arrays) && numArrays == old(numArrays) && error == old(error)
    {
      sent := sent + [Put(edited.id, ToNumbers(edited.data), false)];
      var c := EditArray(editReply, false);
      if c.Threw? {
        return true;
      }
      threw := false;
      if c.succeeded {
        sent := sent + [SortPost(edited.id)];
        var s := SortArray(sortReply, false);
        if s.Completion? && s.succeeded {
          Refetch(byId, listing);
        }
      }
    }

    /** `handleDelete`: deletes by id; reloads only on a 204; a failure rejects. */
    method HandleDelete(record: Record, deleteReply: Outcome<()>, byId: Outcome<Record>, listing: Outcome<Page>)
      returns (threw: bool)
      modifies this`arrays, this`numArrays, this`error, this`sent
      ensures threw <==> !deleteReply.Ok?
      ensures deleteReply.Ok? && deleteReply.status == 204 ==>
        sent == old(sent) + [Delete(record.id), Get(FetchUrl(searchId, page))] &&
        Shows(FetchData(searchId, page, byId, listing), old(arrays), old(numArrays))
      ensures !(deleteReply.Ok? && deleteReply.status == 204) ==>
        sent == old(sent) + [Delete(record.id)] &&
        arrays == old(arrays) && numArrays == old(numArrays) && error == old(error)
    {
      sent := sent + [Delete(record.id)];
      var c := DeleteArray(deleteReply, false);
      if c.Threw? {
        return true;
      }
      threw := false;
      if c.succeeded {
        Refetch(byId, listing);
      }
    }

    /** `handleEdit`: remembers the record and opens the modal. */
    method HandleEdit(record: Record)
      modifies this`editingArray, this`showEditModal
      ensures editingArray == Some(record) && showEditModal
    {
      editingArray := Some(record);
      showEditModal := true;
    }

    /** The modal's `handleClose`. */
    method CloseModal()
      modifies this`showEditModal
      ensures !showEditModal
    {
      showEditModal := false;
    }

    /** The error if there is one, else the table for a non-empty list, else the not-found message. */
    function CurrentView(): (v: View)
      reads this
      ensures v.ErrorMessage? <==> error.Some?
      ensures v.Table? <==> error.None? && arrays != []
      ensures v.Table? ==> v.rows == arrays
    {
      if error.Some? then ErrorMessage(error.value)
      else if |arrays| > 0 then Table(arrays)
      else NotFound
    }

    /** The total is shown only with no search id and no error. */
    predicate TotalShown()
      reads this
    {
      searchId.None? && error.None?
    }
  }

  /**
    * The total is shown exactly when the page lists without a search id and
    * shows no error message; the list is then the one asked for by page.
    */
  lemma TotalShownWithListing(p: PageState)
    ensures p.TotalShown() <==> p.searchId.None? && !p.CurrentView().ErrorMessage?
    ensures p.TotalShown() ==> FetchUrl(p.searchId, p.page) == ArraysPage(p.page)
  {
  }
}
