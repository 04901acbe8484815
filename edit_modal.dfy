/**
  * The edit dialog of the arrays page
  * (lab-2-web/frontend/src/components/modal/EditArrayModal.js): it keeps an
  * edited copy of the record it was opened with, lets the data be edited as
  * text, and hands the copy (or, for delete, the original) to the page's
  * handlers before closing.
  */
module EditArrayModal {
  import opened Tokens
  import opened Api
  import opened ArraysPage

  class EditModal {
    /** The `array` prop. */
    var original: Record
    /** The `editedArray` state. */
    var editedArray: Record

    /** Edits touch only the data, so the copy always names the original's record. */
    ghost predicate Valid()
      reads this
    {
      editedArray.id == original.id && editedArray.isSorted == original.isSorted &&
      editedArray.creationDate == original.creationDate && editedArray.updateDate == original.updateDate
    }

    /** `useState({ ...array })`: the copy starts as the prop. */
    constructor(record: Record)
      ensures Valid() && original == record && editedArray == record
    {
      original := record;
      editedArray := record;
    }

    /** The effect on a new `array` prop: the copy is reset to it. */
    method Resync(record: Record)
      modifies this
      ensures Valid() && original == record && editedArray == record
    {
      original := record;
      editedArray := record;
    }

    /**
      * `handleInputChange` on the textarea named "data": only the data
      * changes, and the text shown afterwards reads back as the new data.
      */
    method HandleInputChange(value: string)
      requires Valid()
      modifies this`editedArray
      ensures Valid()
      ensures editedArray == old(editedArray).(data := ParseText(value))
      ensures ParseText(Text()) == editedArray.data
    {
      editedArray := editedArray.(data := ParseText(value));
      assert forall i :: 0 <= i < |editedArray.data| ==> Parsed(editedArray.data[i]);
    }

    /**
      * The textarea: the edited data joined by single spaces. Data the
      * parsing rule could have produced reads back from it unchanged.
      */
    function Text(): (text: string)
      reads this
      ensures |editedArray.data| > 0 && (forall i :: 0 <= i < |editedArray.data| ==> Parsed(editedArray.data[i])) ==>
        ParseText(text) == editedArray.data
    {
      var data := editedArray.data;
      assert |data| > 0 && (forall i :: 0 <= i < |data| ==> Parsed(data[i])) ==> ParseText(JoinCells(data, " ")) == data by {
        if |data| > 0 && forall i :: 0 <= i < |data| ==> Parsed(data[i]) {
          ReparseJoined(data);
        }
      }
      JoinCells(data, " ")
    }

    /**
      * `saveChangesEdit`: the page saves the edited copy, which names the
      * original record, then the dialog closes. The handler is not awaited,
      * so the dialog closes whatever the replies are; a 200 to the edit
      * refetches the listing.
      */
    method SaveChangesEdit(page: PageState, editReply: Outcome<()>, byId: Outcome<Record>, listing: Outcome<Page>)
      requires Valid()
      modifies page`arrays, page`numArrays, page`error, page`sent, page`showEditModal
      ensures !page.showEditModal
      ensures var put := Put(original.id, ToNumbers(editedArray.data), false);
        && (editReply.Ok? && editReply.status == 200 ==>
              page.sent == old(page.sent) + [put, Get(FetchUrl(page.searchId, page.page))] &&
              page.Shows(FetchData(page.searchId, page.page, byId, listing), old(page.arrays), old(page.numArrays)))
        && (!(editReply.Ok? && editReply.status == 200) ==>
              page.sent == old(page.sent) + [put] &&
              page.arrays == old(page.arrays) && page.numArrays == old(page.numArrays) && page.error == old(page.error))
    {
      var _ := page.HandleSave(editedArray, editReply, byId, listing);
      page.CloseModal();
    }

    /**
      * `saveChangesSort`: the page saves the edited copy and asks for it to
      * be sorted, then the dialog closes; the sort request follows only a
      * 200 to the edit, and the refetch only a 200 to the sort.
      */
    method SaveChangesSort(page: PageState, editReply: Outcome<()>, sortReply: Outcome<SortBody>,
                           byId: Outcome<Record>, listing: Outcome<Page>)
      requires Valid()
      modifies page`arrays, page`numArrays, page`error, page`sent, page`showEditModal
      ensures !page.showEditModal
      ensures var put := Put(original.id, ToNumbers(editedArray.data), false);
        && (!(editReply.Ok? && editReply.status == 200) ==> page.sent == old(page.sent) + [put])
        && (editReply.Ok? && editReply.status == 200 && !(sortReply.Ok? && sortReply.status == 200) ==>
              page.sent == old(page.sent) + [put, SortPost(original.id)])
        && (editReply.Ok? && editReply.status == 200 && sortReply.Ok? && sortReply.status == 200 ==>
              page.sent == old(page.sent) + [put, SortPost(original.id), Get(FetchUrl(page.searchId, page.page))] &&
              page.Shows(FetchData(page.searchId, page.page, byId, listing), old(page.arrays), old(page.numArrays)))
      ensures !(editReply.Ok? && editReply.status == 200 && sortReply.Ok? && sortReply.status == 200) ==>
        page.arrays == old(page.arrays) && page.numArrays == old(page.numArrays) && page.error == old(page.error)
    {
      var _ := page.HandleSort(editedArray, editReply, sortReply, byId, listing);
      page.CloseModal();
    }

    /**
      * `saveChangesDelete`: the page deletes the original record, whatever
      * was edited, then the dialog closes; a 204 refetches the listing.
      */
    method SaveChangesDelete(page: PageState, deleteReply: Outcome<()>, byId: Outcome<Record>, listing: Outcome<Page>)
      requires Valid()
      modifies page`arrays, page`numArrays, page`error, page`sent, page`showEditModal
      ensures !page.showEditModal
      ensures deleteReply.Ok? && deleteReply.status == 204 ==>
        page.sent == old(page.sent) + [Delete(original.id), Get(FetchUrl(page.searchId, page.page))] &&
        page.Shows(FetchData(page.searchId, page.page, byId, listing), old(page.arrays), old(page.numArrays))
      ensures !(deleteReply.Ok? && deleteReply.status == 204) ==>
        page.sent == old(page.sent) + [Delete(original.id)] &&
        page.arrays == old(page.arrays) && page.numArrays == old(page.numArrays) && page.error == old(page.error)
    {
      var _ := page.HandleDelete(original, deleteReply, byId, listing);
      page.CloseModal();
    }
  }
}
