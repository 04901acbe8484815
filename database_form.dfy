/**
  * The database input form
  * (lab-2-web/frontend/src/components/form/input/DatabaseArrayForm.js): a
  * page of stored arrays is listed; clicking one copies its data into the
  * draft, which can then be edited as text. The listing state belongs to
  * this form; the error it reports is the create form's.
  */
module DatabaseArrayForm {
  import opened Options
  import opened Tokens
  import opened Api
  import opened CreateArrayForm

  /** The form's own state: the page shown, the total count and the records of the page. */
  class Listing {
    var page: int
    var numArrays: int
    var availableArrays: seq<Record>

    constructor()
      ensures page == 1 && numArrays == 0 && availableArrays == []
    {
      page := 1;
      numArrays := 0;
      availableArrays := [];
    }

    /**
      * `fetchDataCallback`: `fetchData` with no search id, for the current
      * page, writing into the listing and the create form's error. (The
      * single-record reply is never used without a search id.)
      */
    method Fetch(f: CreateForm, listing: Outcome<Page>)
      modifies this`availableArrays, this`numArrays, f`error, f`sent
      ensures var e := FetchData(None, page, NetworkError, listing);
        && f.sent == old(f.sent) + [Get(ArraysPage(page))]
        && availableArrays == (if e.arrays.Some? then e.arrays.value else old(availableArrays))
        && numArrays == (if e.count.Some? then e.count.value else old(numArrays))
        && f.error == e.error
      ensures listing.Ok? && listing.status == 200 ==>
        availableArrays == listing.body.results && numArrays == listing.body.count && f.error == None
      ensures listing == HttpError(404) ==> availableArrays == [] && numArrays == old(numArrays) && f.error == None
      ensures Failed(listing) ==>
        f.error.Some? && availableArrays == old(availableArrays) && numArrays == old(numArrays)
      ensures listing.Ok? && listing.status == 200 ==> (TableShown() <==> listing.body.results != [])
      ensures listing == HttpError(404) ==> !TableShown()
      ensures Failed(listing) ==> TableShown() == old(TableShown())
    {
      var e := FetchData(None, page, NetworkError, listing);
      f.sent := f.sent + [e.request];
      if e.arrays.Some? {
        availableArrays := e.arrays.value;
      }
      if e.count.Some? {
        numArrays := e.count.value;
      }
      f.error := e.error;
    }

    /** `setPage` from the pagination: the effect refetches only when the page really changes. */
    method SetPage(f: CreateForm, newPage: int, listing: Outcome<Page>)
      modifies this, f`error, f`sent
      ensures page == newPage
      ensures newPage == old(page) ==>
        availableArrays == old(availableArrays) && numArrays == old(numArrays) &&
        f.error == old(f.error) && f.sent == old(f.sent)
      ensures newPage != old(page) ==> f.sent == old(f.sent) + [Get(ArraysPage(newPage))]
    {
      if newPage != page {
        page := newPage;
        Fetch(f, listing);
      }
    }

    /** The table and the pagination are shown only for a non-empty listing. */
    predicate TableShown()
      reads this
    {
      |availableArrays| > 0
    }
  }

  /** `handleArraySelect`: the draft becomes the chosen record's data. */
  method HandleArraySelect(f: CreateForm, chosen: Record)
    requires f.Valid() && f.fillMethod == Database
    modifies f`draft
    ensures f.Valid() && f.draft == Elements(chosen.data)
  {
    f.draft := Elements(chosen.data);
  }

  /**
    * `handleInputChange`: the text is parsed by the shared rule into a new
    * array that replaces the draft (in this form the draft is always an
    * array); the listed records are not touched.
    */
  method HandleInputChange(f: CreateForm, value: string)
    requires f.Valid() && f.fillMethod == Database
    modifies f`draft
    ensures f.Valid() && f.draft == Elements(ParseText(value))
  {
    f.draft := Elements(ParseText(value));
  }

  /** The textarea: the draft joined by single spaces. */
  function DraftText(d: Draft): string
    requires d.Elements?
  {
    JoinCells(d.cells, " ")
  }

  /** The textarea is disabled for an empty draft. */
  predicate FieldDisabled(d: Draft) {
    d.Length() == Some(0)
  }

  /** Both submit buttons: `disabled={array.length <= 1}`; never for the object form, whose length is undefined. */
  predicate ButtonsDisabled(d: Draft) {
    d.Length().Some? && d.Length().value <= 1
  }

  /**
    * A selected record of numbers shows as text that, edited without a
    * change, gives back the same draft.
    */
  lemma SelectedRecordRoundTrip(xs: seq<int>)
    requires xs != []
    ensures ParseText(DraftText(Elements(Nums(xs)))) == Nums(xs)
  {
    ReparseJoined(Nums(xs));
  }

  /** A selected record with two or more values can be saved and sorted; one with fewer cannot. */
  lemma SelectedRecordSubmittable(r: Record)
    ensures ButtonsDisabled(Elements(r.data)) <==> |r.data| <= 1
    ensures FieldDisabled(Elements(r.data)) <==> r.data == []
  {
  }
}
