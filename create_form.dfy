/**
  * The create page's form (lab-2-web/frontend/src/components/form/CreateArrayForm.js):
  * its state, the submit handler that saves the draft or saves and sorts it,
  * and the fill-method switch. The four input forms (modules
  * KeyboardArrayForm, RandomArrayForm, FileArrayForm and DatabaseArrayForm)
  * act on this state through the setters it hands them; each of their
  * handlers requires its own fill method to be the current one, which is how
  * the model renders exactly the form keyed by the method.
  */
module CreateArrayForm {
  import opened Options
  import opened Tokens
  import opened Messages
  import opened Api
  import SortedArrayForm

  /** The selector's four methods, each keying one input form. */
  datatype FillMethod = Keyboard | Random | File | Database

  /**
    * The `array` state: a JavaScript array of draft values, or, once the
    * keyboard form's whole-array textarea has been edited, an object whose
    * `data` field holds them.
    */
  datatype Draft = Elements(cells: seq<Cell>) | WholeArray(data: seq<Cell>)
  {
    /** `array.length`: undefined (None) for the object. */
    function Length(): (n: Option<nat>)
      ensures n.Some? <==> Elements?
      ensures n.Some? ==> n.value == |cells|
    {
      if Elements? then Some(|cells|) else None
    }
  }

  /**
    * The coercion before sending: `array.data.map(Number)` in whole-array
    * mode, `array.map(Number)` otherwise. None when the draft's shape does
    * not fit the mode, where the access throws.
    */
  function Coerce(draft: Draft, whole: bool): (r: Option<seq<JsNumber>>)
    ensures r.Some? <==> (whole <==> draft.WholeArray?)
    ensures r.Some? && whole ==>
      |r.value| == |draft.data| && forall i :: 0 <= i < |draft.data| ==> r.value[i] == ToNumber(draft.data[i])
    ensures r.Some? && !whole ==>
      |r.value| == |draft.cells| && forall i :: 0 <= i < |draft.cells| ==> r.value[i] == ToNumber(draft.cells[i])
  {
    if whole && draft.WholeArray? then Some(ToNumbers(draft.data))
    else if !whole && draft.Elements? then Some(ToNumbers(draft.cells))
    else None
  }

  class CreateForm {
    var isWholeArrayInput: bool
    var currentElement: string
    var fillMethod: FillMethod
    var selectedArray: Option<Record>
    var isFileValid: bool
    var numElements: string
    var maxValue: string
    var minValue: string
    var error: Option<Msg>
    var draft: Draft  // the `array` state
    var info: Option<Msg>
    var isSaving: bool
    /** The requests the form has sent, oldest first. */
    var sent: seq<Request>

    /**
      * Whole-array input is only on in the keyboard form, and outside it the
      * draft is an array.
      */
    ghost predicate Valid()
      reads this
    {
      (isWholeArrayInput ==> fillMethod == Keyboard) && (!isWholeArrayInput ==> draft.Elements?)
    }

    /** The initial state of every `useState`. */
    constructor()
      ensures Valid()
      ensures !isWholeArrayInput && currentElement == "" && fillMethod == Keyboard && selectedArray == None
      ensures !isFileValid && numElements == "10" && maxValue == "100" && minValue == "1"
      ensures error == None && draft == Elements([]) && info == None && !isSaving && sent == []
    {
      isWholeArrayInput := false;
      currentElement := "";
      fillMethod := Keyboard;
      selectedArray := None;
      isFileValid := false;
      numElements := "10";
      maxValue := "100";
      minValue := "1";
      error := None;
      draft := Elements([]);
      info := None;
      isSaving := false;
      sent := [];
    }

    /**
      * `handleSubmit`: clears the error and the info, coerces the draft,
      * then, when the Save button set `isSaving`, creates the array and
      * resets `isSaving`; otherwise goes on to `handleSort`. `threw` says the
      * handler's promise rejected.
      */
    method HandleSubmit(ctx: SortedArrayForm.ArrayContext, createReply: Outcome<Record>, sortReply: Outcome<SortBody>)
      returns (threw: bool)
      requires Valid()
      modifies this, ctx
      ensures Valid()
      ensures isWholeArrayInput == old(isWholeArrayInput) && currentElement == old(currentElement)
      ensures fillMethod == old(fillMethod) && selectedArray == old(selectedArray) && isFileValid == old(isFileValid)
      ensures numElements == old(numElements) && maxValue == old(maxValue) && minValue == old(minValue)
      ensures draft == old(draft)
      ensures Coerce(old(draft), old(isWholeArrayInput)).None? ==>
        threw && error == None && info == None && isSaving == old(isSaving) && sent == old(sent) && unchanged(ctx)
      ensures Coerce(old(draft), old(isWholeArrayInput)).Some? && old(isSaving) ==>
        var data := Coerce(old(draft), old(isWholeArrayInput)).value;
        var created := CreateArray(createReply, true);
        && !threw && !isSaving
        && sent == old(sent) + [CreateRequest(data)]
        && error == created.reported
        && (info == Some(Added) <==> created.returned.Some?) && (info.Some? ==> info == Some(Added))
        && unchanged(ctx)
      ensures Coerce(old(draft), old(isWholeArrayInput)).Some? && !old(isSaving) ==>
        var data := Coerce(old(draft), old(isWholeArrayInput)).value;
        isSaving == old(isSaving) && SortedAfterCreate(data, createReply, sortReply, old(sent), sent, threw)
      ensures !(Coerce(old(draft), old(isWholeArrayInput)).Some? && !old(isSaving) &&
                createReply.Ok? && createReply.status == 201 && sortReply.Ok? && sortReply.status == 200) ==>
        unchanged(ctx)
      ensures Coerce(old(draft), old(isWholeArrayInput)).Some? && !old(isSaving) &&
              createReply.Ok? && createReply.status == 201 && sortReply.Ok? && sortReply.status == 200 ==>
        ctx.sortedArray == sortReply.body.data && ctx.executionTime == Some(sortReply.body.executionTime)
    {
      error := None;
      info := None;
      var numArray := Coerce(draft, isWholeArrayInput);
      if numArray.None? {
        return true;
      }
      if isSaving {
        sent := sent + [CreateRequest(numArray.value)];
        var created := CreateArray(createReply, true);
        if created.reported.Some? {
          error := created.reported;
        }
        if created.returned.Some? {
          info := Some(Added);
        }
        isSaving := false;
        threw := false;
      } else {
        threw := HandleSort(ctx, numArray.value, createReply, sortReply);
      }
    }

    /**
      * What the sort path of `handleSubmit` promises: one create request;
      * then, only when it returned a record, one sort request for that
      * record's id; the "added and sorted" info only when the sort did not
      * reject; a failed create reports its message.
      */
    ghost predicate SortedAfterCreate(data: seq<JsNumber>, createReply: Outcome<Record>, sortReply: Outcome<SortBody>,
                                      sent0: seq<Request>, sent1: seq<Request>, threw: bool)
      reads this
    {
      var created := CreateArray(createReply, true);
      && error == created.reported
      && (created.returned.None? ==> sent1 == sent0 + [CreateRequest(data)] && !threw && info == None)
      && (created.returned.Some? ==>
            && sent1 == sent0 + [CreateRequest(data), SortPost(created.returned.value.id)]
            && (threw <==> !sortReply.Ok?)
            && (info == Some(AddedAndSorted) <==> !threw)
            && (threw ==> info == None))
    }

    /**
      * `handleSort(array)`: creates the array, and only when a record comes
      * back sorts it with `performBucketSort` under the new record's id and
      * then sets the "added and sorted" info.
      */
    method HandleSort(ctx: SortedArrayForm.ArrayContext, data: seq<JsNumber>, createReply: Outcome<Record>, sortReply: Outcome<SortBody>)
      returns (threw: bool)
      requires error == None && info == None
      modifies this`sent, this`error, this`info, ctx
      ensures SortedAfterCreate(data, createReply, sortReply, old(sent), sent, threw)
      ensures !(createReply.Ok? && createReply.status == 201 && sortReply.Ok? && sortReply.status == 200) ==>
        unchanged(ctx)
      ensures createReply.Ok? && createReply.status == 201 && sortReply.Ok? && sortReply.status == 200 ==>
        ctx.sortedArray == sortReply.body.data && ctx.executionTime == Some(sortReply.body.executionTime)
    {
      sent := sent + [CreateRequest(data)];
      var created := CreateArray(createReply, true);
      if created.reported.Some? {
        error := created.reported;
      }
      threw := false;
      if created.returned.Some? {
        var request, sortThrew := SortedArrayForm.PerformBucketSort(ctx, created.returned.value.id, sortReply);
        sent := sent + [request];
        if sortThrew {
          return true;
        }
        info := Some(AddedAndSorted);
      }
    }

    /**
      * `handleFillMethodChange`: switches the method, empties the draft,
      * clears info and error, marks the file valid and leaves whole-array
      * input; nothing else changes.
      */
    method HandleFillMethodChange(newMethod: FillMethod)
      modifies this
      ensures Valid()
      ensures fillMethod == newMethod && draft == Elements([]) && info == None && error == None
      ensures isFileValid && !isWholeArrayInput
      ensures currentElement == old(currentElement) && numElements == old(numElements)
      ensures minValue == old(minValue) && maxValue == old(maxValue)
      ensures selectedArray == old(selectedArray) && isSaving == old(isSaving) && sent == old(sent)
    {
      fillMethod := newMethod;
      draft := Elements([]);
      info := None;
      error := None;
      isFileValid := true;
      isWholeArrayInput := false;
    }
  }
}
