/**
  * The client's calls to the server (lab-2-web/frontend/src/api/api.js).
  * The transport is left abstract: each call is given the server's reply as
  * an `Outcome`, and the model says which callbacks the call invokes, what it
  * returns, and whether it rejects. A call made without an `onError` sink
  * rejects on failure, because the error handler then calls `undefined`.
  */
module Api {
  import opened Options
  import opened Tokens
  import opened Messages

  /** A stored array as the server sends it. */
  datatype Record = Record(id: int, data: seq<Cell>, isSorted: bool, creationDate: string, updateDate: string)

  /** One page of the listing: its records and the number of records in all. */
  datatype Page = Page(results: seq<Record>, count: int)

  /** The body of a sort response. */
  datatype SortBody = SortBody(data: seq<int>, executionTime: real)

  /**
    * The server's reply: a response with its status and body, an error
    * response with its status, or no response at all.
    */
  datatype Outcome<T> = Ok(status: int, body: T) | HttpError(status: int) | NetworkError

  /** The two listing addresses: one record by id, or one page of all of them. */
  datatype Url = ArrayById(searchId: string) | ArraysPage(page: int)

  /** A request the client sends. */
  datatype Request =
    | Get(url: Url)
    | Post(data: seq<JsNumber>, isSorted: bool)
    | Put(id: int, data: seq<JsNumber>, isSorted: bool)
    | Delete(id: int)
    | SortPost(id: int)

  /** JavaScript truthiness of a search id: present and not the empty string. */
  predicate Truthy(searchId: Option<string>) {
    searchId.Some? && searchId.value != ""
  }

  /** The address `fetchData` asks: the record itself for a truthy search id, else the page. */
  function FetchUrl(searchId: Option<string>, page: int): (url: Url)
    ensures url.ArrayById? <==> Truthy(searchId)
    ensures url.ArrayById? ==> url.searchId == searchId.value
    ensures url.ArraysPage? ==> url.page == page
  {
    if Truthy(searchId) then ArrayById(searchId.value) else ArraysPage(page)
  }

  /**
    * What `fetchData` does to its caller's state: the request sent, the
    * value given to `setArrays` and to `setNumArrays` (None when that setter
    * is not called) and the error left set (it is cleared first).
    */
  datatype ListingEffect = ListingEffect(request: Request, arrays: Option<seq<Record>>, count: Option<int>, error: Option<Msg>)

  /**
    * `fetchData`: `byId` is the reply to a single-record request and
    * `listing` the reply to a page request; only the one for the chosen
    * address is used.
    */
  function FetchData(searchId: Option<string>, page: int, byId: Outcome<Record>, listing: Outcome<Page>): (e: ListingEffect)
    ensures e.request == Get(FetchUrl(searchId, page))
    ensures Truthy(searchId) ==>
      (byId.Ok? && byId.status == 200 ==> e == ListingEffect(e.request, Some([byId.body]), None, None))
    ensures !Truthy(searchId) ==>
      (listing.Ok? && listing.status == 200 ==>
        e == ListingEffect(e.request, Some(listing.body.results), Some(listing.body.count), None))
    ensures e.count.Some? ==> !Truthy(searchId)
    ensures e.error.Some? <==>
      (if Truthy(searchId) then Failed(byId) else Failed(listing))
    ensures e.error.Some? ==> e.error == Some(LoadFailed) && e.arrays.None? && e.count.None?
    ensures (if Truthy(searchId) then byId == HttpError(404) else listing == HttpError(404)) ==>
      e == ListingEffect(e.request, Some([]), None, None)
  {
    var request := Get(FetchUrl(searchId, page));
    if Truthy(searchId) then
      match byId
      case Ok(status, record) =>
        if status == 200 then ListingEffect(request, Some([record]), None, None)
        else ListingEffect(request, None, None, None)
      case HttpError(status) =>
        if status == 404 then ListingEffect(request, Some([]), None, None)
        else ListingEffect(request, None, None, Some(LoadFailed))
      case NetworkError => ListingEffect(request, None, None, Some(LoadFailed))
    else
      match listing
      case Ok(status, body) =>
        if status == 200 then ListingEffect(request, Some(body.results), Some(body.count), None)
        else ListingEffect(request, None, None, None)
      case HttpError(status) =>
        if status == 404 then ListingEffect(request, Some([]), None, None)
        else ListingEffect(request, None, None, Some(LoadFailed))
      case NetworkError => ListingEffect(request, None, None, Some(LoadFailed))
  }

  /** A reply the catch block reports: no response, or an error response other than 404. */
  predicate Failed<T>(reply: Outcome<T>) {
    reply.NetworkError? || (reply.HttpError? && reply.status != 404)
  }

  /**
    * How a create, edit, delete or sort call ended: what it returned, whether
    * it called `onSuccess`, and the message it passed to `onError`; or it
    * rejected, having no `onError` to call.
    */
  datatype Completion<T> = Completion(returned: Option<T>, succeeded: bool, reported: Option<Msg>) | Threw

  /**
    * The shared shape of the four calls: success only on the one expected
    * status, when `onSuccess` is called and, for a call that returns the
    * body, the body is returned; any other resolved status does nothing; an
    * error response or no response goes to `onError` with the default
    * message, or rejects when there is no `onError`.
    */
  function Settle<T>(reply: Outcome<T>, expected: int, returnsBody: bool, hasOnError: bool): (c: Completion<T>)
    ensures c.Threw? <==> !reply.Ok? && !hasOnError
    ensures c.Completion? ==> (c.succeeded <==> reply.Ok? && reply.status == expected)
    ensures c.Completion? ==> (c.returned.Some? <==> returnsBody && c.succeeded)
    ensures c.Completion? && c.returned.Some? ==> c.returned.value == reply.body
    ensures c.Completion? ==> (c.reported.Some? <==> !reply.Ok?)
    ensures c.Completion? && c.reported.Some? ==> c.reported.value == LoadFailed
  {
    match reply
    case Ok(status, body) =>
      if status == expected then Completion(if returnsBody then Some(body) else None, true, None)
      else Completion(None, false, None)
    case _ =>
      if hasOnError then Completion(None, false, Some(LoadFailed)) else Threw
  }

  /** `createArray`: posts the data with `is_sorted` false; succeeds on 201 and returns the created record. */
  function CreateArray(reply: Outcome<Record>, hasOnError: bool): (c: Completion<Record>)
    ensures c.Completion? && c.returned.Some? <==> reply.Ok? && reply.status == 201
    ensures c.Completion? && c.returned.Some? ==> c.succeeded && c.returned.value == reply.body
  {
    Settle(reply, 201, true, hasOnError)
  }

  /** The request `createArray` sends. */
  function CreateRequest(data: seq<JsNumber>): Request {
    Post(data, false)
  }

  /** `editArray`: succeeds on 200 and returns nothing. */
  function EditArray(reply: Outcome<()>, hasOnError: bool): (c: Completion<()>)
    ensures c.Completion? ==> c.returned.None? && (c.succeeded <==> reply.Ok? && reply.status == 200)
  {
    Settle(reply, 200, false, hasOnError)
  }

  /** `deleteArray`: succeeds on 204 and returns nothing. */
  function DeleteArray(reply: Outcome<()>, hasOnError: bool): (c: Completion<()>)
    ensures c.Completion? ==> c.returned.None? && (c.succeeded <==> reply.Ok? && reply.status == 204)
  {
    Settle(reply, 204, false, hasOnError)
  }

  /** `sortArray`: succeeds on 200 and returns the response body. */
  function SortArray(reply: Outcome<SortBody>, hasOnError: bool): (c: Completion<SortBody>)
    ensures c.Completion? && c.returned.Some? <==> reply.Ok? && reply.status == 200
    ensures c.Completion? && c.returned.Some? ==> c.succeeded && c.returned.value == reply.body
  {
    Settle(reply, 200, true, hasOnError)
  }

  /** A successful response with another 2xx status calls neither callback. */
  lemma OtherSuccessStatusIsSilent<T>(reply: Outcome<T>, expected: int, returnsBody: bool, hasOnError: bool)
    requires reply.Ok? && reply.status != expected
    ensures Settle(reply, expected, returnsBody, hasOnError) == Completion(None, false, None)
  {
  }
}
