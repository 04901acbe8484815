/**
  * The page controls (lab-2-web/frontend/src/components/pagination/ArrayPagination.js)
  * under a listing of at most 50 records per page.
  */
module ArrayPagination {
  import opened Options

  const PAGE_SIZE := 50

  datatype Control = First | Prev | Next | Last

  /** The controls exist only for more than one page's worth of arrays; an undefined count shows none. */
  predicate ControlsShown(numArrays: Option<int>) {
    numArrays.Some? && numArrays.value > PAGE_SIZE
  }

  /** First and Prev are disabled on the first page; Next and Last when the page shown is not full. */
  predicate Disabled(c: Control, page: int, arraysLength: int) {
    match c
    case First | Prev => page <= 1
    case Next | Last => arraysLength < PAGE_SIZE
  }

  /** `Math.ceil(numArrays / 50)`: the number of the page holding the last array. */
  function LastPage(numArrays: int): (p: int)
    ensures PAGE_SIZE * (p - 1) < numArrays <= PAGE_SIZE * p
  {
    -((-numArrays) / PAGE_SIZE)
  }

  /** The page each control asks for. */
  function Target(c: Control, page: int, numArrays: int): (p: int)
    ensures c == First ==> p == 1
    ensures c == Prev ==> p == page - 1
    ensures c == Next ==> p == page + 1
    ensures c == Last ==> PAGE_SIZE * (p - 1) < numArrays <= PAGE_SIZE * p
  {
    match c
    case First => 1
    case Prev => page - 1
    case Next => page + 1
    case Last => LastPage(numArrays)
  }

  /** 120 arrays make three pages. */
  lemma LastPageOf120(n: int)
    requires n == 120
    ensures LastPage(n) == 3
  {
  }

  /** An enabled First or Prev never asks for a page below 1. */
  lemma EnabledBackwardsStaysOnPages(c: Control, page: int, arraysLength: int, numArrays: int)
    requires c == First || c == Prev
    requires !Disabled(c, page, arraysLength)
    ensures Target(c, page, numArrays) >= 1
  {
  }

  /** Whenever the controls are shown, Last leads beyond the first page. */
  lemma ShownLastPageBeyondFirst(numArrays: int)
    requires ControlsShown(Some(numArrays))
    ensures Target(Last, 1, numArrays) >= 2
  {
  }

  /** The controls are shown exactly when the arrays fill more than one page. */
  lemma ControlsShownIffSeveralPages(numArrays: Option<int>)
    ensures ControlsShown(numArrays) <==> numArrays.Some? && LastPage(numArrays.value) >= 2
  {
  }

  /**
    * How many records page `page` of a listing of `numArrays` holds, with
    * pages of 50 as the controls assume.
    */
  function PageLength(numArrays: nat, page: nat): (k: nat)
    requires page >= 1
    ensures k <= PAGE_SIZE
    ensures k == PAGE_SIZE <==> numArrays >= PAGE_SIZE * page
    ensures k == 0 <==> numArrays <= PAGE_SIZE * (page - 1)
  {
    var before := PAGE_SIZE * (page - 1);
    if numArrays <= before then 0
    else if numArrays - before >= PAGE_SIZE then PAGE_SIZE
    else numArrays - before
  }

  /**
    * Next and Last are enabled exactly when the page shown is full, that
    * is, when the arrays reach the end of this page.
    */
  lemma ForwardEnabledIffFullPage(c: Control, numArrays: nat, page: nat)
    requires c == Next || c == Last
    requires page >= 1
    ensures !Disabled(c, page, PageLength(numArrays, page)) <==> numArrays >= PAGE_SIZE * page
  {
  }

  /**
    * A full last page leaves Next enabled: with 100 arrays, page 2 is full
    * and Next asks for page 3, beyond the last page.
    */
  lemma FullLastPageLeavesNextEnabled(numArrays: nat, page: nat)
    requires numArrays == 100 && page == 2
    ensures ControlsShown(Some(numArrays))
    ensures !Disabled(Next, page, PageLength(numArrays, page))
    ensures Target(Next, page, numArrays) == 3 > LastPage(numArrays)
  {
  }
}
