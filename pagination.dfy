/** The page navigator: the typed page number, the previous/next arrows,
    the rule that hides the navigator and the "of N" label. A requested
    page is returned to the caller in place of the `onPageChange` call. */
module Pagination {
  import opened Wrappers
  import opened JsString

  /** What submitting the typed page does. */
  datatype Submission = Go(page: int) | Reset | Stay

  /** `handleInputPageSubmit`: a positive number other than the current
      page is requested; text that is not a number, zero or a negative
      number puts the current page back in the box; the current page
      itself does nothing. */
  function SubmitOutcome(input: string, currentPage: int): (o: Submission)
    ensures o.Go? <==> ParseInt(input).Some? && ParseInt(input).value > 0 && ParseInt(input).value != currentPage
    ensures o.Go? ==> o.page == ParseInt(input).value && o.page >= 1
    ensures o == Reset <==> ParseInt(input).None? || ParseInt(input).value <= 0
    ensures o == Stay <==> ParseInt(input) == Some(currentPage) && currentPage > 0
  {
    match ParseInt(input)
    case Some(n) =>
      if n != 0 && n > 0 && n != currentPage then Go(n)
      else if n == 0 || n <= 0 then Reset
      else Stay
    case None => Reset
  }

  /** Submitting the page the box was last reset to requests nothing. */
  lemma ResubmitIsInert(currentPage: int)
    ensures SubmitOutcome(IntToString(currentPage), currentPage) == if currentPage > 0 then Stay else Reset
  {
    ParseIntRoundTrip(currentPage);
  }

  /** A page typed as its decimal rendering is requested exactly when it is
      positive and not the current one. */
  lemma TypedPageRequested(page: int, currentPage: int)
    ensures SubmitOutcome(IntToString(page), currentPage) == Go(page) <==> page > 0 && page != currentPage
  {
    ParseIntRoundTrip(page);
  }

  /** `handlePrevPage`. */
  function PrevRequest(hasPrev: bool, loading: bool, currentPage: int): (r: Option<int>)
    ensures r.Some? <==> hasPrev && !loading
    ensures r.Some? ==> r.value == currentPage - 1
  {
    if hasPrev && !loading then Some(currentPage - 1) else None
  }

  /** `handleNextPage`. */
  function NextRequest(hasNext: bool, loading: bool, currentPage: int): (r: Option<int>)
    ensures r.Some? <==> hasNext && !loading
    ensures r.Some? ==> r.value == currentPage + 1
  {
    if hasNext && !loading then Some(currentPage + 1) else None
  }

  /** The arrows' `--disabled` class: `!hasPrev || loading` and
      `!hasNext || loading`. */
  predicate ArrowDisabled(available: bool, loading: bool) {
    !available || loading
  }

  /** An arrow is drawn disabled exactly when clicking it requests nothing. */
  lemma ArrowsShowTheirGuards(hasPrev: bool, hasNext: bool, loading: bool, currentPage: int)
    ensures ArrowDisabled(hasPrev, loading) <==> PrevRequest(hasPrev, loading, currentPage).None?
    ensures ArrowDisabled(hasNext, loading) <==> NextRequest(hasNext, loading, currentPage).None?
  {
  }

  /** The navigator renders nothing on page one without a next page. */
  predicate Hidden(currentPage: int, hasNext: bool)
    ensures Hidden(currentPage, hasNext) ==> currentPage == 1 && NextRequest(hasNext, false, currentPage).None?
    ensures !Hidden(currentPage, hasNext) ==> currentPage != 1 || NextRequest(hasNext, false, currentPage) == Some(2)
  {
    currentPage == 1 && !hasNext
  }

  /** `of <totalPages>+` while there is a next page, else `of <currentPage>`. */
  function PageLabel(hasNext: bool, totalPages: int, currentPage: int): (text: string)
    ensures StartsWith(text, "of ")
    ensures |text| > 3 && (text[|text| - 1] == '+' <==> hasNext)
  {
    if hasNext then "of " + IntToString(totalPages) + "+" else "of " + IntToString(currentPage)
  }

  /** A shown navigator offers a way forward or back from page one: when it
      is visible on page one, the next arrow can be used (unless loading). */
  lemma ShownOnFirstPageHasNext(currentPage: int, hasNext: bool, loading: bool)
    requires currentPage == 1 && !Hidden(currentPage, hasNext) && !loading
    ensures NextRequest(hasNext, loading, currentPage) == Some(2)
  {
  }

  /** The page-number box, `inputPage`. */
  class PageInput {
    var inputPage: string

    /** `useState(currentPage.toString())`. */
    constructor (currentPage: int)
      ensures inputPage == IntToString(currentPage)
    {
      inputPage := IntToString(currentPage);
    }

    /** The effect run when `currentPage` changes. */
    method CurrentPageChanged(currentPage: int)
      modifies this
      ensures inputPage == IntToString(currentPage)
    {
      inputPage := IntToString(currentPage);
    }

    /** `handleInputPageChange`. */
    method Typed(value: string)
      modifies this
      ensures inputPage == value
    {
      inputPage := value;
    }

    /** `handleInputPageSubmit` (on blur or Enter): the page to request, if
        any; a reset puts the current page back in the box. */
    method Submit(currentPage: int) returns (request: Option<int>)
      modifies this
      ensures var o := SubmitOutcome(old(inputPage), currentPage);
        request == (if o.Go? then Some(o.page) else None)
        && inputPage == (if o == Reset then IntToString(currentPage) else old(inputPage))
    {
      request := None;
      var pageNum := ParseInt(inputPage);
      if pageNum.Some? && pageNum.value != 0 && pageNum.value > 0 && pageNum.value != currentPage {
        request := Some(pageNum.value);
      } else if pageNum.None? || pageNum.value == 0 || pageNum.value <= 0 {
        inputPage := IntToString(currentPage);
      }
    }
  }
}
