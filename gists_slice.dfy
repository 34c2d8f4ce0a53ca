/** The Redux gists slice: reducers that assign the state's fields in place,
    and the reactions to the list and search thunks. */
module GistsSlice {
  import opened Wrappers
  import opened Http
  import opened GistModel
  import opened AppState
  import GistsStore

  /** The page count shown after a listing: one past the current page when
      there is a next page (at least 2), else the current page (at least 1). */
  function TotalPagesEstimate(currentPage: int, hasNext: bool): (n: int)
    ensures n >= 1 && n >= currentPage
    ensures hasNext ==> n > currentPage && n >= 2
    ensures currentPage >= 1 ==> n == if hasNext then currentPage + 1 else currentPage
  {
    if hasNext then (if currentPage + 1 > 2 then currentPage + 1 else 2)
    else (if currentPage > 1 then currentPage else 1)
  }

  class Slice {
    var gists: seq<Gist>
    var searchResult: Option<Gist>
    var searchResults: seq<Gist>
    var gistContents: map<string, string>
    var loading: bool
    var loadingContent: bool
    var currentPage: int
    var hasNext: bool
    var hasPrev: bool
    var totalPages: int

    /** The slice's fields read as one state value. */
    function State(): GistsState
      reads this
    {
      GistsState(gists, searchResult, searchResults, gistContents, loading, loadingContent,
                 currentPage, hasNext, hasPrev, totalPages)
    }

    constructor ()
      ensures State() == InitialGists
    {
      gists := [];
      searchResult := None;
      searchResults := [];
      gistContents := map[];
      loading := true;
      loadingContent := false;
      currentPage := 1;
      hasNext := false;
      hasPrev := false;
      totalPages := 1;
    }

    method SetGists(payload: seq<Gist>)
      modifies this
      ensures State() == old(State()).(gists := payload)
    {
      gists := payload;
    }

    method SetSearchResult(payload: Option<Gist>)
      modifies this
      ensures State() == old(State()).(searchResult := payload)
    {
      searchResult := payload;
    }

    method SetSearchResults(payload: seq<Gist>)
      modifies this
      ensures State() == old(State()).(searchResults := payload)
    {
      searchResults := payload;
    }

    /** The same transition as the store's `clearSearch`. */
    method ClearSearch()
      modifies this
      ensures State() == GistsStore.ClearSearch(old(State()))
    {
      searchResult := None;
      searchResults := [];
    }

    method SetGistContents(payload: map<string, string>)
      modifies this
      ensures State() == old(State()).(gistContents := payload)
    {
      gistContents := payload;
    }

    /** The same transition as the store's `updateGistContent`. */
    method UpdateGistContent(gistId: string, content: string)
      modifies this
      ensures State() == GistsStore.UpdateGistContent(old(State()), gistId, content)
    {
      gistContents := gistContents[gistId := content];
    }

    method SetLoading(payload: bool)
      modifies this
      ensures State() == old(State()).(loading := payload)
    {
      loading := payload;
    }

    method SetLoadingContent(payload: bool)
      modifies this
      ensures State() == old(State()).(loadingContent := payload)
    {
      loadingContent := payload;
    }

    /** `setPagination` copies its four fields and nothing else. */
    method SetPagination(page: int, next: bool, prev: bool, total: int)
      modifies this
      ensures State() == old(State()).(currentPage := page, hasNext := next, hasPrev := prev, totalPages := total)
    {
      currentPage := page;
      hasNext := next;
      hasPrev := prev;
      totalPages := total;
    }

    method ResetGistsState()
      modifies this
      ensures State() == InitialGists
    {
      gists := [];
      searchResult := None;
      searchResults := [];
      gistContents := map[];
      loading := true;
      loadingContent := false;
      currentPage := 1;
      hasNext := false;
      hasPrev := false;
      totalPages := 1;
    }

    /** `fetchUserGists.pending`. */
    method FetchUserGistsPending()
      modifies this
      ensures State() == old(State()).(loadingContent := true)
    {
      loadingContent := true;
    }

    /** `fetchUserGists.fulfilled`: the page replaces the list and the cursor,
        and the page count is estimated from it. */
    method FetchUserGistsFulfilled(payload: GistPage<Gist>)
      modifies this
      ensures State() == old(State()).(loadingContent := false, gists := payload.gists,
        currentPage := payload.currentPage, hasNext := payload.hasNext, hasPrev := payload.hasPrev,
        totalPages := TotalPagesEstimate(payload.currentPage, payload.hasNext))
      ensures totalPages >= currentPage && (hasNext ==> totalPages > currentPage)
    {
      loadingContent := false;
      gists := payload.gists;
      currentPage := payload.currentPage;
      hasNext := payload.hasNext;
      hasPrev := payload.hasPrev;
      totalPages := TotalPagesEstimate(payload.currentPage, payload.hasNext);
    }

    /** `fetchUserGists.rejected`: the list is kept. */
    method FetchUserGistsRejected()
      modifies this
      ensures State() == old(State()).(loadingContent := false)
    {
      loadingContent := false;
    }

    /** `searchGists.fulfilled`: a keyword search replaces any single result. */
    method SearchGistsFulfilled(payload: seq<Gist>)
      modifies this
      ensures State() == old(State()).(searchResults := payload, searchResult := None)
    {
      searchResults := payload;
      searchResult := None;
    }

    /** `searchGistById.fulfilled`: a single result replaces any list. */
    method SearchGistByIdFulfilled(payload: Gist)
      modifies this
      ensures State() == old(State()).(searchResult := Some(payload), searchResults := [])
    {
      searchResult := Some(payload);
      searchResults := [];
    }
  }
}
