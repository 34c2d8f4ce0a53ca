/** `GitHubService`: the unauthenticated list and lookup calls that use
    `fetch` directly, with a fixed page size of 30. */
module GitHubService {
  import opened Wrappers
  import opened JsString
  import opened Http
  import opened GistModel
  import GitHubApi

  const BaseUrl := "https://api.github.com"
  const PerPage := 30

  /** `fetch(url)` with no options: a bare GET. */
  function Plain(url: string): Request<GitHubApi.GistBody> {
    Request(GET, url, map[], None)
  }

  /** The fixed `&per_page=30` that ends both list URLs. */
  const PerPageQuery := "&per_page=" + IntToString(PerPage)

  /** `<head><page>&per_page=30`. */
  function PagedUrl(head: string, page: int): string {
    head + IntToString(page) + PerPageQuery
  }

  function PublicGistsUrl(page: int): string {
    PagedUrl(BaseUrl + "/gists/public?page=", page)
  }

  function UserGistsUrl(username: string, page: int): string {
    PagedUrl(BaseUrl + "/users/" + username + "/gists?page=", page)
  }

  /** `fetchPublicGists(page)`: the cursor of the response, or
      `GitHub API error: <status>`. */
  function FetchPublicGists(page: int, fetched: Fetched<seq<Gist>>): (c: GitHubApi.Call<GistPage<Gist>>)
    ensures c.sent == [Plain(PublicGistsUrl(page))]
    ensures fetched.Received? && !IsOk(fetched.response) ==> c.result == Err(GitHubApi.ApiError(fetched.response.status))
    ensures c.result.Ok? <==> fetched.Received? && IsOk(fetched.response)
    ensures c.result.Ok? ==>
              c.result.value.gists == fetched.response.json && c.result.value.currentPage == page
              && (c.result.value.hasNext <==> HasNextPage(fetched.response.link))
              && (c.result.value.hasPrev <==> page > 1)
  {
    GitHubApi.Call([Plain(PublicGistsUrl(page))], GitHubApi.ListOutcome(page, fetched, GitHubApi.StatusError))
  }

  /** `fetchUserGists(username, page)`. */
  function FetchUserGists(username: string, page: int, fetched: Fetched<seq<Gist>>): (c: GitHubApi.Call<GistPage<Gist>>)
    ensures c.sent == [Plain(UserGistsUrl(username, page))]
    ensures fetched.Received? && !IsOk(fetched.response) ==> c.result == Err(GitHubApi.ApiError(fetched.response.status))
    ensures c.result.Ok? <==> fetched.Received? && IsOk(fetched.response)
    ensures c.result.Ok? ==>
              c.result.value.gists == fetched.response.json && c.result.value.currentPage == page
              && (c.result.value.hasNext <==> HasNextPage(fetched.response.link))
              && (c.result.value.hasPrev <==> page > 1)
  {
    GitHubApi.Call([Plain(UserGistsUrl(username, page))], GitHubApi.ListOutcome(page, fetched, GitHubApi.StatusError))
  }

  /** `searchGistById(id)`: `null` for 404, `GitHub API error: <status>` for
      any other failure. */
  function SearchGistById(gistId: string, fetched: Fetched<Gist>): (c: GitHubApi.Call<Option<Gist>>)
    ensures c.sent == [Plain(BaseUrl + "/gists/" + gistId)]
    ensures c.result == Ok(None) <==> fetched.Received? && fetched.response.status == 404
    ensures fetched.Received? && !IsOk(fetched.response) && fetched.response.status != 404 ==>
              c.result == Err(GitHubApi.ApiError(fetched.response.status))
    ensures c.result.Ok? && c.result.value.Some? ==>
              fetched.Received? && IsOk(fetched.response) && c.result.value.value == fetched.response.json
    ensures fetched.Received? && IsOk(fetched.response) ==> c.result == Ok(Some(fetched.response.json))
    ensures fetched.NetworkFailure? ==> c.result == Err(fetched.message)
    ensures c.result.Err? <==> fetched.NetworkFailure? || (!IsOk(fetched.response) && fetched.response.status != 404)
  {
    var result: Result<Option<Gist>> :=
      match fetched
      case NetworkFailure(m) => Err(m)
      case Received(r) =>
        if IsOk(r) then Ok(Some(r.json))
        else if r.status == 404 then Ok(None)
        else Err(GitHubApi.ApiError(r.status));
    GitHubApi.Call([Plain(BaseUrl + "/gists/" + gistId)], result)
  }

  /** Equal strings with the same head and tail have the same middle. */
  lemma CancelMiddle(head: string, x: string, y: string, tail: string)
    requires head + x + tail == head + y + tail
    ensures x == y
  {
    assert |x| == |y|;
    assert x == (head + x + tail)[|head|..|head| + |x|];
    assert y == (head + y + tail)[|head|..|head| + |y|];
  }

  /** Both list URLs ask for 30 items per page, whatever the page. */
  lemma PageSizeFixed(head: string, page: int)
    ensures var url := PagedUrl(head, page);
      |url| >= 12 && url[|url| - 12..] == "&per_page=30"
  {
    assert IntToString(PerPage) == "30";
    assert PerPageQuery == "&per_page=30";
  }

  /** Different pages of one listing are requested at different URLs. */
  lemma PageUrlsDistinct(head: string, p: int, q: int)
    requires PagedUrl(head, p) == PagedUrl(head, q)
    ensures p == q
  {
    CancelMiddle(head, IntToString(p), IntToString(q), PerPageQuery);
    IntToStringInjective(p, q);
  }
}
