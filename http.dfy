/** What the client sends and receives over HTTP, with the transport itself
    abstracted: a request is a value, and the server's answer (or the
    transport failure) is given. */
module Http {
  import opened Wrappers
  import opened JsString

  datatype Method = GET | POST | PUT | PATCH | DELETE

  /** A request as `fetch` receives it; `B` is the (unserialised) body. */
  datatype Request<B> = Request(verb: Method, url: string, headers: map<string, string>, body: Option<B>)

  /** A response: `text` is `None` when `response.text()` rejects; `link` and
      `contentType` are the `link` and `content-type` headers (`None` when
      `headers.get` returns null); `json` is what `response.json()` yields. */
  datatype Response<T> = Response(
    status: int,
    statusText: string,
    text: Option<string>,
    link: Option<string>,
    contentType: Option<string>,
    json: T)

  /** The outcome of `await fetch(...)`: a response, or a rejected promise. */
  datatype Fetched<T> = Received(response: Response<T>) | NetworkFailure(message: string)

  /** `response.ok`. */
  predicate IsOk<T>(r: Response<T>) {
    200 <= r.status <= 299
  }

  const RelNext := "rel=\"next\""

  /** `linkHeader ? linkHeader.includes('rel="next"') : false`. */
  predicate HasNextPage(link: Option<string>) {
    link.Some? && Includes(link.value, RelNext)
  }

  /** A list response with its pagination cursor. */
  datatype GistPage<G> = GistPage(gists: seq<G>, hasNext: bool, hasPrev: bool, currentPage: int)

  /** The cursor the list methods derive from a successful response to the
      request for `page`. */
  function PageOf<G>(page: int, r: Response<seq<G>>): (p: GistPage<G>)
    ensures p.gists == r.json && p.currentPage == page
    ensures p.hasNext <==> r.link.Some? && Includes(r.link.value, RelNext)
    ensures p.hasPrev <==> page > 1
  {
    GistPage(r.json, HasNextPage(r.link), page > 1, page)
  }

  /** An empty or absent `link` header never announces a next page. */
  lemma NoLinkNoNext(link: Option<string>)
    requires link.None? || link.value == ""
    ensures !HasNextPage(link)
  {
  }

  /** A header that carries the `rel="next"` relation somewhere announces a next page. */
  lemma LinkWithNext(before: string, after: string)
    ensures HasNextPage(Some(before + RelNext + after))
  {
    IncludesConcat(before, RelNext, after);
  }
}
