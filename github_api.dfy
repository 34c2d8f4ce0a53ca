/** `GitHubApiService`: the GitHub REST calls the application makes through
    the fetch wrapper, each modelled as the requests it sends and the value
    it resolves to (or the error it throws). The server's answers are
    parameters; `storage` is the key-value store the authentication
    service reads its token from. */
module GitHubApi {
  import opened Wrappers
  import opened JsString
  import opened Http
  import opened GistModel
  import ApiClient
  import FirebaseAuth
  import Sequences

  const BaseUrl := "https://api.github.com"
  const GistPrefix := "gist:"
  /** How many distinct search hits are looked up. */
  const LookupCap := 10

  const NoTokenMessage := "No authentication token available"
  const SearchNeedsLogin := "Authentication required for gist search. Please log in with GitHub."
  const SearchUnauthorized := "Authentication required. Please log in with GitHub."
  const SearchRateLimited := "Rate limit exceeded. Please try again later."
  /** Stands for the rejection of `response.text()`, whose own error is not modelled. */
  const UnreadableBody := "response body could not be read"

  /** The payloads of `createGist` and `updateGist`; `files` maps a filename to its content. */
  datatype GistBody =
    | CreateBody(description: string, public: bool, files: map<string, string>)
    | UpdateBody(newDescription: Option<string>, updatedFiles: Option<map<string, string>>)

  /** The requests a call sent, in order, and what it resolved to. */
  datatype Call<T> = Call(sent: seq<Request<GistBody>>, result: Result<T>)

  /** One hit of the code search: `repository.name`, `None` when the
      repository or its name is missing. */
  datatype SearchItem = SearchItem(repositoryName: Option<string>)

  /** The search response body: `items`, and the `message` of an error body
      (`None` also when the error body is not JSON). */
  datatype SearchBody = SearchBody(items: Option<seq<SearchItem>>, message: Option<string>)

  function StoredAuthorization(storage: map<string, string>): string {
    FirebaseAuth.AuthorizationValue(storage)
  }

  function Send(storage: map<string, string>, url: string, options: ApiClient.Options<GistBody>): Request<GistBody> {
    ApiClient.BuildRequest(Some(BaseUrl), url, options, StoredAuthorization(storage))
  }

  /** `{ headers, auth: true }` with the authentication service's headers. */
  function AuthOptions(storage: map<string, string>, verb: Method, body: Option<GistBody>): ApiClient.Options<GistBody> {
    ApiClient.Options(Some(verb), FirebaseAuth.ApiHeaders(storage), body, true)
  }

  function ApiError(status: int): string {
    "GitHub API error: " + IntToString(status)
  }

  function ApiErrorWith(status: int, detail: string): string {
    ApiError(status) + " - " + detail
  }

  function PageQuery(path: string, page: int, perPage: int): string {
    path + "?page=" + IntToString(page) + "&per_page=" + IntToString(perPage)
  }

  /** The list URL written out on the base URL. */
  lemma PageUrlShape(path: string, page: int, perPage: int)
    ensures BaseUrl + PageQuery(path, page, perPage) == BaseUrl + path + "?page=" + IntToString(page) + "&per_page=" + IntToString(perPage)
  {
    var p, q := IntToString(page), IntToString(perPage);
    assert path + "?page=" + p + "&per_page=" + q == path + ("?page=" + p + "&per_page=" + q);
    assert BaseUrl + path + "?page=" + p + "&per_page=" + q == (BaseUrl + path) + ("?page=" + p + "&per_page=" + q);
  }

  /** The outcome shared by the list methods once the response is in hand;
      `failure` is the error a non-ok response throws. */
  function ListOutcome(page: int, fetched: Fetched<seq<Gist>>, failure: Response<seq<Gist>> -> string): (res: Result<GistPage<Gist>>)
    ensures res.Ok? <==> fetched.Received? && IsOk(fetched.response)
    ensures fetched.NetworkFailure? ==> res == Err(fetched.message)
    ensures fetched.Received? && !IsOk(fetched.response) ==> res == Err(failure(fetched.response))
    ensures res.Ok? ==>
              res.value.gists == fetched.response.json && res.value.currentPage == page
              && (res.value.hasNext <==> HasNextPage(fetched.response.link))
              && (res.value.hasPrev <==> page > 1)
  {
    match fetched
    case NetworkFailure(m) => Err(m)
    case Received(r) => if IsOk(r) then Ok(PageOf(page, r)) else Err(failure(r))
  }

  function StatusError(r: Response<seq<Gist>>): string {
    ApiError(r.status)
  }

  /** `GitHub API error: <status> - <body text>`, the text taken verbatim. */
  function StatusTextError<T>(r: Response<T>): string {
    match r.text
    case Some(t) => ApiErrorWith(r.status, t)
    case None => UnreadableBody
  }

  /** `fetchPublicGists(page, perPage)` (the source defaults are 1 and 10). */
  function FetchPublicGists(page: int, perPage: int, fetched: Fetched<seq<Gist>>): (c: Call<GistPage<Gist>>)
    ensures |c.sent| == 1 && c.sent[0].verb == GET && c.sent[0].body.None?
    ensures c.sent[0].url == BaseUrl + "/gists/public" + "?page=" + IntToString(page) + "&per_page=" + IntToString(perPage)
    ensures "Authorization" !in c.sent[0].headers
    ensures c.result == ListOutcome(page, fetched, StatusError)
  {
    var req := Send(map[], PageQuery("/gists/public", page, perPage), ApiClient.Options(None, map[], None, false));
    PageUrlShape("/gists/public", page, perPage);
    Call([req], ListOutcome(page, fetched, StatusError))
  }

  /** `fetchUserGists(username, page, perPage)`. */
  function FetchUserGists(username: string, page: int, perPage: int, fetched: Fetched<seq<Gist>>): (c: Call<GistPage<Gist>>)
    ensures |c.sent| == 1 && c.sent[0].verb == GET && c.sent[0].body.None?
    ensures c.sent[0].url == BaseUrl + ("/users/" + username + "/gists") + "?page=" + IntToString(page) + "&per_page=" + IntToString(perPage)
    ensures "Authorization" !in c.sent[0].headers
    ensures c.result == ListOutcome(page, fetched, StatusError)
  {
    var req := Send(map[], PageQuery("/users/" + username + "/gists", page, perPage), ApiClient.Options(None, map[], None, false));
    PageUrlShape("/users/" + username + "/gists", page, perPage);
    Call([req], ListOutcome(page, fetched, StatusError))
  }

  /** The guard of every authenticated call: no request and the fixed
      error when the stored Authorization is empty. */
  predicate Guarded<T>(storage: map<string, string>, c: Call<T>) {
    (c.sent == [] <==> StoredAuthorization(storage) == "")
    && (c.sent == [] ==> c.result == Err(NoTokenMessage))
  }

  /** Every request carries the bearer token and the v3 Accept header of the
      authentication service, the latter overriding the wrapper's default. */
  predicate SentAuthorized<T>(storage: map<string, string>, c: Call<T>) {
    forall k :: 0 <= k < |c.sent| ==>
      FirebaseAuth.TokenKey in storage
      && "Authorization" in c.sent[k].headers && "Accept" in c.sent[k].headers
      && c.sent[k].headers["Authorization"] == "Bearer " + storage[FirebaseAuth.TokenKey]
      && c.sent[k].headers["Accept"] == FirebaseAuth.GithubV3Json
  }

  lemma AuthOptionsHeaders(storage: map<string, string>, url: string, verb: Method, body: Option<GistBody>)
    requires StoredAuthorization(storage) != ""
    ensures var h := Send(storage, url, AuthOptions(storage, verb, body)).headers;
      FirebaseAuth.TokenKey in storage
      && "Authorization" in h && "Accept" in h && h["Authorization"] == "Bearer " + storage[FirebaseAuth.TokenKey]
      && h["Accept"] == FirebaseAuth.GithubV3Json
  {
    ApiClient.AuthorizationRule(FirebaseAuth.ApiHeaders(storage), body.Some?, true, StoredAuthorization(storage));
    ApiClient.AcceptRule(FirebaseAuth.ApiHeaders(storage), body.Some?, true, StoredAuthorization(storage));
  }

  /** `fetchAuthenticatedUserGists(page, perPage)` (defaults 1 and 5). */
  function FetchAuthenticatedUserGists(storage: map<string, string>, page: int, perPage: int, fetched: Fetched<seq<Gist>>): (c: Call<GistPage<Gist>>)
    ensures Guarded(storage, c) && SentAuthorized(storage, c)
    ensures c.sent != [] ==>
              |c.sent| == 1 && c.sent[0].verb == GET
              && c.sent[0].url == BaseUrl + "/gists" + "?page=" + IntToString(page) + "&per_page=" + IntToString(perPage)
              && c.result == ListOutcome(page, fetched, StatusTextError)
  {
    if StoredAuthorization(storage) == "" then Call([], Err(NoTokenMessage))
    else
      var url := PageQuery("/gists", page, perPage);
      AuthOptionsHeaders(storage, url, GET, None);
      PageUrlShape("/gists", page, perPage);
      Call([Send(storage, url, AuthOptions(storage, GET, None))], ListOutcome(page, fetched, StatusTextError))
  }

  /** `searchGistById(id)`: authenticated headers only when a token is stored,
      `null` for 404, an error for any other failure. */
  function SearchGistById(storage: map<string, string>, gistId: string, fetched: Fetched<Gist>): (c: Call<Option<Gist>>)
    ensures |c.sent| == 1 && c.sent[0].verb == GET && c.sent[0].url == BaseUrl + "/gists/" + gistId
    ensures ("Authorization" in c.sent[0].headers <==> StoredAuthorization(storage) != "")
    ensures c.result == Ok(None) <==> fetched.Received? && fetched.response.status == 404
    ensures c.result.Err? <==> fetched.NetworkFailure? || (!IsOk(fetched.response) && fetched.response.status != 404)
    ensures c.result.Ok? && c.result.value.Some? ==> fetched.Received? && IsOk(fetched.response) && c.result.value.value == fetched.response.json
  {
    var headers := if StoredAuthorization(storage) != "" then FirebaseAuth.ApiHeaders(storage) else map[];
    var request := Send(storage, "/gists/" + gistId, ApiClient.Options(None, headers, None, false));
    ApiClient.AuthorizationRule(headers, false, false, StoredAuthorization(storage));
    var result: Result<Option<Gist>> :=
      match fetched
      case NetworkFailure(m) => Err(m)
      case Received(r) =>
        if IsOk(r) then Ok(Some(r.json))
        else if r.status == 404 then Ok(None)
        else Err(StatusTextError(r));
    Call([request], result)
  }

  /** What `request` resolves to, passed through an authenticated call. */
  function AuthenticatedCall<T>(storage: map<string, string>, url: string, verb: Method, body: Option<GistBody>, fetched: Fetched<T>): (c: Call<Option<T>>)
    ensures Guarded(storage, c) && SentAuthorized(storage, c)
    ensures c.sent != [] ==>
              c.sent == [ApiClient.BuildRequest(Some(BaseUrl), url, AuthOptions(storage, verb, body), StoredAuthorization(storage))]
              && c.result == ApiClient.RequestResult(fetched)
  {
    if StoredAuthorization(storage) == "" then Call([], Err(NoTokenMessage))
    else
      AuthOptionsHeaders(storage, url, verb, body);
      Call([Send(storage, url, AuthOptions(storage, verb, body))], ApiClient.RequestResult(fetched))
  }

  /** `createGist(data)`: POST /gists with the payload. */
  function CreateGist(storage: map<string, string>, description: string, public: bool, files: map<string, string>, fetched: Fetched<Gist>): (c: Call<Option<Gist>>)
    ensures Guarded(storage, c) && SentAuthorized(storage, c)
    ensures c.sent != [] ==>
              c.sent[0].verb == POST && c.sent[0].url == BaseUrl + "/gists"
              && c.sent[0].body == Some(CreateBody(description, public, files))
              && "Content-Type" in c.sent[0].headers && c.sent[0].headers["Content-Type"] == ApiClient.ApplicationJson
              && c.result == ApiClient.RequestResult(fetched)
  {
    AuthenticatedCall(storage, "/gists", POST, Some(CreateBody(description, public, files)), fetched)
  }

  /** `updateGist(id, data)`: PATCH /gists/<id> with the payload. */
  function UpdateGist(storage: map<string, string>, gistId: string, description: Option<string>, files: Option<map<string, string>>, fetched: Fetched<Gist>): (c: Call<Option<Gist>>)
    ensures Guarded(storage, c) && SentAuthorized(storage, c)
    ensures c.sent != [] ==>
              c.sent[0].verb == PATCH && c.sent[0].url == BaseUrl + "/gists/" + gistId
              && c.sent[0].body == Some(UpdateBody(description, files))
              && c.result == ApiClient.RequestResult(fetched)
  {
    AuthenticatedCall(storage, "/gists/" + gistId, PATCH, Some(UpdateBody(description, files)), fetched)
  }

  /** `deleteGist(id)`: DELETE /gists/<id>, resolving to nothing. */
  function DeleteGist<T>(storage: map<string, string>, gistId: string, fetched: Fetched<T>): (c: Call<()>)
    ensures Guarded(storage, c) && SentAuthorized(storage, c)
    ensures c.sent != [] ==>
              c.sent[0].verb == DELETE && c.sent[0].url == BaseUrl + "/gists/" + gistId && c.sent[0].body.None?
              && (c.result.Ok? <==> fetched.Received? && IsOk(fetched.response))
  {
    var inner := AuthenticatedCall(storage, "/gists/" + gistId, DELETE, None, fetched);
    Call(inner.sent, match inner.result case Ok(_) => Ok(()) case Err(m) => Err(m))
  }

  /** `getAuthenticatedUser()`: GET /user. */
  function GetAuthenticatedUser<U>(storage: map<string, string>, fetched: Fetched<U>): (c: Call<Option<U>>)
    ensures Guarded(storage, c) && SentAuthorized(storage, c)
    ensures c.sent != [] ==>
              c.sent[0].verb == GET && c.sent[0].url == BaseUrl + "/user"
              && c.result == ApiClient.RequestResult(fetched)
  {
    AuthenticatedCall(storage, "/user", GET, None, fetched)
  }

  // ---- searchGists: hits to gist ids ----

  /** `repository.name` is present and matches `/^gist:/`. */
  predicate IsGistHit(item: SearchItem) {
    item.repositoryName.Some? && StartsWith(item.repositoryName.value, GistPrefix)
  }

  /** `name.replace('gist:', '')`: the first occurrence is the prefix itself. */
  function HitId(item: SearchItem): string
    requires IsGistHit(item)
  {
    item.repositoryName.value[|GistPrefix|..]
  }

  /** The ids of the gist hits, in hit order, repetitions kept. */
  function CandidateIds(items: seq<SearchItem>): (ids: seq<string>)
    ensures |ids| <= |items|
  {
    if items == [] then []
    else
      var last := items[|items| - 1];
      CandidateIds(items[..|items| - 1]) + (if IsGistHit(last) then [HitId(last)] else [])
  }

  /** A `Set` filled in order, read back by `Array.from`: each value at its
      first occurrence. */
  function Dedup(xs: seq<string>): (d: seq<string>)
    ensures |d| <= |xs|
  {
    if xs == [] then []
    else
      var d := Dedup(xs[..|xs| - 1]);
      if xs[|xs| - 1] in d then d else d + [xs[|xs| - 1]]
  }

  /** The ids `searchGists` collects from the hits. */
  function GistIds(items: seq<SearchItem>): seq<string> {
    Dedup(CandidateIds(items))
  }

  lemma {:induction false} DedupMembers(xs: seq<string>)
    ensures forall x :: x in Dedup(xs) <==> x in xs
  {
    if xs != [] {
      DedupMembers(xs[..|xs| - 1]);
      Sequences.SplitLast(xs);
    }
  }

  lemma {:induction false} DedupDistinct(xs: seq<string>)
    ensures forall i, j :: 0 <= i < j < |Dedup(xs)| ==> Dedup(xs)[i] != Dedup(xs)[j]
  {
    if xs != [] {
      DedupDistinct(xs[..|xs| - 1]);
    }
  }

  /** Insertion order: what has been collected stays in front, whatever comes later. */
  lemma {:induction false} DedupPrefix(xs: seq<string>, ys: seq<string>)
    ensures |Dedup(xs)| <= |Dedup(xs + ys)| && Dedup(xs + ys)[..|Dedup(xs)|] == Dedup(xs)
  {
    if ys != [] {
      var init := ys[..|ys| - 1];
      DedupPrefix(xs, init);
      assert (xs + ys)[..|xs + ys| - 1] == xs + init;
    } else {
      assert xs + ys == xs;
    }
  }

  /** A list without repetitions is its own de-duplication. */
  lemma {:induction false} DedupOfDistinct(xs: seq<string>)
    requires forall i, j :: 0 <= i < j < |xs| ==> xs[i] != xs[j]
    ensures Dedup(xs) == xs
  {
    if xs != [] {
      var init := xs[..|xs| - 1];
      DedupOfDistinct(init);
      DedupMembers(init);
      assert xs[|xs| - 1] !in init;
      Sequences.SplitLast(xs);
    }
  }

  lemma {:induction false} CandidateIdsFrom(items: seq<SearchItem>)
    ensures forall x :: x in CandidateIds(items) <==>
      exists k :: 0 <= k < |items| && IsGistHit(items[k]) && HitId(items[k]) == x
  {
    if items != [] {
      var init := items[..|items| - 1];
      CandidateIdsFrom(init);
      forall x | x in CandidateIds(items)
        ensures exists k :: 0 <= k < |items| && IsGistHit(items[k]) && HitId(items[k]) == x
      {
        if x in CandidateIds(init) {
          var k :| 0 <= k < |init| && IsGistHit(init[k]) && HitId(init[k]) == x;
          assert items[k] == init[k];
        } else {
          assert IsGistHit(items[|items| - 1]) && HitId(items[|items| - 1]) == x;
        }
      }
      forall x | exists k :: 0 <= k < |items| && IsGistHit(items[k]) && HitId(items[k]) == x
        ensures x in CandidateIds(items)
      {
        var k :| 0 <= k < |items| && IsGistHit(items[k]) && HitId(items[k]) == x;
        if k < |init| {
          assert init[k] == items[k];
        }
      }
    }
  }

  /** The collected ids are exactly the prefixed names with `gist:` removed,
      each once. */
  lemma GistIdsSpec(items: seq<SearchItem>)
    ensures forall x :: x in GistIds(items) <==>
      exists k :: 0 <= k < |items| && IsGistHit(items[k]) && HitId(items[k]) == x
    ensures forall i, j :: 0 <= i < j < |GistIds(items)| ==> GistIds(items)[i] != GistIds(items)[j]
  {
    DedupMembers(CandidateIds(items));
    CandidateIdsFrom(items);
    DedupDistinct(CandidateIds(items));
  }

  lemma CandidateIdsStep(items: seq<SearchItem>, i: nat)
    requires i < |items|
    ensures CandidateIds(items[..i + 1]) == CandidateIds(items[..i]) + (if IsGistHit(items[i]) then [HitId(items[i])] else [])
  {
    assert items[..i + 1][..i] == items[..i];
  }

  lemma DedupStep(xs: seq<string>, x: string)
    ensures Dedup(xs + [x]) == if x in Dedup(xs) then Dedup(xs) else Dedup(xs) + [x]
  {
    assert (xs + [x])[..|xs|] == xs;
  }

  /** The `forEach` over the hits filling the `Set`. */
  method CollectGistIds(items: seq<SearchItem>) returns (ids: seq<string>)
    ensures ids == GistIds(items)
  {
    ids := [];
    var i := 0;
    while i < |items|
      invariant 0 <= i <= |items|
      invariant ids == Dedup(CandidateIds(items[..i]))
    {
      CandidateIdsStep(items, i);
      var item := items[i];
      if item.repositoryName.Some? && StartsWith(item.repositoryName.value, GistPrefix) {
        var gistId := item.repositoryName.value[|GistPrefix|..];
        DedupStep(CandidateIds(items[..i]), gistId);
        if gistId !in ids {
          ids := ids + [gistId];
        }
      } else {
        assert CandidateIds(items[..i]) + [] == CandidateIds(items[..i]);
      }
      i := i + 1;
    }
    assert items[..|items|] == items;
  }

  /** The gist of every id whose lookup succeeds, in id order. */
  function OkBodies(ids: seq<string>, lookup: string -> Fetched<Gist>): seq<Gist> {
    if ids == [] then []
    else
      var f := lookup(ids[0]);
      (if f.Received? && IsOk(f.response) then [f.response.json] else []) + OkBodies(ids[1..], lookup)
  }

  lemma {:induction false} OkBodiesConcat(a: seq<string>, b: seq<string>, lookup: string -> Fetched<Gist>)
    ensures OkBodies(a + b, lookup) == OkBodies(a, lookup) + OkBodies(b, lookup)
    decreases |a|
  {
    if a == [] {
      assert a + b == b;
    } else {
      assert (a + b)[1..] == a[1..] + b;
      OkBodiesConcat(a[1..], b, lookup);
    }
  }

  /** A successful lookup of `ids[k]` puts its gist in the result, after
      exactly the gists found for the ids before it. */
  lemma OkLookupKept(ids: seq<string>, lookup: string -> Fetched<Gist>, k: nat)
    requires k < |ids| && lookup(ids[k]).Received? && IsOk(lookup(ids[k]).response)
    ensures |OkBodies(ids[..k], lookup)| < |OkBodies(ids, lookup)|
    ensures OkBodies(ids, lookup)[|OkBodies(ids[..k], lookup)|] == lookup(ids[k]).response.json
  {
    assert ids == ids[..k] + ids[k..];
    OkBodiesConcat(ids[..k], ids[k..], lookup);
    assert ids[k..][0] == ids[k];
  }

  /** The lookups of the collected ids (sequential here), a failed or
      missing lookup contributing nothing. */
  function LookupAll(storage: map<string, string>, ids: seq<string>, lookup: string -> Fetched<Gist>): (c: Call<seq<Gist>>)
    ensures c.result == Ok(OkBodies(ids, lookup)) && |c.sent| == |ids| && |c.result.value| <= |ids|
    ensures forall k :: 0 <= k < |ids| ==> c.sent[k].url == BaseUrl + "/gists/" + ids[k]
  {
    if ids == [] then Call([], Ok([]))
    else
      var one := SearchGistById(storage, ids[0], lookup(ids[0]));
      var rest := LookupAll(storage, ids[1..], lookup);
      var found := match one.result case Ok(Some(g)) => [g] case _ => [];
      Call(one.sent + rest.sent, Ok(found + rest.result.value))
  }

  /** Every gist found is the answer to a successful lookup of one of the ids. */
  lemma {:induction false} LookupAllFound(storage: map<string, string>, ids: seq<string>, lookup: string -> Fetched<Gist>, g: Gist)
    requires g in LookupAll(storage, ids, lookup).result.value
    ensures exists id :: id in ids && lookup(id).Received? && IsOk(lookup(id).response) && lookup(id).response.json == g
  {
    var one := SearchGistById(storage, ids[0], lookup(ids[0]));
    var rest := LookupAll(storage, ids[1..], lookup);
    if one.result.Ok? && one.result.value.Some? && one.result.value.value == g {
      assert ids[0] in ids;
    } else {
      assert g in rest.result.value;
      LookupAllFound(storage, ids[1..], lookup, g);
      var id :| id in ids[1..] && lookup(id).Received? && IsOk(lookup(id).response) && lookup(id).response.json == g;
      Sequences.InTail(ids, id);
    }
  }

  function Min(a: int, b: int): int {
    if a <= b then a else b
  }

  /** The error a failed search response throws. */
  function SearchFailure(r: Response<SearchBody>): (m: string)
    ensures r.status == 401 ==> m == SearchUnauthorized
    ensures r.status == 403 ==> m == SearchRateLimited
    ensures r.status != 401 && r.status != 403 ==> StartsWith(m, ApiError(r.status) + " - ")
  {
    if r.status == 401 then SearchUnauthorized
    else if r.status == 403 then SearchRateLimited
    else
      var detail := if r.json.message.Some? && r.json.message.value != "" then r.json.message.value else "Unknown error";
      ApiErrorWith(r.status, detail)
  }

  /** `searchGists(query)`; the query is sent unencoded. */
  function SearchGists(storage: map<string, string>, query: string, fetched: Fetched<SearchBody>, lookup: string -> Fetched<Gist>): (c: Call<seq<Gist>>)
    ensures StoredAuthorization(storage) == "" ==> c == Call([], Err(SearchNeedsLogin))
    ensures StoredAuthorization(storage) != "" ==>
              |c.sent| >= 1 && c.sent[0].url == BaseUrl + "/search/code?q=" + query + " in:file gist:yes"
    ensures fetched.Received? && !IsOk(fetched.response) && StoredAuthorization(storage) != "" ==>
              c == Call(c.sent[..1], Err(SearchFailure(fetched.response)))
    ensures fetched.Received? && IsOk(fetched.response) && StoredAuthorization(storage) != ""
            && (fetched.response.json.items.None? || fetched.response.json.items.value == []) ==>
              c == Call(c.sent[..1], Ok([]))
    ensures fetched.NetworkFailure? && StoredAuthorization(storage) != "" ==>
              c == Call(c.sent[..1], Err(fetched.message))
    ensures fetched.Received? && IsOk(fetched.response) && StoredAuthorization(storage) != ""
            && fetched.response.json.items.Some? && fetched.response.json.items.value != [] ==>
              var ids := GistIds(fetched.response.json.items.value);
              var looked := LookupAll(storage, ids[..Min(LookupCap, |ids|)], lookup);
              c.sent[1..] == looked.sent && c.result == looked.result
              && c.result == Ok(OkBodies(ids[..Min(LookupCap, |ids|)], lookup))
    ensures c.result.Ok? ==> |c.sent| <= 1 + LookupCap && |c.result.value| <= LookupCap
  {
    if StoredAuthorization(storage) == "" then Call([], Err(SearchNeedsLogin))
    else
      var path := "/search/code?q=" + query + " in:file gist:yes";
      var search := Send(storage, path, AuthOptions(storage, GET, None));
      assert search.url == BaseUrl + path;
      if fetched.NetworkFailure? then Call([search], Err(fetched.message))
      else SearchAnswered(storage, search, fetched.response, lookup)
  }

  /** The rest of `searchGists` once the search response has arrived. */
  function SearchAnswered(storage: map<string, string>, search: Request<GistBody>, r: Response<SearchBody>, lookup: string -> Fetched<Gist>): (c: Call<seq<Gist>>)
    ensures |c.sent| >= 1 && c.sent[0] == search
    ensures !IsOk(r) ==> c == Call([search], Err(SearchFailure(r)))
    ensures IsOk(r) && (r.json.items.None? || r.json.items.value == []) ==> c == Call([search], Ok([]))
    ensures IsOk(r) && r.json.items.Some? && r.json.items.value != [] ==>
              var ids := GistIds(r.json.items.value);
              var looked := LookupAll(storage, ids[..Min(LookupCap, |ids|)], lookup);
              c.sent[1..] == looked.sent && c.result == looked.result
              && c.result == Ok(OkBodies(ids[..Min(LookupCap, |ids|)], lookup))
    ensures c.result.Ok? ==> |c.sent| <= 1 + LookupCap && |c.result.value| <= LookupCap
  {
    if !IsOk(r) then Call([search], Err(SearchFailure(r)))
    else if r.json.items.None? || r.json.items.value == [] then Call([search], Ok([]))
    else
      var ids := GistIds(r.json.items.value);
      var lookups := LookupAll(storage, ids[..Min(LookupCap, |ids|)], lookup);
      assert ([search] + lookups.sent)[1..] == lookups.sent;
      Call([search] + lookups.sent, lookups.result)
  }

  /** Every gist `searchGists` returns is the successful lookup of one of the
      first ten distinct prefixed hits. */
  lemma SearchGistsProvenance(storage: map<string, string>, query: string, fetched: Fetched<SearchBody>, lookup: string -> Fetched<Gist>, g: Gist)
    requires SearchGists(storage, query, fetched, lookup).result.Ok?
    requires g in SearchGists(storage, query, fetched, lookup).result.value
    ensures fetched.Received? && IsOk(fetched.response) && fetched.response.json.items.Some?
    ensures var ids := GistIds(fetched.response.json.items.value);
      exists id :: id in ids[..Min(LookupCap, |ids|)] && lookup(id).Received? && IsOk(lookup(id).response) && lookup(id).response.json == g
  {
    var c := SearchGists(storage, query, fetched, lookup);
    assert StoredAuthorization(storage) != "";
    assert fetched.Received? && IsOk(fetched.response);
    assert fetched.response.json.items.Some? && fetched.response.json.items.value != [];
    var ids := GistIds(fetched.response.json.items.value);
    var looked := ids[..Min(LookupCap, |ids|)];
    assert c.result == LookupAll(storage, looked, lookup).result;
    LookupAllFound(storage, looked, lookup, g);
  }
}
