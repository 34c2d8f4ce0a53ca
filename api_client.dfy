/** The fetch wrapper built by `createApi(baseURL)`: header assembly, URL
    joining, the error message of a failed response, the JSON-or-undefined
    result, and the five method wrappers. */
module ApiClient {
  import opened Wrappers
  import opened JsString
  import opened Http

  const GithubJson := "application/vnd.github+json"
  const ApplicationJson := "application/json"

  /** `ApiOptions`: `verb` is `method`, defaulting to GET, `auth` to false. */
  datatype Options<B> = Options(verb: Option<Method>, headers: map<string, string>, body: Option<B>, auth: bool)

  /** `Omit<ApiOptions, 'method' | 'body'>`, what the wrappers accept. */
  datatype WrapperOptions = WrapperOptions(headers: map<string, string>, auth: bool)

  /** The header record `request`/`requestRaw` send: the GitHub Accept
      default under the caller's headers, then Content-Type when a body is
      sent, then the stored Authorization when `auth` is set and it is
      non-empty. `storedAuthorization` is the `Authorization` value the
      authentication service reports at the time of the call. */
  function AssembledHeaders(caller: map<string, string>, hasBody: bool, auth: bool, storedAuthorization: string): map<string, string> {
    var base := map["Accept" := GithubJson] + caller;
    var withType := if hasBody then base["Content-Type" := ApplicationJson] else base;
    if auth && storedAuthorization != "" then withType["Authorization" := storedAuthorization] else withType
  }

  /** The assembly as the source performs it: start from the defaults,
      then assign the conditional entries one by one. */
  method BuildHeaders(caller: map<string, string>, hasBody: bool, auth: bool, storedAuthorization: string)
    returns (finalHeaders: map<string, string>)
    ensures finalHeaders == AssembledHeaders(caller, hasBody, auth, storedAuthorization)
  {
    finalHeaders := map["Accept" := GithubJson];
    finalHeaders := finalHeaders + caller;
    if hasBody {
      finalHeaders := finalHeaders["Content-Type" := ApplicationJson];
    }
    if auth {
      var authorization := storedAuthorization;
      if authorization != "" {
        finalHeaders := finalHeaders["Authorization" := authorization];
      }
    }
  }

  /** Accept is always sent, and a caller-supplied Accept wins over the default. */
  lemma AcceptRule(caller: map<string, string>, hasBody: bool, auth: bool, storedAuthorization: string)
    ensures "Accept" in AssembledHeaders(caller, hasBody, auth, storedAuthorization)
    ensures AssembledHeaders(caller, hasBody, auth, storedAuthorization)["Accept"]
         == if "Accept" in caller then caller["Accept"] else GithubJson
  {
  }

  /** A body forces Content-Type to JSON over any caller value; without a
      body, Content-Type is exactly what the caller gave. */
  lemma ContentTypeRule(caller: map<string, string>, hasBody: bool, auth: bool, storedAuthorization: string)
    ensures var h := AssembledHeaders(caller, hasBody, auth, storedAuthorization);
      ("Content-Type" in h <==> hasBody || "Content-Type" in caller)
      && (hasBody ==> h["Content-Type"] == ApplicationJson)
      && (!hasBody && "Content-Type" in caller ==> h["Content-Type"] == caller["Content-Type"])
  {
  }

  /** With `auth` and a non-empty stored value, that value replaces the
      caller's Authorization; otherwise the caller's is left as it was. */
  lemma AuthorizationRule(caller: map<string, string>, hasBody: bool, auth: bool, storedAuthorization: string)
    ensures var h := AssembledHeaders(caller, hasBody, auth, storedAuthorization);
      if auth && storedAuthorization != "" then
        "Authorization" in h && h["Authorization"] == storedAuthorization
      else
        ("Authorization" in h <==> "Authorization" in caller)
        && ("Authorization" in caller ==> h["Authorization"] == caller["Authorization"])
  {
  }

  /** Every other caller header is passed through unchanged, and nothing else is added. */
  lemma OtherHeadersUntouched(caller: map<string, string>, hasBody: bool, auth: bool, storedAuthorization: string, key: string)
    requires key != "Accept" && key != "Content-Type" && key != "Authorization"
    ensures var h := AssembledHeaders(caller, hasBody, auth, storedAuthorization);
      (key in h <==> key in caller) && (key in caller ==> h[key] == caller[key])
  {
  }

  /** `baseURL ? `${baseURL}${url}` : url`: an absent or empty base is ignored. */
  function FullUrl(baseURL: Option<string>, url: string): (full: string)
    ensures baseURL.Some? && baseURL.value != "" ==> full == baseURL.value + url
    ensures baseURL.None? || baseURL.value == "" ==> full == url
    ensures StartsWith(full, baseURL.GetOr("")) && full[|full| - |url|..] == url
  {
    if baseURL.Some? && baseURL.value != "" then baseURL.value + url else url
  }

  /** The request `request` and `requestRaw` hand to `fetch`. */
  function BuildRequest<B>(baseURL: Option<string>, url: string, options: Options<B>, storedAuthorization: string): (r: Request<B>)
    ensures r.verb == options.verb.GetOr(GET) && r.body == options.body
    ensures r.url == FullUrl(baseURL, url)
    ensures "Accept" in r.headers
    ensures options.body.Some? ==> "Content-Type" in r.headers && r.headers["Content-Type"] == ApplicationJson
    ensures options.auth && storedAuthorization != "" ==>
      "Authorization" in r.headers && r.headers["Authorization"] == storedAuthorization
    ensures !options.auth ==> ("Authorization" in r.headers <==> "Authorization" in options.headers)
  {
    Request(
      options.verb.GetOr(GET),
      FullUrl(baseURL, url),
      AssembledHeaders(options.headers, options.body.Some?, options.auth, storedAuthorization),
      options.body)
  }

  /** The message `request` throws for a non-ok response:
      `HTTP <status> - <text or statusText>`, or `HTTP <status>` when
      reading the text fails. */
  function FailureMessage<T>(r: Response<T>): (m: string)
    ensures StartsWith(m, "HTTP " + IntToString(r.status))
    ensures r.text.None? <==> m == "HTTP " + IntToString(r.status)
    ensures r.text.Some? && r.text.value != "" ==> m == "HTTP " + IntToString(r.status) + " - " + r.text.value
    ensures r.text == Some("") ==> m == "HTTP " + IntToString(r.status) + " - " + r.statusText
  {
    var head := "HTTP " + IntToString(r.status);
    match r.text
    case None => head
    case Some(t) => head + " - " + (if t != "" then t else r.statusText)
  }

  /** What `request` resolves to: the JSON body when the content type
      mentions `application/json`, `undefined` (None) otherwise; a non-ok
      response or a transport failure is an error. */
  function RequestResult<T>(fetched: Fetched<T>): (res: Result<Option<T>>)
    ensures fetched.NetworkFailure? ==> res == Err(fetched.message)
    ensures fetched.Received? && !IsOk(fetched.response) ==> res.Err? && StartsWith(res.message, "HTTP ")
    ensures res.Ok? && res.value.Some? <==>
      fetched.Received? && IsOk(fetched.response)
      && Includes(fetched.response.contentType.GetOr(""), ApplicationJson)
    ensures res.Ok? && res.value.Some? ==> res.value.value == fetched.response.json
  {
    match fetched
    case NetworkFailure(m) => Err(m)
    case Received(r) =>
      if !IsOk(r) then Err(FailureMessage(r))
      else if !Includes(r.contentType.GetOr(""), ApplicationJson) then Ok(None)
      else Ok(Some(r.json))
  }

  /** The message of a failed response names its status, whatever the body says. */
  lemma FailureMessageNamesStatus<T>(r: Response<T>)
    ensures StartsWith(FailureMessage(r), "HTTP " + IntToString(r.status))
  {
  }

  /** The wrappers force the method; get and delete send no body, the others pass theirs through. */
  function Get<B>(opts: WrapperOptions): (o: Options<B>)
    ensures o.verb == Some(GET) && o.body.None?
    ensures o.headers == opts.headers && o.auth == opts.auth
  {
    Options(Some(GET), opts.headers, None, opts.auth)
  }

  function Post<B>(body: Option<B>, opts: WrapperOptions): (o: Options<B>)
    ensures o.verb == Some(POST) && o.body == body
    ensures o.headers == opts.headers && o.auth == opts.auth
  {
    Options(Some(POST), opts.headers, body, opts.auth)
  }

  function Patch<B>(body: Option<B>, opts: WrapperOptions): (o: Options<B>)
    ensures o.verb == Some(PATCH) && o.body == body
    ensures o.headers == opts.headers && o.auth == opts.auth
  {
    Options(Some(PATCH), opts.headers, body, opts.auth)
  }

  function Put<B>(body: Option<B>, opts: WrapperOptions): (o: Options<B>)
    ensures o.verb == Some(PUT) && o.body == body
    ensures o.headers == opts.headers && o.auth == opts.auth
  {
    Options(Some(PUT), opts.headers, body, opts.auth)
  }

  function Delete<B>(opts: WrapperOptions): (o: Options<B>)
    ensures o.verb == Some(DELETE) && o.body.None?
    ensures o.headers == opts.headers && o.auth == opts.auth
  {
    Options(Some(DELETE), opts.headers, None, opts.auth)
  }

  /** What the wrappers send: the forced method, no Content-Type from get or
      delete unless the caller set one, the body of post/patch/put unchanged. */
  lemma WrapperRequests<B>(baseURL: Option<string>, url: string, body: Option<B>, opts: WrapperOptions, storedAuthorization: string)
    ensures var g := BuildRequest(baseURL, url, Get<B>(opts), storedAuthorization);
      g.verb == GET && g.body.None? && ("Content-Type" in g.headers <==> "Content-Type" in opts.headers)
    ensures var d := BuildRequest(baseURL, url, Delete<B>(opts), storedAuthorization);
      d.verb == DELETE && d.body.None? && ("Content-Type" in d.headers <==> "Content-Type" in opts.headers)
    ensures var p := BuildRequest(baseURL, url, Post(body, opts), storedAuthorization);
      p.verb == POST && p.body == body && (body.Some? ==> p.headers["Content-Type"] == ApplicationJson)
    ensures var p := BuildRequest(baseURL, url, Patch(body, opts), storedAuthorization);
      p.verb == PATCH && p.body == body && (body.Some? ==> p.headers["Content-Type"] == ApplicationJson)
    ensures var p := BuildRequest(baseURL, url, Put(body, opts), storedAuthorization);
      p.verb == PUT && p.body == body && (body.Some? ==> p.headers["Content-Type"] == ApplicationJson)
  {
  }
}
