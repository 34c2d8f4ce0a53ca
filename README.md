# Gist Notes client core, in Dafny

This project models the logic core of Gist Notes, a React client for
GitHub Gists. The model covers:

- the search box, which classifies free text as a gist id, a keyword or an
  empty query, looks the gist up by id or runs the two keyword searches,
  and merges the two result lists;
- the GitHub access layer: list cursors taken from the `link` header, the
  404 rule of the lookups, the token guards of the authenticated calls, the
  ids of a code search, the header assembly of the request helper, and the
  bearer header built from browser storage;
- the optimistic star and fork counters of the public gists table;
- the two Redux slices and the two zustand stores, as transitions on the
  gists state and the auth state;
- the validators, the status-to-error mapping and the bounded retry loop;
- the pure mappers: filename to language, relative dates and code-snippet
  templates;
- the page navigator, the form schemas, the two create-gist file lists and
  the mock data.

The server, the browser and the clock are parameters:

- A call to the server is a value. The server's answer, or the transport
  failure, is given as an argument.
- Browser storage is a string map.
- A date is the millisecond difference between now and that date.
- Random draws and generated ids are parameters.

Code that updates state in place is modelled as a class, whose methods
state the new state:

- the firebase service's storage;
- the star/fork table;
- the slices;
- the search box, the page box and the two create-gist file lists.

Code built from expressions is modelled as functions, with lemmas about
them.

The modules follow the source files:

| module | file |
|---|---|
| `GistId` | the pattern scanners of `extractGistId` |
| `Header` | the search routing, the merge and `getUserInitials` |
| `GitHubApi` | the service in `src/services/github-api.ts` |
| `GitHubService` | the service in `src/services/github.ts` |
| `ApiClient` | `src/hooks/useApi.ts` |
| `FirebaseAuth` | `src/services/firebase-auth.ts` |
| `PublicGistsTable` | `src/components/PublicGistsTable/public-gists-table.tsx` |
| `GistsSlice` | `src/store/slices/gistsSlice.ts` |
| `AuthSlice` | `src/store/slices/authSlice.ts` |
| `GistsStore` | `src/stores/gistsStore.ts` |
| `AuthStore` | `src/stores/authStore.ts` |
| `ErrorHandler` | `src/utils/error-handler.ts` |
| `LanguageUtils` | `src/utils/language-utils.ts` |
| `DateUtils` | `src/utils/date-utils.ts` |
| `CodeSnippetUtils` | `src/utils/code-snippet-utils.ts` |
| `Pagination` | `src/components/Pagination/pagination.tsx` |
| `GistForms` | `src/hooks/forms/useGistForms.ts` |
| `CreateGistForm` | `src/components/CreateGistForm/CreateGistForm.tsx` |
| `CreateGistPage` | `src/pages/create-gist/page.tsx` |
| `MockData` | `src/data/mock-data.ts` |

Shared modules:

| module | what it holds |
|---|---|
| `Wrappers` | the `Option` and `Result` types |
| `JsString` | the JavaScript string operations the code relies on |
| `Http` | requests, responses and the pagination cursor |
| `GistModel` | the gist record |
| `AppState` | the gists and auth states |
| `Sequences` | small sequence lemmas |

Behaviour of the code that the model keeps:

- The keyword search never fails as a whole. Each of the two sub-searches
  catches its own error and contributes an empty list
  (`src/layout/header.tsx:116-117`). The keyword branch's own `catch`
  (`src/layout/header.tsx:129-135`), with its rate-limit message, and the
  outer `catch` of `handleSearch` (`src/layout/header.tsx:165-170`)
  therefore never see an authentication or rate-limit error from them. The
  model keeps that behaviour.
- A bare hex id typed into the search box is not looked up by id, although
  the comment at `src/layout/header.tsx:98` says a valid id is. The
  extraction returns a bare id unchanged, and the by-id branch requires the
  extracted id to differ from the input (`src/layout/header.tsx:97`). Signed
  in, the id is searched as a keyword; signed out, the search is refused.
  `Header.BareHexIsKeyword` states this, and the model keeps it.
- A code search looks up at most the first ten distinct gist ids of its
  hits and returns every gist found, in the order of the hits
  (`src/services/github-api.ts:130-141`). `GitHubApi.SearchGists` and
  `GitHubApi.LookupAll` state this.

## Model

| member | source | states |
|---|---|---|
| Http.PageOf | src/services/github-api.ts:48-51 | the cursor holds the response's gists and the requested page, has a next page exactly when the `link` header contains `rel="next"`, and a previous one exactly after page one |
| Http.NoLinkNoNext | src/services/github-api.ts:49 | a missing or empty `link` header never announces a next page |
| Http.LinkWithNext | src/services/github-api.ts:49 | a `link` header carrying `rel="next"` anywhere announces a next page |
| GistId.HexRun | src/layout/header.tsx:52-55 | the greedy `[a-f0-9]+` group: every character of the run is a hex digit (either case) and the run stops at a non-hex character or the end |
| GistId.NonSlashRun | src/layout/header.tsx:52 | the `[^/]+` part: a run of non-slash characters that stops at a slash or the end |
| GistId.MatchAt | src/layout/header.tsx:52-55 | a match of any of the four patterns starting at a position captures a non-empty hex span at or after that position |
| GistId.FirstFrom | src/layout/header.tsx:59 | the regular-expression search tries positions left to right: the reported position matches and no earlier one does; no report means no position matches |
| GistId.Capture | src/layout/header.tsx:59-61 | `match(pattern)?.[1]`, when present, is a non-empty all-hex substring of the searched text |
| GistId.Captures | src/layout/header.tsx:51-56 | the captures of the four patterns in their fixed order |
| GistId.FirstSome | src/layout/header.tsx:58-63 | the first present capture in order wins; none is returned only when every pattern fails |
| GistId.Extract | src/layout/header.tsx:39-67 | the loop over the patterns returns the trimmed input when it is non-empty and all hex, else the capture of the first pattern that matches in the fixed order, else the trimmed input |
| GistId.ExtractGistId | src/layout/header.tsx:39-67 | the extracted id is the trimmed input itself or a non-empty hex substring of it |
| GistId.BareHexUnchanged | src/layout/header.tsx:40-45 | a non-empty trimmed all-hex input, in any letter case, comes back unchanged |
| GistId.HostUrlMatch | src/layout/header.tsx:52 | after any prefix, `gist.github.com/<user>/<hex>` matches where the host begins and captures exactly the id |
| GistId.GistPageUrlCapture | src/layout/header.tsx:52 | the first pattern captures the id of `https://gist.github.com/<user>/<id>` |
| GistId.GistPageUrlYieldsId | src/layout/header.tsx:39-63 | the whole extraction returns the id of a gist page URL |
| GistId.NoMatchNoCapture | src/layout/header.tsx:59-60 | a pattern that matches at no position captures nothing |
| GistId.ExtractOfSecondCapture | src/layout/header.tsx:39-63 | for a trimmed input that is not all hex, the API pattern's capture is returned when the gist page pattern captures nothing |
| GistId.ExtractOfThirdCapture | src/layout/header.tsx:39-63 | for a trimmed input that is not all hex, the path pattern's capture is returned when neither URL pattern captures anything |
| GistId.ApiUrlNoHostMatch | src/layout/header.tsx:52 | the gist page pattern matches at no position of `https://api.github.com/gists/<id>` |
| GistId.ApiUrlNoHostCapture | src/layout/header.tsx:52 | so the gist page pattern captures nothing there |
| GistId.ApiUrlCapture | src/layout/header.tsx:53 | the API pattern matches first right after the scheme and captures exactly the id |
| GistId.ApiUrlYieldsId | src/layout/header.tsx:39-63 | the whole extraction returns the id of an API URL `https://api.github.com/gists/<id>` |
| GistId.GistsPathNoUrlMatch | src/layout/header.tsx:52-53 | neither URL pattern matches at any position of `gists/<id>` |
| GistId.GistsPathNoUrlCapture | src/layout/header.tsx:52-53 | so neither URL pattern captures anything there |
| GistId.GistsPathCapture | src/layout/header.tsx:54 | the path pattern matches at the start of `gists/<id>` and captures exactly the id |
| GistId.GistsPathYieldsId | src/layout/header.tsx:39-63 | the whole extraction returns the id of a path `gists/<id>` |
| Header.BlankRejected | src/layout/header.tsx:84-87 | a blank search text takes no lookup route |
| Header.RouteOf | src/layout/header.tsx:84-140 | blank text is rejected; a by-id lookup is for an id of at least 20 characters that differs from the trimmed text; a keyword search is only made signed in, for the non-empty trimmed text |
| Header.BareHexIsKeyword | src/layout/header.tsx:95-97 | a bare hex id is returned unchanged by the extraction, so it never takes the by-id route: it is a keyword search when signed in and rejected otherwise |
| Header.ByIdIsHexInfix | src/layout/header.tsx:95-100 | a by-id lookup is always for an all-hex substring of the trimmed text of at least 20 characters |
| Header.GistPageUrlRoutesById | src/layout/header.tsx:95-100 | a pasted `https://gist.github.com/<user>/<id>` with a hex id of 20 or more characters is looked up by exactly that id, signed in or not |
| Header.ApiUrlRoutesById | src/layout/header.tsx:95-100 | a pasted `https://api.github.com/gists/<id>` with a hex id of 20 or more characters is looked up by exactly that id, signed in or not |
| Header.GistsPathRoutesById | src/layout/header.tsx:95-100 | a pasted `gists/<id>` with a hex id of 20 or more characters is looked up by exactly that id, signed in or not |
| Header.Merge | src/layout/header.tsx:121-126 | the merged list is at least as long as the name results and at most as long as both lists together, and every gist after the name results is a content result |
| Header.MergeKeepsNames | src/layout/header.tsx:121-126 | the merged list starts with the name results, in order |
| Header.MergeIds | src/layout/header.tsx:121-126 | an id occurs in the merged list iff it occurs in the name results or the content results |
| Header.MergeDistinct | src/layout/header.tsx:121-126 | when the name results repeat no id, neither does the merged list |
| Header.MergeResults | src/layout/header.tsx:121-126 | the `forEach` loop computes the merge: for each content result, it is appended iff no gist with its id is present yet |
| Header.ResultsOf | src/layout/header.tsx:93-128 | at most 10 results; none on a rejected route; a by-id search has no results exactly when the lookup did not find a gist |
| Header.KeywordResults | src/layout/header.tsx:115-128 | keyword results are a prefix of the merge and begin with as many name results as fit; a failed content search leaves just the name results, cut to 10 |
| Header.KeywordResultsDistinct | src/layout/header.tsx:121-128 | keyword results repeat no id when the name results do not |
| Header.RejectedOnlyWarns | src/layout/header.tsx:84-87 | a rejected search gives exactly one warning, no report, no navigation and keeps the text; a non-blank text is only rejected when signed out |
| Header.OutcomeShape | src/layout/header.tsx:142-164 | with a handler one result is reported alone and any other count as a list (possibly empty); without one nothing is reported and the first result is opened iff there is one; the box is emptied iff there are results |
| Header.Outcome | src/layout/header.tsx:142-164 | the earlier notices are kept and one more is added: `Found N gist(s)!` when there are results, `No gists found` otherwise; a report is made iff there is a handler; without one the first result's page is opened iff there is one; the box is emptied iff there are results |
| Header.SearchBox.constructor | src/layout/header.tsx:18 | the search box starts empty |
| Header.SearchBox.InputChange | src/layout/header.tsx:69-77 | stores the typed text and reports `cleared` exactly when the text is blank and a handler is present |
| Header.SearchBox.Search | src/layout/header.tsx:79-174 | the effects of `handleSearch` are those of the routing, gathering and reporting rules, and the box is emptied exactly when the search cleared it |
| Header.Classify | src/layout/header.tsx:84-140 | the imperative routing agrees with the routing rule |
| Header.Gather | src/layout/header.tsx:97-135 | a by-id search yields the found gist or nothing, a keyword search the merged lists; a failed by-id lookup adds the not-found notice for a 404 and the error notice otherwise |
| Header.Announce | src/layout/header.tsx:142-164 | results are announced with `Found N gist(s)!`; one is reported as the single gist and several as a list, or without a handler the first is opened; none gives `No gists found` and an empty list |
| Header.FirstLetters | src/layout/header.tsx:216-218 | one letter at most per word |
| Header.UserInitials | src/layout/header.tsx:214-222 | at most two letters, and `U` for a missing or empty name |
| Header.TwoWordInitials | src/layout/header.tsx:214-222 | `First Last` gives the two upper-cased first letters |
| Header.OneWordInitial | src/layout/header.tsx:214-222 | a single word gives its upper-cased first letter |
| Header.SpacesGiveNoInitials | src/layout/header.tsx:214-222 | a name of spaces only passes the emptiness test yet yields no letters at all |
| GitHubApi.PageUrlShape | src/services/github-api.ts:45 | a list URL is the base URL, the path, then `?page=<page>&per_page=<perPage>` |
| GitHubApi.ListOutcome | src/services/github-api.ts:46-51 | a list call succeeds iff the response is ok; it then returns the body with `currentPage` = the requested page, `hasNext` iff a `link` header contains `rel="next"`, and `hasPrev` iff page > 1; a non-ok response throws the given error and a network failure its message |
| GitHubApi.FetchPublicGists | src/services/github-api.ts:44-52 | one unauthenticated GET of `/gists/public?page=<page>&per_page=<perPage>`, a non-ok status throwing `GitHub API error: <status>` |
| GitHubApi.FetchUserGists | src/services/github-api.ts:66-74 | one unauthenticated GET of `/users/<name>/gists?page=…&per_page=…` with the same cursor rules |
| GitHubApi.AuthOptionsHeaders | src/services/github-api.ts:79 | with a stored token, an authenticated request carries `Bearer <token>` and the authentication service's Accept header |
| GitHubApi.FetchAuthenticatedUserGists | src/services/github-api.ts:76-89 | no token: no request and `No authentication token available`; otherwise one authorised GET of `/gists?page=…&per_page=…` with the list cursor rules and the status-and-text error |
| GitHubApi.SearchGistById | src/services/github-api.ts:54-64 | one GET of `/gists/<id>`, authorised iff a token is stored; the result is `null` iff the status is 404, an error iff the network failed or the status is other than ok and 404, and otherwise the body |
| GitHubApi.AuthenticatedCall | src/services/github-api.ts:92-94 | the shared guard: with no token nothing is sent and the fixed error is thrown; otherwise exactly the wrapper's authorised request is sent and its result returned |
| GitHubApi.CreateGist | src/services/github-api.ts:91-95 | guarded; otherwise one authorised POST of `/gists` carrying the payload as JSON, resolving to what `request` resolves to for the response |
| GitHubApi.UpdateGist | src/services/github-api.ts:97-101 | guarded; otherwise one authorised PATCH of `/gists/<id>` carrying the payload, resolving to what `request` resolves to for the response |
| GitHubApi.DeleteGist | src/services/github-api.ts:103-107 | guarded; otherwise one authorised DELETE of `/gists/<id>` with no body, succeeding iff the response is ok |
| GitHubApi.GetAuthenticatedUser | src/services/github-api.ts:144-148 | guarded; otherwise one authorised GET of `/user`, resolving to what `request` resolves to for the response |
| GitHubApi.CandidateIds | src/services/github-api.ts:124-129 | at most one id per hit |
| GitHubApi.Dedup | src/services/github-api.ts:123-131 | the `Set` read back in insertion order is no longer than its input |
| GitHubApi.DedupMembers | src/services/github-api.ts:123-131 | de-duplication keeps exactly the values of its input |
| GitHubApi.DedupDistinct | src/services/github-api.ts:123-131 | de-duplication repeats no value |
| GitHubApi.DedupPrefix | src/services/github-api.ts:123-131 | insertion order: what was collected stays in front whatever is added later |
| GitHubApi.DedupOfDistinct | src/services/github-api.ts:123-131 | a list without repetitions is left as it is |
| GitHubApi.CandidateIdsFrom | src/services/github-api.ts:124-129 | an id is collected iff some hit's repository name starts with `gist:` and the id is that name with the prefix removed |
| GitHubApi.GistIdsSpec | src/services/github-api.ts:123-131 | the collected ids are exactly the prefixed names with `gist:` removed, each once |
| GitHubApi.CollectGistIds | src/services/github-api.ts:123-129 | the `forEach` that fills the set computes the insertion-ordered, de-duplicated ids of the gist hits |
| GitHubApi.LookupAll | src/services/github-api.ts:130-141 | one lookup per id, in order, at `/gists/<id>`; the result is exactly the gists of the ok lookups, in id order (`OkBodies`), failures and `null`s dropped |
| GitHubApi.OkBodiesConcat | src/services/github-api.ts:130-141 | the gists kept for two runs of ids are those of the first run followed by those of the second |
| GitHubApi.OkLookupKept | src/services/github-api.ts:130-141 | an ok lookup of `ids[k]` puts its gist in the result, right after the gists found for the ids before it |
| GitHubApi.LookupAllFound | src/services/github-api.ts:133-141 | every gist kept is the ok answer to the lookup of one of the ids |
| GitHubApi.SearchFailure | src/services/github-api.ts:115-120 | 401 and 403 give the fixed login and rate-limit messages; any other status `GitHub API error: <status> - <message or Unknown error>` |
| GitHubApi.SearchGists | src/services/github-api.ts:109-142 | no token: no request and the login error; otherwise the code search is sent first; a failed search throws its mapped error; missing or empty `items` give `[]`; a network failure of the search throws its message; for non-empty `items` the lookups sent after the search are exactly those of the first ten distinct ids, and the result is every ok lookup's gist in id order; a success sends at most ten lookups and returns at most ten gists |
| GitHubApi.SearchAnswered | src/services/github-api.ts:114-141 | after the search response: its mapped error when not ok, `[]` for missing or empty `items`, otherwise the lookups of the first ten distinct ids and their ok gists in order |
| GitHubApi.SearchGistsProvenance | src/services/github-api.ts:121-141 | every returned gist is the ok answer to the lookup of one of the first ten distinct collected ids |
| GitHubService.FetchPublicGists | src/services/github.ts:41-68 | one bare GET of `/gists/public?page=<page>&per_page=30`; it succeeds iff the response is ok, a non-ok status throwing `GitHub API error: <status>`; success returns the body, the requested page, `hasNext` iff the link header has `rel="next"` and `hasPrev` iff page > 1 |
| GitHubService.FetchUserGists | src/services/github.ts:88-114 | the same for `/users/<name>/gists?page=<page>&per_page=30` |
| GitHubService.SearchGistById | src/services/github.ts:70-86 | one bare GET of `/gists/<id>`; `null` iff the status is 404; `GitHub API error: <status>` for any other non-ok status; the network error's message when the request fails; the body for every ok response; an error exactly for a failed request or a non-ok status other than 404 |
| GitHubService.PageSizeFixed | src/services/github.ts:39-44 | every list URL ends in `&per_page=30`, whatever the page |
| GitHubService.PageUrlsDistinct | src/services/github.ts:44-91 | two pages of one listing are requested at the same URL only if they are the same page |
| ApiClient.BuildHeaders | src/hooks/useApi.ts:27-41 | the assignments build the header record: the Accept default, overridden by the caller's headers, then JSON Content-Type when there is a body, then the stored Authorization when asked for and non-empty |
| ApiClient.AcceptRule | src/hooks/useApi.ts:27-30 | Accept is always sent: the caller's value when given, else `application/vnd.github+json` |
| ApiClient.ContentTypeRule | src/hooks/useApi.ts:32-34 | with a body Content-Type is `application/json` whatever the caller said; without one it is exactly the caller's, if any |
| ApiClient.AuthorizationRule | src/hooks/useApi.ts:36-41 | with `auth` and a non-empty stored Authorization that value replaces the caller's; otherwise the caller's Authorization is left as it was, present or absent |
| ApiClient.OtherHeadersUntouched | src/hooks/useApi.ts:27-41 | every other caller header passes through unchanged and no other header is added |
| ApiClient.FullUrl | src/hooks/useApi.ts:43 | `baseURL + url` when the base is present and non-empty, else `url`; the result always ends in `url` |
| ApiClient.BuildRequest | src/hooks/useApi.ts:24-49 | the request uses the given method or GET, the joined URL and the given body; Accept is always sent; a body forces JSON Content-Type; with `auth` a non-empty stored Authorization is sent; without `auth` Authorization is only what the caller gave |
| ApiClient.RequestResult | src/hooks/useApi.ts:51-66 | a transport failure rethrows its message; a non-ok response throws an `HTTP …` message; a value is returned iff the response is ok and its content type contains `application/json`, and it is the body |
| ApiClient.FailureMessage | src/hooks/useApi.ts:51-59 | starts with `HTTP <status>`; is exactly that iff the body text could not be read; adds ` - <text>` when the text is non-empty, and ` - <statusText>` when it is empty |
| ApiClient.FailureMessageNamesStatus | src/hooks/useApi.ts:51-59 | the error of a failed response always starts with `HTTP <status>`, with or without the body text |
| ApiClient.Get | src/hooks/useApi.ts:98 | the options force GET, carry no body and keep the caller's headers and `auth` |
| ApiClient.Post | src/hooks/useApi.ts:99 | the options force POST, carry the body and keep the caller's headers and `auth` |
| ApiClient.Patch | src/hooks/useApi.ts:100 | the options force PATCH, carry the body and keep the caller's headers and `auth` |
| ApiClient.Put | src/hooks/useApi.ts:101 | the options force PUT, carry the body and keep the caller's headers and `auth` |
| ApiClient.Delete | src/hooks/useApi.ts:102 | the options force DELETE, carry no body and keep the caller's headers and `auth` |
| ApiClient.WrapperRequests | src/hooks/useApi.ts:98-102 | each wrapper forces its method; get and delete send no body and add no Content-Type; post, patch and put pass the body through and mark it JSON |
| FirebaseAuth.AuthorizationValue | src/services/firebase-auth.ts:151-154 | non-empty exactly when a non-empty token is stored, and then `Bearer <token>` |
| FirebaseAuth.ApiHeaders | src/services/firebase-auth.ts:150-160 | exactly Authorization, Accept and Content-Type, with the bearer value, the v3 JSON Accept and `application/json` |
| FirebaseAuth.AuthService.constructor | src/services/firebase-auth.ts:16-27 | the provider asks for the `gist`, `read:user` and `public_repo` scopes; the store is as given and nobody is signed in |
| FirebaseAuth.AuthService.GetStoredToken | src/services/firebase-auth.ts:113-115 | the `github_token` entry, absent iff the key is absent |
| FirebaseAuth.AuthService.GetStoredUserInfo | src/services/firebase-auth.ts:127-130 | the `user_info` blob, absent when the entry is missing or empty |
| FirebaseAuth.AuthService.GetGitHubApiHeaders | src/services/firebase-auth.ts:150-160 | exactly the Authorization, Accept and Content-Type headers; Authorization is `Bearer <token>` when a non-empty token is stored and empty otherwise |
| FirebaseAuth.AuthService.IsAuthenticated | src/services/firebase-auth.ts:143-145 | authenticated iff a user is signed in and the headers would carry a non-empty Authorization |
| FirebaseAuth.AuthService.StoreToken | src/services/firebase-auth.ts:106-115 | sets only the `github_token` entry, after which the stored token reads back as the one stored |
| FirebaseAuth.AuthService.StoreUserInfo | src/services/firebase-auth.ts:120-122 | sets only the `user_info` entry |
| FirebaseAuth.AuthService.ClearStoredData | src/services/firebase-auth.ts:135-145 | removes exactly the `github_token` and `user_info` entries, after which no token or user is stored and the service is not authenticated |
| FirebaseAuth.AuthService.LoginWithGithub | src/services/firebase-auth.ts:32-73 | a rejected popup changes nothing; a sign-in without a token throws before storing anything; a sign-in with a non-empty token succeeds; a success stores the token and the user blob, returns the user with its token and leaves the service authenticated |
| FirebaseAuth.AuthService.Logout | src/services/firebase-auth.ts:79-86 | the entries are cleared only when sign-out succeeds; a failed sign-out changes nothing and rethrows |
| PublicGistsTable.ProjectRow | src/components/PublicGistsTable/public-gists-table.tsx:38-52 | a row takes its key, owner, URL and update time from the gist; name and language come from the first file, falling back to `untitled` and `Text`; a missing description reads `No description`; missing counters read 0 |
| PublicGistsTable.Rows | src/components/PublicGistsTable/public-gists-table.tsx:37-54 | one row per gist, in order, each the projection of its gist |
| PublicGistsTable.Bump | src/components/PublicGistsTable/public-gists-table.tsx:62-66 | the optimistic update raises the chosen counter by one on exactly the rows whose key is the gist id; every other row is unchanged |
| PublicGistsTable.Revert | src/components/PublicGistsTable/public-gists-table.tsx:74-78 | the roll-back lowers the chosen counter by one, never below zero, on exactly the rows whose key is the gist id |
| PublicGistsTable.RevertAfterBump | src/components/PublicGistsTable/public-gists-table.tsx:62-78 | an optimistic increment followed by a failed request gives back the original rows when the counters were not negative |
| PublicGistsTable.RevertNonNegative | src/components/PublicGistsTable/public-gists-table.tsx:74-78 | after a roll-back the affected counter is never negative |
| PublicGistsTable.BumpsCommute | src/components/PublicGistsTable/public-gists-table.tsx:62-100 | star and fork increments on any rows can be applied in either order with the same result |
| PublicGistsTable.LoadingKeysDistinct | src/components/PublicGistsTable/public-gists-table.tsx:59-93 | `star-<id>` and `fork-<id>` keys of different actions or different gists never collide |
| PublicGistsTable.SkeletonRows | src/components/PublicGistsTable/public-gists-table.tsx:132-145 | `count` placeholder rows (none for a negative count) keyed `skeleton-0`, `skeleton-1`, … with zero counters |
| PublicGistsTable.RowClick | src/components/PublicGistsTable/public-gists-table.tsx:126-130 | a click navigates, to `/gist/<key>`, exactly when nothing is loading, the key is non-empty and the key does not start with `skeleton-` |
| PublicGistsTable.SkeletonRowsInert | src/components/PublicGistsTable/public-gists-table.tsx:126-145 | clicking any placeholder row never navigates |
| PublicGistsTable.DataSource | src/components/PublicGistsTable/public-gists-table.tsx:265 | the table shows the five placeholder rows whenever it is loading, whatever the gist count, and the row data otherwise |
| PublicGistsTable.GistsTable.constructor | src/components/PublicGistsTable/public-gists-table.tsx:32-34 | starts with no rows, no starred gists and no actions in flight |
| PublicGistsTable.GistsTable.SyncRows | src/components/PublicGistsTable/public-gists-table.tsx:37-54 | the loop rebuilds the row data as the projection of the new gists and leaves the starred and in-flight sets alone |
| PublicGistsTable.GistsTable.Begin | src/components/PublicGistsTable/public-gists-table.tsx:57-66 | starting a star or fork adds its loading key and applies the optimistic increment |
| PublicGistsTable.GistsTable.Settle | src/components/PublicGistsTable/public-gists-table.tsx:68-122 | the loading key is removed either way; success keeps the rows, remembers a star or navigates to the fork, and shows the success text; failure rolls the counter back and shows the failure text |
| GistsSlice.TotalPagesEstimate | src/store/slices/gistsSlice.ts:96-98 | the estimate is at least 1 and never below the current page, and is above it (and at least 2) when there is a next page; from page 1 on it is the next page or the current one |
| GistsSlice.Slice.constructor | src/store/slices/gistsSlice.ts:19-30 | the slice starts in the initial state |
| GistsSlice.Slice.SetGists | src/store/slices/gistsSlice.ts:36-38 | only the gist list changes |
| GistsSlice.Slice.SetSearchResult | src/store/slices/gistsSlice.ts:39-41 | only the single search result changes |
| GistsSlice.Slice.SetSearchResults | src/store/slices/gistsSlice.ts:42-44 | only the search result list changes |
| GistsSlice.Slice.ClearSearch | src/store/slices/gistsSlice.ts:45-48 | resets only the two search fields, the same transition as the store's |
| GistsSlice.Slice.SetGistContents | src/store/slices/gistsSlice.ts:49-51 | only the content map changes |
| GistsSlice.Slice.UpdateGistContent | src/store/slices/gistsSlice.ts:52-54 | only the content of the one gist id changes, the same transition as the store's |
| GistsSlice.Slice.SetLoading | src/store/slices/gistsSlice.ts:55-57 | only the loading flag changes |
| GistsSlice.Slice.SetLoadingContent | src/store/slices/gistsSlice.ts:58-60 | only the content-loading flag changes |
| GistsSlice.Slice.SetPagination | src/store/slices/gistsSlice.ts:61-71 | copies exactly its four fields and nothing else |
| GistsSlice.Slice.ResetGistsState | src/store/slices/gistsSlice.ts:72-83 | the state becomes exactly the initial state |
| GistsSlice.Slice.FetchUserGistsPending | src/store/slices/gistsSlice.ts:87-89 | only the content-loading flag is set |
| GistsSlice.Slice.FetchUserGistsFulfilled | src/store/slices/gistsSlice.ts:90-99 | the page replaces the list and the cursor, the flag is cleared, and the page count is the estimate, so it is never below the current page and above it when there is a next page |
| GistsSlice.Slice.FetchUserGistsRejected | src/store/slices/gistsSlice.ts:100-102 | only the content-loading flag is cleared; the list is kept |
| GistsSlice.Slice.SearchGistsFulfilled | src/store/slices/gistsSlice.ts:103-106 | the keyword results are stored and the single result is cleared, nothing else |
| GistsSlice.Slice.SearchGistByIdFulfilled | src/store/slices/gistsSlice.ts:107-110 | the single result is stored and the result list emptied, nothing else |
| AuthSlice.Slice.constructor | src/store/slices/authSlice.ts:17-24 | the slice starts in the initial auth state |
| AuthSlice.Slice.SetLoading | src/store/slices/authSlice.ts:30-32 | only the loading flag changes, as in the store |
| AuthSlice.Slice.SetCurrentUser | src/store/slices/authSlice.ts:33-36 | sets the user and makes `isAuthenticated` true exactly when a user is given, the same transition as the store's |
| AuthSlice.Slice.SetUserInfo | src/store/slices/authSlice.ts:37-39 | only the user info changes |
| AuthSlice.Slice.SetGithubUserData | src/store/slices/authSlice.ts:40-42 | only the GitHub profile changes |
| AuthSlice.Slice.SetGithubToken | src/store/slices/authSlice.ts:43-45 | only the token changes |
| AuthSlice.Slice.Logout | src/store/slices/authSlice.ts:46-52 | nulls the user, user info, profile and token and clears the flag without touching `loading`: the store's logout except for `loading` |
| AuthSlice.Slice.LoginPending | src/store/slices/authSlice.ts:56-58 | only `loading` is set |
| AuthSlice.Slice.LoginFulfilled | src/store/slices/authSlice.ts:59-66 | `loading` is cleared; user info, token and the flag are set only from a present payload |
| AuthSlice.Slice.LoginRejected | src/store/slices/authSlice.ts:67-69 | only `loading` is cleared |
| AuthSlice.Slice.LogoutFulfilled | src/store/slices/authSlice.ts:70-76 | the same fields as `logout` are reset, `loading` untouched |
| AuthSlice.Slice.FetchAuthenticatedUserFulfilled | src/store/slices/authSlice.ts:77-79 | only the GitHub profile is set |
| AuthStore.SetCurrentUser | src/stores/authStore.ts:41-46 | sets the user, makes `isAuthenticated` true exactly when a user is given, and changes nothing else |
| AuthStore.SetUserInfo | src/stores/authStore.ts:48-52 | changes only the user info |
| AuthStore.SetGithubUserData | src/stores/authStore.ts:54-58 | changes only the GitHub profile |
| AuthStore.SetGithubToken | src/stores/authStore.ts:60-64 | changes only the token |
| AuthStore.SetLoading | src/stores/authStore.ts:66-70 | changes only the loading flag |
| AuthStore.SetIsAuthenticated | src/stores/authStore.ts:72-76 | changes only the authentication flag |
| AuthStore.Logout | src/stores/authStore.ts:78-86 | every user and token field is null and both flags are false, whatever the state was |
| AuthStore.Partialize | src/stores/authStore.ts:90-93 | the persisted record holds the token and the flag |
| AuthStore.PartializeOnlyTokenAndFlag | src/stores/authStore.ts:90-93 | two states persist the same record iff they agree on the token and the flag |
| AuthStore.SettersKeepPersisted | src/stores/authStore.ts:48-70 | the user-info, profile and loading setters never change what is persisted |
| AuthStore.LogoutPersistsNothing | src/stores/authStore.ts:78-93 | after a logout the persisted record is no token and not authenticated |
| AuthStore.LogoutForgetsUser | src/stores/authStore.ts:41-86 | signing a user in and then logging out equals logging out directly |
| GistsStore.ClearSearch | src/stores/gistsStore.ts:72-77 | the two search fields are reset and every other field is as before |
| GistsStore.UpdateGistContent | src/stores/gistsStore.ts:85-92 | the content map gains or overwrites exactly the key `gistId`; every other key and every other field is untouched |
| GistsStore.AddGist | src/stores/gistsStore.ts:130-134 | the new list is the gist followed by the old list; nothing else changes |
| GistsStore.Replaced | src/stores/gistsStore.ts:139-141 | same length; exactly the gists whose id matches are replaced, the rest stay in place |
| GistsStore.UpdateGist | src/stores/gistsStore.ts:136-142 | the list is the replaced list; nothing else changes |
| GistsStore.Without | src/stores/gistsStore.ts:147 | no longer than before, and a gist is kept iff it was present and its id differs |
| GistsStore.RemoveGist | src/stores/gistsStore.ts:144-148 | no gist with the id is left, the list is the filtered list, nothing else changes |
| GistsStore.WithoutConcat | src/stores/gistsStore.ts:147 | the filter keeps the order: it distributes over concatenation |
| GistsStore.WithoutAbsent | src/stores/gistsStore.ts:147 | removing an id that is absent leaves the list as it was |
| GistsStore.RemoveUndoesAdd | src/stores/gistsStore.ts:130-148 | removing a freshly added gist whose id was not present gives back the state before the add |
| GistsStore.RemoveIdempotent | src/stores/gistsStore.ts:144-148 | removing twice is removing once |
| GistsStore.WithoutReplaced | src/stores/gistsStore.ts:136-148 | an update that keeps the id is invisible to a later removal of that id |
| GistsStore.RemoveAfterUpdate | src/stores/gistsStore.ts:136-148 | updating then removing a gist equals removing it |
| GistsStore.UpdateKeepsIds | src/stores/gistsStore.ts:136-142 | an update that keeps the id keeps the set of ids |
| ErrorHandler.HandleGitHubApiError | src/utils/error-handler.ts:22-43 | a thrown Response gets its status as code, with the fixed messages for 401, 403 and 404 and `GitHub API error: <status>` otherwise; an Error keeps its message with code `CLIENT_ERROR`; anything else is `UNKNOWN` |
| ErrorHandler.HandleNetworkError | src/utils/error-handler.ts:48-58 | a TypeError mentioning `fetch` gets the fixed network message; any other Error keeps its message; both have code `NETWORK_ERROR`; anything else is `UNKNOWN` |
| ErrorHandler.IsRetryable | src/utils/error-handler.ts:75-78 | retryable iff the code is the number 429, 500, 502, 503 or 504 or the string `NETWORK_ERROR` |
| ErrorHandler.RetryableThroughApi | src/utils/error-handler.ts:173-174 | through the API classifier only a thrown Response with status 429, 500, 502, 503 or 504 is retried |
| ErrorHandler.EntryErrorsEmptyIff | src/utils/error-handler.ts:101-109 | one file entry is reported on iff its name or its content is blank |
| ErrorHandler.FileErrorsEmptyIff | src/utils/error-handler.ts:101-109 | the entries give no error iff every name and every content is non-blank |
| ErrorHandler.PushEntryErrors | src/utils/error-handler.ts:102-108 | the two checks push the blank-name error, then the blank-content error naming the file |
| ErrorHandler.PushFileErrors | src/utils/error-handler.ts:101-109 | the `forEach` appends the errors of every entry, in entry order |
| ErrorHandler.ValidateGistData | src/utils/error-handler.ts:88-113 | no files field gives no errors; an empty one gives `At least one file is required`; then every entry's errors follow |
| ErrorHandler.GistDataValidIff | src/utils/error-handler.ts:88-113 | the gist data passes iff there is no files field, or a non-empty one whose every name and content is non-blank |
| ErrorHandler.ValidateSearchQuery | src/utils/error-handler.ts:118-134 | in this order: empty when the query is blank, too short below 2 UTF-16 units, too long above 100, the lengths taken on the raw query |
| ErrorHandler.SearchQueryErrorsReport | src/utils/error-handler.ts:121-131 | `cannot be empty` iff the trimmed query is empty; `at least 2` iff the raw UTF-16 length is below 2; `must not exceed 100` iff it is above 100 |
| ErrorHandler.SearchQueryErrorsOrdered | src/utils/error-handler.ts:118-134 | only those three messages occur, each at most once, in the fixed order |
| ErrorHandler.SearchQueryValidIff | src/utils/error-handler.ts:118-134 | a query passes iff it is non-blank and 2 to 100 UTF-16 units long |
| ErrorHandler.AstralCharQueryPasses | src/utils/error-handler.ts:125-129 | one character outside the Basic Multilingual Plane is two UTF-16 units, so it passes as a query |
| ErrorHandler.BmpCharQueryTooShort | src/utils/error-handler.ts:125-129 | one non-blank character inside the plane is too short |
| ErrorHandler.ValidatePagination | src/utils/error-handler.ts:139-151 | the page error iff page < 1; the per-page error iff perPage is outside 1..100; in that order; no errors iff both are in range |
| ErrorHandler.RetryFrom | src/utils/error-handler.ts:161-186 | past the limit it calls nothing and throws the last error; within it, the call count stays above the attempt and within the limit; a returned value is the last call's success |
| ErrorHandler.Retry | src/utils/error-handler.ts:158-187 | a negative limit throws `Unknown error` without calling; otherwise the operation runs 1 to `maxRetries + 1` times; a returned value is the last call's success |
| ErrorHandler.WithRetry | src/utils/error-handler.ts:158-187 | the loop (delays left out) computes the recursive retry reading, whose bounds `RetryContract` states |
| ErrorHandler.RetryFromFacts | src/utils/error-handler.ts:161-181 | from any attempt within bounds, the loop stops within the limit, all calls before the last threw retryable errors, and it ends with the last call's success or its error |
| ErrorHandler.RetryContract | src/utils/error-handler.ts:158-187 | the operation runs between 1 and `maxRetries + 1` times; every call before the last threw a retryable error; the first success is returned; otherwise the last error is rethrown, and that call was the final allowed one or its error was not retryable; a negative limit never calls and throws the initial error |
| ErrorHandler.ClientErrorNotRetried | src/utils/error-handler.ts:173-176 | a thrown Error is classified as a client error and is rethrown after the first call |
| LanguageUtils.Extension | src/utils/language-utils.ts:93 | the lower-cased text after the last dot (the whole name when there is none); it contains no dot, is the lower-cased tail of the name, and is preceded by a dot unless it is the whole name |
| LanguageUtils.PropertyRead | src/utils/language-utils.ts:96 | reading a key off an object literal gives its own string when it has one, and an inherited non-string member exactly when it has none and the key names a member of `Object.prototype` |
| LanguageUtils.ConstructorExtensionNotAString | src/utils/language-utils.ts:90-97 | as written, `x.constructor` is given the inherited `Object` function instead of a language string |
| LanguageUtils.LanguageAsWritten | src/utils/language-utils.ts:90-97 | as written, the read gives an inherited member exactly when the name has an extension that is not in the table but names a member of `Object.prototype`; a string result is never empty |
| LanguageUtils.GetLanguageFromFilename | src/utils/language-utils.ts:90-97 | the table's language for the extension, `text` when the name or the extension is empty or the table has no own entry |
| LanguageUtils.LanguageOrText | src/utils/language-utils.ts:96 | the table's own entry for the extension, else `text`; never empty |
| LanguageUtils.OnlyTxtIsText | src/utils/language-utils.ts:8-78 | `txt` is the only extension the table maps to `text` |
| LanguageUtils.AsWrittenAgreesOffPrototype | src/utils/language-utils.ts:90-97 | the code as written and the own-key lookup agree on every extension that is not an inherited member name |
| LanguageUtils.NoExtensionIsText | src/utils/language-utils.ts:91-94 | an empty name, or one ending in a dot, is `text` |
| LanguageUtils.ExtensionCaseIgnored | src/utils/language-utils.ts:93 | the extension is lower-cased before the lookup: `name.EXT` and `name.ext` get the same language for every dot-free extension |
| LanguageUtils.UpperCaseExtension | src/utils/language-utils.ts:93 | `App.TSX` is a `tsx` file |
| LanguageUtils.MonacoLanguageFromFilename | src/utils/language-utils.ts:104-124 | always one of the four editor languages: typescript iff the extension is ts or tsx, json iff json, markdown iff md or markdown, javascript otherwise |
| LanguageUtils.MonacoAgreesWithTable | src/utils/language-utils.ts:90-124 | where the editor picks typescript, json or markdown, the general table gives the same family |
| LanguageUtils.IsSyntaxHighlightSupported | src/utils/language-utils.ts:131-134 | highlighting is supported iff the table has an entry for the extension and it is not `txt` |
| LanguageUtils.Capitalize | src/utils/language-utils.ts:165 | same length, first letter upper-cased, the rest unchanged |
| LanguageUtils.GetLanguageDisplayName | src/utils/language-utils.ts:141-166 | the display table's name for the language, else the language with its first letter capitalised; never empty |
| LanguageUtils.DisplayNameOfUnknown | src/utils/language-utils.ts:141-166 | a file whose extension is not in the table is shown as `Text` |
| LanguageUtils.DisplayNameCapitalised | src/utils/language-utils.ts:141-166 | a display name never starts with a small ASCII letter |
| CodeSnippetUtils.StripExtension | src/utils/code-snippet-utils.ts:20 | removes a final `.ext` (a dot followed by one or more characters, none of them `/` or `.`, running to the end), and only that: the result is a prefix of the name, and the name is left whole iff no such suffix exists |
| CodeSnippetUtils.KeepAlnum | src/utils/code-snippet-utils.ts:20 | keeps only the ASCII letters and digits: no longer than the input, only letters and digits, the input itself when it has nothing else, empty when it has none |
| CodeSnippetUtils.KeepAlnumConcat | src/utils/code-snippet-utils.ts:20 | the cleaning of a concatenation is the concatenation of the cleanings, so the kept characters stay in order |
| CodeSnippetUtils.KeepAlnumChar | src/utils/code-snippet-utils.ts:20 | a single character is kept iff it is an ASCII letter or digit; with KeepAlnumConcat this gives every letter and digit, in order |
| CodeSnippetUtils.CleanBaseName | src/utils/code-snippet-utils.ts:20-21 | the stripped, cleaned base name, or `untitled` when that is empty; never empty and letters and digits only |
| CodeSnippetUtils.FirstBranchFrom | src/utils/code-snippet-utils.ts:24-138 | the first branch at or after a point whose language or extension matches, with no earlier match after that point |
| CodeSnippetUtils.SelectBranch | src/utils/code-snippet-utils.ts:24-138 | the branches are tried in the fixed order js, ts, json, py, md, html, css, sh; the first whose language or extension matches wins, and none for the fallback means no branch matches |
| CodeSnippetUtils.LanguageDecides | src/utils/code-snippet-utils.ts:24-138 | a branch's language wins unless the extension matches an earlier branch |
| CodeSnippetUtils.ExtensionDecides | src/utils/code-snippet-utils.ts:24-138 | without a language, a branch's extension selects exactly that branch |
| CodeSnippetUtils.OrDefault | src/utils/code-snippet-utils.ts:54 | `description \|\| fallback`: a missing or empty description gives the fallback |
| CodeSnippetUtils.LanguageLabel | src/utils/code-snippet-utils.ts:142 | the upper-cased language, or `Text` when it is missing or empty |
| CodeSnippetUtils.GenerateCodeSnippet | src/utils/code-snippet-utils.ts:14-147 | the template of the selected branch filled with the file name and clean base name, or the fallback template naming the file, its language label and the date |
| CodeSnippetUtils.TemplateEmbedsDescription | src/utils/code-snippet-utils.ts:50-107 | the JSON, markdown and HTML templates contain the description, or their own default when it is missing or empty |
| CodeSnippetUtils.TemplateNamesFile | src/utils/code-snippet-utils.ts:24-47 | the JavaScript and TypeScript templates open with `// <filename>` |
| CodeSnippetUtils.FallbackNamesFile | src/utils/code-snippet-utils.ts:141-146 | the fallback template opens with `// <filename>` |
| CodeSnippetUtils.GetCodeSnippetFromGist | src/utils/code-snippet-utils.ts:154-162 | no files gives `// No content available`; otherwise the snippet of the first file, named `untitled.txt` when its key is empty, with its language lower-cased and an empty description dropped |
| CodeSnippetUtils.GistLanguageDecides | src/utils/code-snippet-utils.ts:154-162 | a first file declaring a branch's language in any letter case gets that branch's template unless its extension selects an earlier one |
| CodeSnippetUtils.IconKey | src/utils/code-snippet-utils.ts:190 | the lower-cased language, or the empty key when there is none |
| CodeSnippetUtils.ConstructorLanguageNotAnIcon | src/utils/code-snippet-utils.ts:169-191 | as written, the language `Constructor` is given the inherited `Object` function instead of an icon |
| CodeSnippetUtils.LanguageIconAsWritten | src/utils/code-snippet-utils.ts:169-191 | as written, the read gives an inherited member exactly when the lower-cased language is not in the table but names a member of `Object.prototype`; a string result is never empty |
| CodeSnippetUtils.GetLanguageIcon | src/utils/code-snippet-utils.ts:169-191 | the icon table's entry for the lower-cased language, else the page icon; never empty |
| CodeSnippetUtils.IconAgreesOffPrototype | src/utils/code-snippet-utils.ts:169-191 | the code as written and the own-key lookup agree whenever the key is not an inherited member name |
| CodeSnippetUtils.IconIgnoresCase | src/utils/code-snippet-utils.ts:190 | the icon does not depend on the letter case of the language |
| DateUtils.TimeDifferences | src/utils/date-utils.ts:18-30 | each unit count is the floor of the difference over that unit: the largest whole number of minutes, hours, days, 30-day months and 365-day years not exceeding it |
| DateUtils.FormatPlural | src/utils/date-utils.ts:35-38 | the singular exactly for a count of one; otherwise the plural given, or the singular with `s` when none or an empty one is given |
| DateUtils.CreatedUnitRanges | src/utils/date-utils.ts:43-56 | the created wording counts hours below 24 hours, days from 24 hours to 30 days, months from 30 days to twelve 30-day months, and gives the locale date from there on |
| DateUtils.FormatCreatedDate | src/utils/date-utils.ts:43-56 | `Created N hour(s) ago` below a day, `Created N day(s) ago` below 30 days, `Created N month(s) ago` below twelve 30-day months, each N the floor of the difference, then `Created on <date>` |
| DateUtils.UpdatedPhraseAsWritten | src/utils/date-utils.ts:61-75 | as written: a few minutes exactly for at most one minute, minutes below 60, a singular only for a count of one, and a counted wording for any other count, zero years included |
| DateUtils.FormatUpdatedDateAsWritten | src/utils/date-utils.ts:61-75 | as written, a difference from twelve 30-day months to under a 365-day year reads `Last updated 0 years ago`, and the second year reads `a year ago` |
| DateUtils.UpdatedPhrase | src/utils/date-utils.ts:61-75 | the same buckets, except that a year count below two reads as a single year, so a counted year wording counts at least two |
| DateUtils.FormatUpdatedDate | src/utils/date-utils.ts:61-75 | `a few minutes ago` below two minutes; `a year ago` from twelve 30-day months to two years; after that the floor of the years |
| DateUtils.UpdatedZeroYears | src/utils/date-utils.ts:61-75 | as written, a difference of 361 days reads `Last updated 0 years ago` |
| DateUtils.UpdatedCountsAtLeastTwo | src/utils/date-utils.ts:61-75 | with the year bucket corrected, every counted updated wording counts at least two units |
| DateUtils.UpdatedAgreesOutsideGap | src/utils/date-utils.ts:61-75 | the corrected wording equals the code as written outside the days 360 to 364 |
| DateUtils.UpdatedRanges | src/utils/date-utils.ts:61-75 | which unit the updated wording uses for which range of differences, a few minutes below two minutes, and the singular `an hour`, `a day`, `a month` exactly in the second unit |
| DateUtils.UpdatedPhraseAt | src/utils/date-utils.ts:61-75 | the corrected chain picks the few-minutes phrase below two minutes, the single year from twelve 30-day months to two years, and from two years on the floor of the years |
| DateUtils.FormatSimpleCreatedDate | src/utils/date-utils.ts:80-88 | `an hour` below two hours, the hour count up to a day, `a day` exactly in the second day, the day count after |
| DateUtils.FormatRelativeDate | src/utils/date-utils.ts:93-102 | the created wording when created is asked for, the updated wording otherwise, including when no kind is given |
| Pagination.SubmitOutcome | src/components/Pagination/pagination.tsx:36-43 | a positive parsed number other than the current page is requested; text that is not a number, zero or a negative number resets the box; the current page itself does nothing |
| Pagination.ResubmitIsInert | src/components/Pagination/pagination.tsx:36-43 | submitting the box as it was reset (the current page's decimal text) requests nothing |
| Pagination.TypedPageRequested | src/components/Pagination/pagination.tsx:36-43 | a page typed in decimal is requested exactly when it is positive and not the current one |
| Pagination.PrevRequest | src/components/Pagination/pagination.tsx:51-55 | the previous arrow asks for the page before exactly when there is one and nothing is loading |
| Pagination.NextRequest | src/components/Pagination/pagination.tsx:57-61 | the next arrow asks for the page after exactly when there is one and nothing is loading |
| Pagination.ArrowsShowTheirGuards | src/components/Pagination/pagination.tsx:72 | an arrow is drawn disabled exactly when clicking it requests nothing |
| Pagination.PageLabel | src/components/Pagination/pagination.tsx:86 | the label starts `of ` and ends in `+` exactly when there is a next page |
| Pagination.Hidden | src/components/Pagination/pagination.tsx:63-66 | the navigator is hidden only on page one when no next page can be requested; shown on page one, its next arrow asks for page two |
| Pagination.ShownOnFirstPageHasNext | src/components/Pagination/pagination.tsx:64-66 | a navigator shown on page one always offers page two unless loading |
| Pagination.PageInput.constructor | src/components/Pagination/pagination.tsx:25 | the box starts with the current page's decimal text |
| Pagination.PageInput.CurrentPageChanged | src/components/Pagination/pagination.tsx:28-30 | a page change puts the new page's decimal text in the box |
| Pagination.PageInput.Typed | src/components/Pagination/pagination.tsx:32-34 | the box holds what was typed |
| Pagination.PageInput.Submit | src/components/Pagination/pagination.tsx:36-43 | requests the page the outcome names, and on a reset puts the current page back in the box, leaving it unchanged otherwise |
| GistForms.DescriptionIssues | src/hooks/forms/useGistForms.ts:7 | no issue exactly for a description of 1 to 256 UTF-16 units; the required message exactly for the empty one; the too-long message alone for one over 256 units |
| GistForms.FileIssues | src/hooks/forms/useGistForms.ts:10-11 | no issue exactly when both fields are non-empty; the required-filename issue at `files.<index>.filename` exactly when the filename is empty, and the required-content issue at `files.<index>.content` exactly when the content is empty; both, filename first, when both are empty; never more than two |
| GistForms.ElementIssuesEmptyIff | src/hooks/forms/useGistForms.ts:9-13 | the file array reports nothing exactly when every file is valid |
| GistForms.CreateIssuesEmptyIff | src/hooks/forms/useGistForms.ts:6-14 | the create schema reports nothing exactly for a bounded non-empty description and at least one file, all of them valid |
| GistForms.CreateDefaults | src/hooks/forms/useGistForms.ts:19-29 | each key the caller supplies overrides the built-in default: empty description, public, one empty file |
| GistForms.DefaultFileIssues | src/hooks/forms/useGistForms.ts:10-11 | the default file, first in the list, gets the required issues at `files.0.filename` and `files.0.content` |
| GistForms.DefaultCreateFormInvalid | src/hooks/forms/useGistForms.ts:19-29 | the built-in default form fails on its description and on the filename and content of `files.0` |
| GistForms.UpdateIssues | src/hooks/forms/useGistForms.ts:32-38 | the update schema rejects only a present description longer than 256 UTF-16 units |
| GistForms.SearchIssues | src/hooks/forms/useGistForms.ts:51-55 | the search schema rejects exactly the empty query |
| GistForms.SearchDefaultsInvalid | src/hooks/forms/useGistForms.ts:60-69 | the default search form is rejected; a query of a single space is accepted |
| CreateGistForm.FilesObject | src/components/CreateGistForm/CreateGistForm.tsx:34-37 | every key of the files object is a filename of the form, and the last file's name maps to its content |
| CreateGistForm.FilesObjectKeys | src/components/CreateGistForm/CreateGistForm.tsx:34-37 | the files object has exactly one key per distinct filename of the form |
| CreateGistForm.FilesObjectLastWins | src/components/CreateGistForm/CreateGistForm.tsx:34-37 | a filename maps to the content of the last file that carries it |
| CreateGistForm.ProtoFileLost | src/components/CreateGistForm/CreateGistForm.tsx:34-37 | as written, a valid form whose only file is named `__proto__` sends an empty files object |
| CreateGistForm.FilesObjectAsWritten | src/components/CreateGistForm/CreateGistForm.tsx:34-37 | as written, every key is a filename of the form and `__proto__` is never a key |
| CreateGistForm.AsWrittenAgreesWithoutProto | src/components/CreateGistForm/CreateGistForm.tsx:34-37 | without a `__proto__` filename the fold as written gives the own-key files object |
| CreateGistForm.BuildFilesObject | src/components/CreateGistForm/CreateGistForm.tsx:34-37 | the loop's object is the files object of the whole list |
| CreateGistForm.OnSubmit | src/components/CreateGistForm/CreateGistForm.tsx:31-45 | the payload keeps the description and the visibility and carries the files object |
| CreateGistForm.ValidFormPayload | src/components/CreateGistForm/CreateGistForm.tsx:31-45 | a form the schema accepts sends at least one file and no file with an empty name |
| CreateGistForm.WithoutIndex | src/components/CreateGistForm/CreateGistForm.tsx:56-61 | with more than one file the file at the index is dropped and the others kept in order; otherwise, or for an index outside the list, nothing changes |
| CreateGistForm.RemoveFileKeepsOne | src/components/CreateGistForm/CreateGistForm.tsx:56-61 | removal never empties a non-empty list and drops at most one file |
| CreateGistForm.AddFileInvalidates | src/components/CreateGistForm/CreateGistForm.tsx:52-54 | after adding a file the form fails the schema until it is filled in |
| CreateGistForm.RemoveFileKeepsValid | src/components/CreateGistForm/CreateGistForm.tsx:56-61 | removing a file from a valid form keeps it valid |
| CreateGistForm.FormFiles.constructor | src/components/CreateGistForm/CreateGistForm.tsx:26 | the list starts as the default form's single empty file |
| CreateGistForm.FormFiles.AddFile | src/components/CreateGistForm/CreateGistForm.tsx:52-54 | appends one empty file |
| CreateGistForm.FormFiles.RemoveFile | src/components/CreateGistForm/CreateGistForm.tsx:56-61 | the list becomes the one without the index |
| CreateGistPage.ReplaceById | src/pages/create-gist/page.tsx:18-20 | every file with the updated file's id is replaced by it; the others stay in place and the length is kept |
| CreateGistPage.ReplaceKeepsIds | src/pages/create-gist/page.tsx:18-20 | editing a file never changes which id sits at which position |
| CreateGistPage.RemoveById | src/pages/create-gist/page.tsx:22-24 | a file remains exactly when it was on the page and has a different id; the list never grows |
| CreateGistPage.RemoveByIdConcat | src/pages/create-gist/page.tsx:22-24 | removal by id keeps the order: it distributes over concatenation |
| CreateGistPage.RemoveAbsent | src/pages/create-gist/page.tsx:22-24 | removing an id no file has changes nothing |
| CreateGistPage.RemoveUndoesAdd | src/pages/create-gist/page.tsx:22-28 | removing a file just added under a fresh id gives back the list before the add |
| CreateGistPage.NonEmptyFiles | src/pages/create-gist/page.tsx:34 | a file is kept exactly when it was on the page and neither its name nor its content is blank |
| CreateGistPage.NonEmptyFilesConcat | src/pages/create-gist/page.tsx:34 | the filter keeps the order: it distributes over concatenation |
| CreateGistPage.SubmitOutcome | src/pages/create-gist/page.tsx:30-48 | rejected with the alert exactly when no file is filled in; otherwise the trimmed description and, in order, the name and content of each filled file |
| CreateGistPage.SubmittedFilesFilled | src/pages/create-gist/page.tsx:34-42 | each file sent comes from the page and has a non-blank name and content |
| CreateGistPage.InitialPageRejected | src/pages/create-gist/page.tsx:10-16 | the page as first rendered, one empty `filename.txt`, is rejected on submit |
| CreateGistPage.Page.constructor | src/pages/create-gist/page.tsx:9-16 | an empty description and one `filename.txt` file with no content |
| CreateGistPage.Page.SetDescription | src/pages/create-gist/page.tsx:65 | the description becomes the typed value; files unchanged |
| CreateGistPage.Page.FileChanged | src/pages/create-gist/page.tsx:18-20 | the files become the list with the edited file replaced by id |
| CreateGistPage.Page.Remove | src/pages/create-gist/page.tsx:22-24 | the files become the list without that id |
| CreateGistPage.Page.AddFile | src/pages/create-gist/page.tsx:26-28 | one empty file under the fresh id is appended |
| MockData.MockCardIds | src/data/mock-data.ts:11-233 | there are six fixed cards, numbered `1` to `6` in order |
| MockData.SliceIndex | src/data/mock-data.ts:280 | a slice bound: a negative one counts back from the end, and every bound is clamped into the list |
| MockData.CeilDiv | src/data/mock-data.ts:284 | for a positive divisor, the least whole number of divisors that covers the dividend |
| MockData.GetMockGistsPaginated | src/data/mock-data.ts:276-286 | the page is the slice from `(page-1)*pageSize` of length `pageSize`, with the total of six, the page and size echoed, and the ceiling of six over the size as the page count (none for size zero) |
| MockData.PageSizeBound | src/data/mock-data.ts:276-286 | no page holds more than the page size, for any page number |
| MockData.PagesCoverCards | src/data/mock-data.ts:276-286 | for positive page and size the page is the run of cards it names, and it is non-empty exactly up to the page count |
| JsString.RemoveFirst | src/data/mock-data.ts:312 | `replace(c, '')` with a one-character pattern: the string unchanged when `c` does not occur, one character shorter when it does |
| JsString.FirstIndex | src/data/mock-data.ts:312 | the position of the first occurrence of a character: it holds the character and nothing before it does |
| JsString.RemovesFirst | src/data/mock-data.ts:312 | the removed character is the first occurrence: the result is the text before it followed by the text after it |
| JsString.RemoveFirstAfter | src/data/mock-data.ts:312 | removing `c` from `a + c + b`, with `c` not in `a`, gives `a + b`; later occurrences stay |
| MockData.TwoWordHandle | src/data/mock-data.ts:312 | a lower-cased `first last` with a space-free first word loses exactly the space between the words |
| MockData.AuthorNames | src/data/mock-data.ts:295 | each author is a space-free first name, one space and a last name |
| MockData.HandleNames | src/data/mock-data.ts:295 | each URL handle is the author's two names lower-cased and joined |
| MockData.AuthorHandle | src/data/mock-data.ts:312 | each author's URL segment is their handle, for example `alicejohnson` |
| MockData.GeneratedCard | src/data/mock-data.ts:298-314 | the card at an index is numbered seven plus the index, takes the language and author at that index modulo the list lengths, and links to `https://gist.github.com/<handle>/<id>` with that author's handle |
| MockData.GenerateMockGists | src/data/mock-data.ts:293-316 | as many cards as asked for (none for a negative count), numbered upward from 7, with cyclic languages and authors |
| MockData.NumberedFromSevenFresh | src/data/mock-data.ts:299 | decimal ids numbered from 7 are pairwise distinct and differ from the ids 1 to 6 |
| MockData.GeneratedIdsFresh | src/data/mock-data.ts:293-316 | generated cards have pairwise distinct ids, none of them a fixed card's |
| MockData.ExtensionsNameLanguages | src/data/mock-data.ts:294-296 | each extension of the generator's list names, in the language table, the language at the same position |
| MockData.GeneratedExtensionMatchesLanguage | src/data/mock-data.ts:300-307 | the language read back from a generated file name is the card's language |
| JsString.TrimStart | src/layout/header.tsx:40 | the longest all-whitespace prefix is removed: the result is a suffix that starts with a non-whitespace character or is empty |
| JsString.TrimEnd | src/layout/header.tsx:40 | the longest all-whitespace suffix is removed: the result is a prefix that ends with a non-whitespace character or is empty |
| JsString.Trim | src/layout/header.tsx:40 | the result is no longer than the input and neither starts nor ends with whitespace; an empty result means the input was all whitespace (that only edge whitespace is cut is `TrimCutsOnlyBlanks`) |
| JsString.LeadingBlanks | src/layout/header.tsx:40 | the length of the longest all-whitespace prefix |
| JsString.TrimStartDropsBlanks | src/layout/header.tsx:40 | `trimStart` drops exactly the leading whitespace run |
| JsString.TrimCutsOnlyBlanks | src/layout/header.tsx:40 | `trim` keeps one contiguous piece that starts right after the leading whitespace run; everything it cuts away, at either end, is whitespace |
| JsString.TrimIsInfix | src/layout/header.tsx:40 | the trimmed string occurs inside the original |
| JsString.BlankIffTrimEmpty | src/layout/header.tsx:74 | a string trims to empty exactly when all its characters are whitespace |
| JsString.TrimIdempotent | src/layout/header.tsx:40 | trimming twice is trimming once |
| JsString.TrimOfTrimmed | src/layout/header.tsx:40 | a string that neither starts nor ends with whitespace is its own trim |
| JsString.Utf16Len | src/utils/error-handler.ts:125-129 | `length` counts UTF-16 units: between the number of characters and twice it, and zero only for the empty string |
| JsString.Utf16LenConcat | src/utils/error-handler.ts:125-129 | the length of a concatenation is the sum of the lengths |
| JsString.Utf16LenBmp | src/hooks/forms/useGistForms.ts:7 | inside the Basic Multilingual Plane the length is the number of characters |
| JsString.ToLower | src/utils/language-utils.ts:93 | same length, each ASCII capital lowered and every other character kept |
| JsString.ToUpper | src/layout/header.tsx:220 | same length, each ASCII small letter raised and every other character kept |
| JsString.IncludesConcat | src/services/github-api.ts:49 | a string contains any piece it was built around |
| JsString.LastSegment | src/utils/language-utils.ts:93 | `split(sep).pop()`: the longest suffix free of the separator, preceded by the separator unless it is the whole string |
| JsString.LastSegmentAfter | src/utils/language-utils.ts:93 | the last segment of `a + sep + e` is `e` when `e` holds no separator |
| JsString.Split | src/layout/header.tsx:217 | at least one piece, none containing the separator |
| JsString.SplitJoins | src/layout/header.tsx:217 | joining the pieces with the separator gives back the string |
| JsString.SplitNoSep | src/layout/header.tsx:217 | a string without the separator is a single piece |
| JsString.SplitAt | src/layout/header.tsx:217 | the text before the first separator is the first piece, the rest splits on its own |
| JsString.NatToString | src/services/github-api.ts:45 | a non-empty run of decimal digits, with no leading zero except for zero itself |
| JsString.IntToString | src/services/github-api.ts:45 | a minus sign exactly for a negative number, digits otherwise |
| JsString.NatToStringRoundTrip | src/services/github-api.ts:45 | reading the digits back gives the number |
| JsString.NatToStringInjective | src/services/github-api.ts:45 | different numbers render differently |
| JsString.IntToStringInjective | src/services/github.ts:44 | different integers render differently |
| JsString.LeadingDigits | src/components/Pagination/pagination.tsx:37 | the longest prefix made of decimal digits |
| JsString.LeadingDigitsOfDigits | src/components/Pagination/pagination.tsx:37 | an all-digit string is its own leading run |
| JsString.LeadingDigitsThen | src/components/Pagination/pagination.tsx:37 | the leading run of digits followed by a non-digit tail is those digits |
| JsString.Magnitude | src/components/Pagination/pagination.tsx:37 | no value exactly when the text does not start with a digit; otherwise the decimal value of the longest leading digit run, whatever follows it |
| JsString.MagnitudeOfDigits | src/components/Pagination/pagination.tsx:37 | an all-digit string has its decimal value |
| JsString.MagnitudeThen | src/components/Pagination/pagination.tsx:37 | digits followed by a non-digit tail have the value of the digits alone |
| JsString.ParseInt | src/components/Pagination/pagination.tsx:37 | `NaN` exactly when, after leading whitespace and one optional sign, no digit follows; a value after a minus sign is at most zero, any other value at least zero |
| JsString.TrimStartKeeps | src/components/Pagination/pagination.tsx:37 | a string starting with a non-whitespace character keeps its start |
| JsString.ParseIntOfDigits | src/components/Pagination/pagination.tsx:37 | `parseInt` of a non-empty all-digit string is its decimal value |
| JsString.ParseIntOfDigitStart | src/components/Pagination/pagination.tsx:37 | a string starting with a digit parses to the value of its leading digits |
| JsString.ParseIntStopsAtNonDigit | src/components/Pagination/pagination.tsx:37 | `parseInt` stops at the first non-digit: `parseInt("3x")` is 3 |
| JsString.ParseIntOfNat | src/components/Pagination/pagination.tsx:37 | `parseInt` reads back a rendered natural number |
| JsString.ParseSignedNegative | src/components/Pagination/pagination.tsx:37 | a minus sign followed by digits reads as the negated value |
| JsString.ParseIntOfSignedDigits | src/components/Pagination/pagination.tsx:37 | `parseInt` of a minus sign followed by digits is the negated value |
| JsString.ParseIntOfNegative | src/components/Pagination/pagination.tsx:37 | `parseInt` reads back a rendered negative number |
| JsString.ParseIntRoundTrip | src/components/Pagination/pagination.tsx:37 | `parseInt` of an integer's decimal rendering gives the integer |

## Left out

- Network transport (`fetch`, `response.json()`, `response.text()`): a response is a given status, body, text and header values. A rejected `text()` is a response without text.
- Concurrency: the `Promise.all` lookups in `handleSearch` and `searchGists` are modelled as sequential. The results keep the order of the ids either way.
- Firebase identity calls (`signInWithPopup`, `signOut`, `onAuthStateChanged`) are foreign. The popup and sign-out outcomes are parameters.
- `JSON.parse` and `JSON.stringify` of the stored user blob: the blob is stored as given, and the serialiser is a parameter of `LoginWithGithub`.
- `encodeURIComponent`: the code-search query is sent unencoded, as a string built from its parts.
- react-query hooks, the redux store setup, the thunks and `AuthContext`: library plumbing with no logic of its own. The thunks' outcomes are the actions the slices receive.
- The clock and randomness (`new Date()`, `Date.now`, `toLocaleDateString`, `Math.random`, `uuidv4`):
  - the date functions take the millisecond difference;
  - the created-date fallback and the snippet fallback take the locale text;
  - the mock generator takes the day count drawn for each card;
  - the create page takes the fresh ids.
- The back-off delays of `withRetry`: only the attempt and stop logic is modelled.
- Default arguments are not modelled: every modelled operation takes all its arguments, and a caller that relies on a default passes it explicitly. The defaults are:
  - `withRetry`'s `maxRetries = 3` and `delay = 1000` (src/utils/error-handler.ts:158);
  - `page = 1` of the service's `fetchPublicGists` and `fetchUserGists` (src/services/github.ts:41, 88);
  - `page = 1` with `perPage = 10` of the client's `fetchPublicGists` and `fetchUserGists`, and `page = 1` with `perPage = 5` of `fetchAuthenticatedUserGists` (src/services/github-api.ts:44, 66, 76);
  - `getMockGistsPaginated`'s `page = 1` and `pageSize = 10` (src/data/mock-data.ts:276).
- The regular expressions are modelled as explicit leftmost-match scanners for the patterns the code uses, not as a general regex engine.
- `searchGistsByName`, `starGist`, `forkGist`, `unstarGist` and `checkIfGistStarred` are called but not defined in the service. Their answers are parameters.
- The header's `searching` flag, `handleGitHubLogin`, `handleLogout`, `handleMenuClick` and `handleSearchKeyPress` are not modelled. Neither are the table's keyword badge (`split(' ')[0] || 'general'`) and all JSX rendering. These carry no logic beyond calling modelled operations.
- `useUpdateGistForm` passes its defaults through unchanged, so it is not modelled separately.
- The single-field setters of `gistsStore` (`setGists`, `setCurrentPage`, `setHasNext`, …) are the same spread transitions as the slice setters, so they are not modelled separately.
- The fixed mock cards' code-snippet text and `mockGitHubGists` are not modelled. The latter is drawn with `Math.random`.
- Duplicate helpers in other components are not modelled: the profile table's date formatter, the profile list's extension map, and the initials helpers of the gist card, profile sidebar and detail page.
- JsString.Trim: its own ensures leave out that only the whitespace at either end is removed. Stated there, that fact made the many proofs that use `Trim` too costly, so the lemma `JsString.TrimCutsOnlyBlanks` states it instead.
- JsString.ToLower: lowers only the ASCII letters; JavaScript's full Unicode case mapping is not modelled.
- JsString.ToUpper: raises only the ASCII letters, for the same reason.
- JsString.ParseInt: the value is the exact integer of the digits. JavaScript rounds very long digit runs to the nearest double, which is not modelled.
- MockData.CeilDiv: states its bound for a positive divisor only; the negative page sizes the code accepts are computed but not characterised.
- MockData.GenerateMockGists: `Array.from` throws a RangeError for a count above 2^32 - 1. The model returns the cards instead.
- Header.FirstLetters: takes the first character of each word. JavaScript's `n[0]` takes the first UTF-16 unit, which is a lone surrogate when the word starts outside the Basic Multilingual Plane. A Dafny string cannot hold a lone surrogate, so such a word gives its whole first character here.
- Header.UserInitials: `.slice(0, 2)` keeps two UTF-16 units, and the model keeps two characters. The two differ when an initial lies outside the Basic Multilingual Plane, for the reason given for `FirstLetters`.
- LanguageUtils.IsSyntaxHighlightSupported: built on the own-key lookup `GetLanguageFromFilename`, the corrected half of the first finding below. As written, `x.constructor` and `x.__proto__` read an inherited member, which is not `'text'`, so the code reports them as supported; the model reports them as not supported. `LanguageUtils.LanguageAsWritten` models the read as written.
- LanguageUtils.GetLanguageDisplayName: built on the same corrected lookup. As written, `x.constructor` reads the `Object` function, and `language.charAt` then throws a TypeError; the model shows `Text`.
- DateUtils.FormatRelativeDate: dispatches to the corrected `FormatUpdatedDate` of the last finding below. As written, a difference of 361 days reads `Last updated 0 years ago`, and the model reads `Last updated a year ago`. `DateUtils.FormatUpdatedDateAsWritten` models the wording as written.
- CreateGistForm.OnSubmit: carries the own-key files object `FilesObject`, the corrected half of the third finding below. As written, a file named `__proto__` is dropped from the payload, and the model sends it. `CreateGistForm.FilesObjectAsWritten` models the fold as written.
- The `console.error` logging is not modelled. This covers the catch blocks of the service (`src/services/github.ts`), the submit handler of the create form (`src/components/CreateGistForm/CreateGistForm.tsx:48`) and the error handler's `logError` (`src/utils/error-handler.ts:63-70`). Logging changes no state the model keeps, and a caught error is otherwise modelled as the value it yields.
- GistForms.CreateDefaults: a key present in the caller's partial object but set to `undefined` is modelled as absent. JavaScript's spread would copy the `undefined`.

## Findings

| source | as written | input that shows it | evidently intended | confidence | as-written member | corrected member |
|---|---|---|---|---|---|---|
| src/utils/language-utils.ts:96 | `LANGUAGE_MAP[extension] \|\| 'text'` reads the object's prototype chain, so an extension that names an inherited member returns a function instead of a language | the filename `x.constructor` | an own-key lookup that falls back to `text` | not executed | LanguageUtils.ConstructorExtensionNotAString | LanguageUtils.GetLanguageFromFilename |
| src/utils/code-snippet-utils.ts:190 | `icons[language?.toLowerCase() \|\| ''] \|\| '📄'` reads the prototype chain the same way | the language `Constructor` | an own-key lookup that falls back to the page icon | not executed | CodeSnippetUtils.ConstructorLanguageNotAnIcon | CodeSnippetUtils.GetLanguageIcon |
| src/components/CreateGistForm/CreateGistForm.tsx:34-37 | `acc[file.filename] = …` on a plain object: a file named `__proto__` replaces the accumulator's prototype and never reaches the payload | one valid file named `__proto__` with content `x` | every file of the form becomes a key of the files object | not executed | CreateGistForm.ProtoFileLost | CreateGistForm.FilesObjectKeys |
| src/utils/date-utils.ts:70-74 | twelve 30-day months are 360 days, but a year is 365, so the year bucket is entered with a year count of zero | a difference of 361 days, worded `Last updated 0 years ago` | the year bucket reads `a year ago` until a full second year has passed | not executed | DateUtils.UpdatedZeroYears | DateUtils.UpdatedCountsAtLeastTwo |
