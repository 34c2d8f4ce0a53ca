/** Error classification, input validators and the bounded retry loop. A
    thrown value is one of: a fetch `Response`, an `Error` (possibly a
    `TypeError`), or any other value, which JavaScript may see as truthy or
    falsy. */
module ErrorHandler {
  import opened Wrappers
  import opened JsString

  const AuthRequired := "Authentication required. Please log in with GitHub."
  const RateLimitExceeded := "Rate limit exceeded. Please try again later."
  const NetworkErrorMessage := "Network error. Please check your connection."
  const UnknownErrorMessage := "An unknown error occurred"
  const GistNotFound := "Gist not found"

  datatype ErrorKind = PlainError | TypeError

  datatype Thrown =
    | ResponseThrown(status: int)
    | ErrorThrown(kind: ErrorKind, message: string)
    | OtherThrown(truthy: bool)

  /** `AppError.code`: absent, a number or a string. */
  datatype Code = NoCode | NumCode(n: int) | TextCode(s: string)

  datatype AppError = AppError(message: string, code: Code)

  function ApiErrorMessage(status: int): string {
    "GitHub API error: " + IntToString(status)
  }

  /** `handleGitHubApiError`: responses by status, errors as client errors,
      anything else as unknown. */
  function HandleGitHubApiError(e: Thrown): (r: AppError)
    ensures e.ResponseThrown? ==> r.code == NumCode(e.status)
    ensures e.ResponseThrown? && e.status == 401 ==> r.message == AuthRequired
    ensures e.ResponseThrown? && e.status == 403 ==> r.message == RateLimitExceeded
    ensures e.ResponseThrown? && e.status == 404 ==> r.message == GistNotFound
    ensures e.ResponseThrown? && e.status !in {401, 403, 404} ==> r.message == ApiErrorMessage(e.status)
    ensures e.ErrorThrown? ==> r == AppError(e.message, TextCode("CLIENT_ERROR"))
    ensures e.OtherThrown? ==> r == AppError(UnknownErrorMessage, TextCode("UNKNOWN"))
  {
    match e
    case ResponseThrown(status) =>
      if status == 401 then AppError(AuthRequired, NumCode(401))
      else if status == 403 then AppError(RateLimitExceeded, NumCode(403))
      else if status == 404 then AppError(GistNotFound, NumCode(404))
      else AppError(ApiErrorMessage(status), NumCode(status))
    case ErrorThrown(_, message) => AppError(message, TextCode("CLIENT_ERROR"))
    case OtherThrown(_) => AppError(UnknownErrorMessage, TextCode("UNKNOWN"))
  }

  /** `handleNetworkError`: a `TypeError` mentioning `fetch` gets the fixed
      network message; any other error keeps its own. */
  function HandleNetworkError(e: Thrown): (r: AppError)
    ensures e.ErrorThrown? ==> r.code == TextCode("NETWORK_ERROR")
    ensures e.ErrorThrown? ==>
              r.message == if e.kind == TypeError && Includes(e.message, "fetch") then NetworkErrorMessage else e.message
    ensures !e.ErrorThrown? ==> r == AppError(UnknownErrorMessage, TextCode("UNKNOWN"))
  {
    match e
    case ErrorThrown(kind, message) =>
      if kind == TypeError && Includes(message, "fetch") then AppError(NetworkErrorMessage, TextCode("NETWORK_ERROR"))
      else AppError(message, TextCode("NETWORK_ERROR"))
    case _ => AppError(UnknownErrorMessage, TextCode("UNKNOWN"))
  }

  const RetryableCodes: seq<Code> := [NumCode(429), NumCode(500), NumCode(502), NumCode(503), NumCode(504), TextCode("NETWORK_ERROR")]

  /** `isRetryableError`: the code is one of the listed ones (compared with
      `includes`, so the number 429 and the string "429" differ). */
  function IsRetryable(err: AppError): (b: bool)
    ensures b <==> err.code in {NumCode(429), NumCode(500), NumCode(502), NumCode(503), NumCode(504)}
                   || err.code == TextCode("NETWORK_ERROR")
  {
    err.code != NoCode && err.code in RetryableCodes
  }

  /** What `withRetry` asks of a thrown value before trying again. */
  predicate Retryable(e: Thrown) {
    IsRetryable(HandleGitHubApiError(e))
  }

  /** Through the API classifier only throttling and server responses are
      retried: a thrown `Error` or a non-response value never is. */
  lemma RetryableThroughApi(e: Thrown)
    ensures Retryable(e) <==> e.ResponseThrown? && e.status in {429, 500, 502, 503, 504}
  {
  }

  // Validators

  const AtLeastOneFile := "At least one file is required"
  const EmptyFilename := "Filename cannot be empty"

  function EmptyFileMessage(filename: string): string {
    "File \"" + filename + "\" cannot be empty"
  }

  /** A `[filename, file]` entry with a non-blank name and content. */
  predicate Filled(entry: (string, string)) {
    !IsBlank(entry.0) && !IsBlank(entry.1)
  }

  /** The errors one `[filename, file]` entry contributes, in order. */
  function EntryErrors(entry: (string, string)): seq<string> {
    (if IsBlank(entry.0) then [EmptyFilename] else []) + (if IsBlank(entry.1) then [EmptyFileMessage(entry.0)] else [])
  }

  /** An entry is reported on exactly when its name or its content is blank. */
  lemma EntryErrorsEmptyIff(entry: (string, string))
    ensures EntryErrors(entry) == [] <==> Filled(entry)
  {
  }

  /** The entry errors of `entries`, in entry order. */
  function FileErrors(entries: seq<(string, string)>): seq<string> {
    if entries == [] then []
    else FileErrors(entries[..|entries| - 1]) + EntryErrors(entries[|entries| - 1])
  }

  predicate AllFilled(entries: seq<(string, string)>) {
    forall i :: 0 <= i < |entries| ==> Filled(entries[i])
  }

  lemma {:induction false} FileErrorsEmptyIff(entries: seq<(string, string)>)
    ensures FileErrors(entries) == [] <==> AllFilled(entries)
  {
    if entries != [] {
      var init, last := entries[..|entries| - 1], entries[|entries| - 1];
      FileErrorsEmptyIff(init);
      EntryErrorsEmptyIff(last);
      assert FileErrors(entries) == FileErrors(init) + EntryErrors(last);
      if AllFilled(entries) {
        forall i | 0 <= i < |init| ensures Filled(init[i]) {
          assert init[i] == entries[i];
        }
        assert Filled(entries[|entries| - 1]);
      }
      if AllFilled(init) && Filled(last) {
        forall i | 0 <= i < |entries| ensures Filled(entries[i]) {
          if i < |init| {
            assert entries[i] == init[i];
          }
        }
      }
    }
  }

  /** The two checks of the `forEach` body, pushing onto `errors`. */
  method PushEntryErrors(errors: seq<string>, entry: (string, string)) returns (errors': seq<string>)
    ensures errors' == errors + EntryErrors(entry)
  {
    var (filename, content) := entry;
    errors' := errors;
    if IsBlank(filename) {
      errors' := errors' + [EmptyFilename];
    }
    if IsBlank(content) {
      errors' := errors' + [EmptyFileMessage(filename)];
    }
  }

  /** The `forEach` over the entries, pushing onto `errors`. */
  method PushFileErrors(errors: seq<string>, entries: seq<(string, string)>) returns (errors': seq<string>)
    ensures errors' == errors + FileErrors(entries)
  {
    errors' := errors;
    for i := 0 to |entries|
      invariant errors' == errors + FileErrors(entries[..i])
    {
      assert FileErrors(entries[..i + 1]) == FileErrors(entries[..i]) + EntryErrors(entries[i]) by {
        assert entries[..i + 1][..i] == entries[..i];
      }
      errors' := PushEntryErrors(errors', entries[i]);
    }
    assert entries[..|entries|] == entries;
  }

  /** `validateGistData` over `files` given as its `Object.entries`: no
      files field is accepted, an empty one is not, and every entry is
      checked. */
  method ValidateGistData(files: Option<seq<(string, string)>>) returns (errors: seq<string>)
    ensures files.None? ==> errors == []
    ensures files.Some? ==> errors == (if files.value == [] then [AtLeastOneFile] else []) + FileErrors(files.value)
  {
    errors := [];
    if files.Some? {
      if |files.value| == 0 {
        errors := errors + [AtLeastOneFile];
      }
      errors := PushFileErrors(errors, files.value);
    }
  }

  /** The gist data passes exactly when there is no files field, or a
      non-empty one whose every name and content is non-blank. */
  lemma GistDataValidIff(files: Option<seq<(string, string)>>)
    ensures (files.Some? ==> (if files.value == [] then [AtLeastOneFile] else []) + FileErrors(files.value) == [])
            <==> files.None? || (files.value != [] && AllFilled(files.value))
  {
    if files.Some? {
      FileErrorsEmptyIff(files.value);
    }
  }

  const QueryEmpty := "Search query cannot be empty"
  const QueryTooShort := "Search query must be at least 2 characters long"
  const QueryTooLong := "Search query must not exceed 100 characters"

  /** The position of a search-query message in the fixed reporting order. */
  function QueryRank(m: string): nat {
    if m == QueryEmpty then 0 else if m == QueryTooShort then 1 else if m == QueryTooLong then 2 else 3
  }

  /** The errors `validateSearchQuery` pushes, in its order. */
  function SearchQueryErrors(query: string): seq<string> {
    (if IsBlank(query) then [QueryEmpty] else [])
    + (if Utf16Len(query) < 2 then [QueryTooShort] else [])
    + (if Utf16Len(query) > 100 then [QueryTooLong] else [])
  }

  /** `validateSearchQuery`. */
  method ValidateSearchQuery(query: string) returns (errors: seq<string>)
    ensures errors == SearchQueryErrors(query)
  {
    errors := [];
    if IsBlank(query) {
      errors := errors + [QueryEmpty];
    }
    if Utf16Len(query) < 2 {
      errors := errors + [QueryTooShort];
    }
    if Utf16Len(query) > 100 {
      errors := errors + [QueryTooLong];
    }
  }

  /** Blankness is judged on the trimmed query, the length limits on the
      raw one, measured as JavaScript does in UTF-16 code units. */
  lemma SearchQueryErrorsReport(query: string)
    ensures QueryEmpty in SearchQueryErrors(query) <==> IsBlank(query)
    ensures QueryTooShort in SearchQueryErrors(query) <==> Utf16Len(query) < 2
    ensures QueryTooLong in SearchQueryErrors(query) <==> Utf16Len(query) > 100
  {
    assert |QueryEmpty| == 28 && |QueryTooShort| == 47 && |QueryTooLong| == 43;
    var a := if IsBlank(query) then [QueryEmpty] else [];
    var b := if Utf16Len(query) < 2 then [QueryTooShort] else [];
    var c := if Utf16Len(query) > 100 then [QueryTooLong] else [];
    assert SearchQueryErrors(query) == a + b + c;
    assert forall m :: m in a + b + c <==> m in a || m in b || m in c;
  }

  /** The messages come in the fixed order and are only these three. */
  lemma SearchQueryErrorsOrdered(query: string)
    ensures var errors := SearchQueryErrors(query);
      (forall m :: m in errors ==> QueryRank(m) < 3)
      && forall i, j :: 0 <= i < j < |errors| ==> QueryRank(errors[i]) < QueryRank(errors[j])
  {
    assert |QueryEmpty| == 28 && |QueryTooShort| == 47 && |QueryTooLong| == 43;
  }

  /** A query passes exactly when it is non-blank and 2 to 100 characters long. */
  lemma SearchQueryValidIff(query: string)
    ensures SearchQueryErrors(query) == [] <==> !IsBlank(query) && 2 <= Utf16Len(query) <= 100
  {
  }

  /** One character outside the Basic Multilingual Plane is two code units,
      so as a query on its own it is long enough. */
  lemma AstralCharQueryPasses(c: char)
    requires c as int > 0xFFFF
    ensures SearchQueryErrors([c]) == []
  {
    assert Utf16Len([c]) == Utf16Len([]) + 2;
  }

  /** One character inside the plane is too short. */
  lemma BmpCharQueryTooShort(c: char)
    requires c as int <= 0xFFFF && !IsWhitespace(c)
    ensures SearchQueryErrors([c]) == [QueryTooShort]
  {
    assert Utf16Len([c]) == Utf16Len([]) + 1;
  }

  const PageTooSmall := "Page number must be at least 1"
  const PerPageOutOfRange := "Items per page must be between 1 and 100"

  /** `validatePagination`. */
  method ValidatePagination(page: int, perPage: int) returns (errors: seq<string>)
    ensures PageTooSmall in errors <==> page < 1
    ensures PerPageOutOfRange in errors <==> perPage < 1 || perPage > 100
    ensures |errors| <= 2 && (|errors| == 2 ==> errors == [PageTooSmall, PerPageOutOfRange])
    ensures errors == [] <==> page >= 1 && 1 <= perPage <= 100
  {
    errors := [];
    if page < 1 {
      errors := errors + [PageTooSmall];
    }
    if perPage < 1 || perPage > 100 {
      errors := errors + [PerPageOutOfRange];
    }
  }

  // Retry

  /** What one call of the operation did. */
  datatype Outcome<T> = Succeeded(value: T) | Threw(error: Thrown)

  /** How `withRetry` ended, and how many times it called the operation. */
  datatype RetryResult<T> = Returned(value: T, calls: nat) | Rethrown(error: Thrown, calls: nat)

  /** The initial `lastError`. */
  const UnknownError := ErrorThrown(PlainError, "Unknown error")

  function Truthy(e: Thrown): bool {
    !e.OtherThrown? || e.truthy
  }

  /** `throw lastError` when it is truthy, else the fixed fallback error. */
  function Rethrow(e: Thrown): Thrown {
    if Truthy(e) then e else ErrorThrown(PlainError, "Operation failed after retries")
  }

  /** The loop from `attempt` on, with `last` the error seen so far; `op(k)` is
      what the k-th call (from 0) does and `retryable` the test a thrown value
      must pass to be tried again. */
  function RetryFrom<T>(op: nat -> Outcome<T>, retryable: Thrown -> bool, maxRetries: int, attempt: nat, last: Thrown): (r: RetryResult<T>)
    ensures attempt > maxRetries ==> r == Rethrown(Rethrow(last), attempt)
    ensures attempt <= maxRetries ==> attempt < r.calls <= maxRetries + 1
    ensures r.Returned? ==> op(r.calls - 1) == Succeeded(r.value)
    decreases if maxRetries < attempt then 0 else maxRetries - attempt + 1
  {
    if attempt > maxRetries then Rethrown(Rethrow(last), attempt)
    else match op(attempt)
      case Succeeded(v) => Returned(v, attempt + 1)
      case Threw(e) =>
        if attempt == maxRetries || !retryable(e) then Rethrown(Rethrow(e), attempt + 1)
        else RetryFrom(op, retryable, maxRetries, attempt + 1, e)
  }

  /** `withRetry`'s loop, retrying what the API classifier calls retryable. */
  function Retry<T>(op: nat -> Outcome<T>, maxRetries: int): (r: RetryResult<T>)
    ensures maxRetries < 0 ==> r == Rethrown(UnknownError, 0)
    ensures maxRetries >= 0 ==> 1 <= r.calls <= maxRetries + 1
    ensures r.Returned? ==> op(r.calls - 1) == Succeeded(r.value)
  {
    RetryFrom(op, Retryable, maxRetries, 0, UnknownError)
  }

  /** `withRetry`, with the back-off delays left out. */
  method WithRetry<T>(op: nat -> Outcome<T>, maxRetries: int) returns (r: RetryResult<T>)
    ensures r == Retry(op, maxRetries)
  {
    var lastError := UnknownError;
    var calls := 0;
    var attempt: nat := 0;
    while attempt <= maxRetries
      invariant calls == attempt
      invariant RetryFrom(op, Retryable, maxRetries, attempt, lastError) == Retry(op, maxRetries)
      decreases maxRetries - attempt + 1
    {
      match op(attempt)
      case Succeeded(v) =>
        return Returned(v, attempt + 1);
      case Threw(e) =>
        lastError := e;
        calls := attempt + 1;
        if attempt == maxRetries {
          break;
        }
        var appError := HandleGitHubApiError(e);
        if !IsRetryable(appError) {
          break;
        }
      attempt := attempt + 1;
    }
    r := Rethrown(Rethrow(lastError), calls);
  }

  /** The calls from `from` up to `k` all threw retryable errors. */
  predicate RetriedUpTo<T>(op: nat -> Outcome<T>, retryable: Thrown -> bool, from: nat, k: nat) {
    forall j: nat :: from <= j < k ==> op(j).Threw? && retryable(op(j).error)
  }

  lemma {:induction false} RetryFromFacts<T>(op: nat -> Outcome<T>, retryable: Thrown -> bool, maxRetries: int, attempt: nat, last: Thrown)
    requires attempt <= maxRetries
    ensures var r := RetryFrom(op, retryable, maxRetries, attempt, last);
      attempt < r.calls <= maxRetries + 1
      && RetriedUpTo(op, retryable, attempt, r.calls - 1)
      && (r.Returned? ==> op(r.calls - 1) == Succeeded(r.value))
      && (r.Rethrown? ==> op(r.calls - 1).Threw? && r.error == Rethrow(op(r.calls - 1).error)
                          && (r.calls == maxRetries + 1 || !retryable(op(r.calls - 1).error)))
    decreases maxRetries - attempt
  {
    match op(attempt)
    case Succeeded(v) =>
      assert RetryFrom(op, retryable, maxRetries, attempt, last) == Returned(v, attempt + 1);
    case Threw(e) =>
      if attempt < maxRetries && retryable(e) {
        RetryFromFacts(op, retryable, maxRetries, attempt + 1, e);
        assert RetryFrom(op, retryable, maxRetries, attempt, last) == RetryFrom(op, retryable, maxRetries, attempt + 1, e);
      } else {
        assert RetryFrom(op, retryable, maxRetries, attempt, last) == Rethrown(Rethrow(e), attempt + 1);
      }
  }

  /** `withRetry` calls the operation between 1 and `maxRetries + 1` times;
      it returns the first success, and otherwise rethrows the error of the
      last call, which either was the final allowed call or was not
      retryable. With a negative `maxRetries` it never calls and throws the
      initial error. */
  lemma RetryContract<T>(op: nat -> Outcome<T>, maxRetries: int)
    ensures maxRetries < 0 ==> Retry(op, maxRetries) == Rethrown(UnknownError, 0)
    ensures maxRetries >= 0 ==>
      var r := Retry(op, maxRetries);
      1 <= r.calls <= maxRetries + 1
      && RetriedUpTo(op, Retryable, 0, r.calls - 1)
      && (r.Returned? ==> op(r.calls - 1) == Succeeded(r.value))
      && (r.Rethrown? ==> op(r.calls - 1).Threw? && r.error == Rethrow(op(r.calls - 1).error)
                          && (r.calls == maxRetries + 1 || !Retryable(op(r.calls - 1).error)))
  {
    if maxRetries >= 0 {
      RetryFromFacts(op, Retryable, maxRetries, 0, UnknownError);
    }
  }

  /** A thrown `Error` is classified as a client error, so it is never retried. */
  lemma ClientErrorNotRetried<T>(op: nat -> Outcome<T>, maxRetries: int, kind: ErrorKind, message: string)
    requires maxRetries >= 0 && op(0) == Threw(ErrorThrown(kind, message))
    ensures Retry(op, maxRetries) == Rethrown(ErrorThrown(kind, message), 1)
  {
  }
}
