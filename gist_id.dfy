/** `extractGistId` of the header search box: a trimmed input that is all
    hexadecimal is taken as the id; otherwise four case-insensitive patterns
    are tried in order and the first capture wins; failing all, the trimmed
    input is returned. The regular expressions are written out as scanners
    with the leftmost-match semantics a JavaScript `match` has. */
module GistId {
  import opened Wrappers
  import opened JsString

  /** `[a-f0-9]` under the `i` flag. */
  predicate IsHexChar(c: char) {
    ('0' <= c <= '9') || ('a' <= c <= 'f') || ('A' <= c <= 'F')
  }

  predicate AllHex(s: string) {
    forall i :: 0 <= i < |s| ==> IsHexChar(s[i])
  }

  /** A lower-case ASCII literal occurs at `i`, ignoring the case of `s`
      (the `i` flag folds only ASCII letters onto the literal's letters). */
  predicate LiteralAt(s: string, lit: string, i: nat) {
    i + |lit| <= |s| && forall k :: 0 <= k < |lit| ==> LowerChar(s[i + k]) == lit[k]
  }

  /** The length of the longest run of hex digits starting at `i` (greedy `[a-f0-9]+`). */
  function HexRun(s: string, i: nat): (n: nat)
    requires i <= |s|
    ensures i + n <= |s|
    ensures forall k :: i <= k < i + n ==> IsHexChar(s[k])
    ensures i + n < |s| ==> !IsHexChar(s[i + n])
    decreases |s| - i
  {
    if i < |s| && IsHexChar(s[i]) then 1 + HexRun(s, i + 1) else 0
  }

  /** The length of the longest run without '/' starting at `i` (`[^/]+`). */
  function NonSlashRun(s: string, i: nat): (n: nat)
    requires i <= |s|
    ensures i + n <= |s|
    ensures forall k :: i <= k < i + n ==> s[k] != '/'
    ensures i + n < |s| ==> s[i + n] == '/'
    decreases |s| - i
  {
    if i < |s| && s[i] != '/' then 1 + NonSlashRun(s, i + 1) else 0
  }

  /** The four patterns, in the order they are tried:
      `gist.github.com/<user>/<hex>`, `api.github.com/gists/<hex>`,
      `gists/<hex>`, and a hex run of at least 20 characters. */
  datatype Pattern = HostUrl | ApiUrl | GistsPath | LongHex

  const Patterns := [HostUrl, ApiUrl, GistsPath, LongHex]
  const HostLiteral := "gist.github.com/"
  const ApiLiteral := "api.github.com/gists/"
  const PathLiteral := "gists/"
  const MinLongHex := 20

  /** Where a capture lies in the searched string. */
  datatype Span = Span(start: nat, len: nat)

  predicate IsHexSpan(s: string, sp: Span) {
    sp.len >= 1 && sp.start + sp.len <= |s| && forall k :: sp.start <= k < sp.start + sp.len ==> IsHexChar(s[k])
  }

  /** The capture group of `p` for a match that begins at `i`, if any.
      Since `[^/]+` must be followed by '/', only its longest run can
      succeed; the hex group is greedy. */
  function MatchAt(s: string, p: Pattern, i: nat): (m: Option<Span>)
    ensures m.Some? ==> IsHexSpan(s, m.value) && m.value.start >= i
  {
    if i > |s| then None
    else match p
      case HostUrl =>
        if !LiteralAt(s, HostLiteral, i) then None
        else
          var q := i + |HostLiteral|;
          var n := NonSlashRun(s, q);
          if n >= 1 && q + n < |s| && HexRun(s, q + n + 1) >= 1 then Some(Span(q + n + 1, HexRun(s, q + n + 1))) else None
      case ApiUrl =>
        if LiteralAt(s, ApiLiteral, i) && HexRun(s, i + |ApiLiteral|) >= 1 then Some(Span(i + |ApiLiteral|, HexRun(s, i + |ApiLiteral|))) else None
      case GistsPath =>
        if LiteralAt(s, PathLiteral, i) && HexRun(s, i + |PathLiteral|) >= 1 then Some(Span(i + |PathLiteral|, HexRun(s, i + |PathLiteral|))) else None
      case LongHex =>
        if HexRun(s, i) >= MinLongHex then Some(Span(i, HexRun(s, i))) else None
  }

  /** The first position in `i..n` where `f` reports a match, trying them in
      order as a regular-expression search does. */
  function FirstFrom(f: nat -> Option<Span>, i: nat, n: nat): (pos: Option<nat>)
    ensures pos.Some? ==> i <= pos.value <= n && f(pos.value).Some?
    ensures pos.Some? ==> forall k :: i <= k < pos.value ==> f(k).None?
    ensures pos.None? ==> forall k :: i <= k <= n ==> f(k).None?
    decreases n - i
  {
    if i > n then None
    else if f(i).Some? then Some(i)
    else FirstFrom(f, i + 1, n)
  }

  /** With no match before `j` and one at `j`, the search from `i` stops at `j`. */
  lemma {:induction false} FirstFromReaches(f: nat -> Option<Span>, i: nat, j: nat, n: nat)
    requires i <= j <= n
    requires forall k :: i <= k < j ==> f(k).None?
    requires f(j).Some?
    ensures FirstFrom(f, i, n) == Some(j)
    decreases j - i
  {
    if i < j {
      FirstFromReaches(f, i + 1, j, n);
    }
  }

  /** The leftmost position where `p` matches in `s`. */
  function Leftmost(s: string, p: Pattern): Option<nat> {
    FirstFrom(Matcher(s, p), 0, |s|)
  }

  function Matcher(s: string, p: Pattern): nat -> Option<Span> {
    (k: nat) => MatchAt(s, p, k)
  }

  /** `s.match(p)?.[1]`. */
  function Capture(s: string, p: Pattern): (c: Option<string>)
    ensures c.Some? ==> c.value != "" && AllHex(c.value) && Includes(s, c.value)
  {
    match Leftmost(s, p)
    case None => None
    case Some(pos) =>
      var sp := MatchAt(s, p, pos).value;
      assert OccursAt(s, s[sp.start..sp.start + sp.len], sp.start);
      Some(s[sp.start..sp.start + sp.len])
  }

  /** The captures of the four patterns, in the order they are tried. */
  function Captures(s: string): (cs: seq<Option<string>>)
    ensures |cs| == |Patterns| && forall k :: 0 <= k < |Patterns| ==> cs[k] == Capture(s, Patterns[k])
  {
    seq(|Patterns|, k requires 0 <= k < |Patterns| => Capture(s, Patterns[k]))
  }

  /** The first present entry of `cs` at or after `i`. */
  function FirstSome<T>(cs: seq<Option<T>>, i: nat): (c: Option<T>)
    requires i <= |cs|
    ensures c.Some? ==> exists k :: i <= k < |cs| && cs[k] == c && forall j :: i <= j < k ==> cs[j].None?
    ensures c.None? ==> forall k :: i <= k < |cs| ==> cs[k].None?
    decreases |cs| - i
  {
    if i == |cs| then None
    else if cs[i].Some? then cs[i]
    else FirstSome(cs, i + 1)
  }

  /** The specification of `extractGistId(input)`: the first capture wins.
      The result is a bare hex input itself, or else the trimmed input
      itself or a non-empty hex substring of it. */
  function ExtractGistId(input: string): (r: string)
    ensures r == Trim(input) || (r != "" && AllHex(r) && Includes(Trim(input), r))
  {
    var t := Trim(input);
    if t != "" && AllHex(t) then t
    else match FirstSome(Captures(t), 0)
      case Some(c) => c
      case None => t
  }

  /** `extractGistId` as the source runs it: the hex test, then a loop over
      the patterns that returns the first capture. */
  method Extract(input: string) returns (id: string)
    ensures id == ExtractGistId(input)
  {
    var trimmed := Trim(input);
    if trimmed != "" && AllHex(trimmed) {
      return trimmed;
    }
    ghost var cs := Captures(trimmed);
    var k := 0;
    while k < |Patterns|
      invariant 0 <= k <= |Patterns|
      invariant FirstSome(cs, 0) == FirstSome(cs, k)
    {
      var m := Capture(trimmed, Patterns[k]);
      assert m == cs[k];
      if m.Some? {
        return m.value;
      }
      k := k + 1;
    }
    id := trimmed;
  }

  /** A bare hex id (any case, surrounding whitespace ignored) comes back as it is. */
  lemma BareHexUnchanged(input: string)
    requires Trim(input) != "" && AllHex(Trim(input))
    ensures ExtractGistId(input) == Trim(input)
  {
  }

  lemma {:induction false} NonSlashRunOver(s: string, i: nat, n: nat)
    requires i + n < |s| && s[i + n] == '/'
    requires forall k :: i <= k < i + n ==> s[k] != '/'
    ensures NonSlashRun(s, i) == n
    decreases n
  {
    if n > 0 {
      NonSlashRunOver(s, i + 1, n - 1);
    }
  }

  lemma {:induction false} HexRunToEnd(s: string, i: nat)
    requires i <= |s|
    requires forall k :: i <= k < |s| ==> IsHexChar(s[k])
    ensures HexRun(s, i) == |s| - i
    decreases |s| - i
  {
    if i < |s| {
      HexRunToEnd(s, i + 1);
    }
  }

  const GistPageScheme := "https://"

  /** After any text, `gist.github.com/<user>/<id>` matches there with the id as capture. */
  lemma HostUrlMatch(s: string, pre: string, user: string, id: string)
    requires user != "" && '/' !in user
    requires id != "" && AllHex(id)
    requires s == pre + HostLiteral + user + "/" + id
    ensures MatchAt(s, HostUrl, |pre|) == Some(Span(|pre| + |HostLiteral| + |user| + 1, |id|))
  {
    HostLiteralIn(s, pre, user, id);
    UserRunIn(s, pre, user, id);
    IdRunIn(s, pre, user, id);
    HostUrlMatchAt(s, |pre|, |user|, |id|);
  }

  lemma HostLiteralIn(s: string, pre: string, user: string, id: string)
    requires s == pre + HostLiteral + user + "/" + id
    ensures LiteralAt(s, HostLiteral, |pre|)
  {
    forall k | 0 <= k < |HostLiteral| ensures LowerChar(s[|pre| + k]) == HostLiteral[k] {
      assert s[|pre| + k] == HostLiteral[k];
    }
  }

  lemma UserRunIn(s: string, pre: string, user: string, id: string)
    requires '/' !in user
    requires s == pre + HostLiteral + user + "/" + id
    ensures NonSlashRun(s, |pre| + |HostLiteral|) == |user|
  {
    NonSlashRunOver(s, |pre| + |HostLiteral|, |user|);
  }

  lemma IdRunIn(s: string, pre: string, user: string, id: string)
    requires AllHex(id)
    requires s == pre + HostLiteral + user + "/" + id
    ensures HexRun(s, |pre| + |HostLiteral| + |user| + 1) == |id|
  {
    var head := pre + HostLiteral + user + "/";
    assert s == head + id;
    HexRunAfter(head, id);
  }

  /** A hex tail is one hex run. */
  lemma HexRunAfter(head: string, id: string)
    requires AllHex(id)
    ensures HexRun(head + id, |head|) == |id|
  {
    var s := head + id;
    forall k | |head| <= k < |s| ensures IsHexChar(s[k]) {
      assert s[k] == id[k - |head|];
    }
    HexRunToEnd(s, |head|);
  }

  /** The host pattern at `at`: the literal, a run of `n` non-slashes, a
      slash, then `m` hex digits. */
  lemma HostUrlMatchAt(s: string, at: nat, n: nat, m: nat)
    requires LiteralAt(s, HostLiteral, at)
    requires NonSlashRun(s, at + |HostLiteral|) == n && n >= 1 && at + |HostLiteral| + n < |s|
    requires HexRun(s, at + |HostLiteral| + n + 1) == m && m >= 1
    ensures MatchAt(s, HostUrl, at) == Some(Span(at + |HostLiteral| + n + 1, m))
  {
  }

  /** Inside the scheme `https://` no host pattern can begin. */
  lemma NoHostMatchInScheme(s: string, k: nat)
    requires StartsWith(s, GistPageScheme) && k < |GistPageScheme|
    ensures MatchAt(s, HostUrl, k).None?
  {
    assert s[k] == GistPageScheme[k];
    assert LowerChar(s[k]) != HostLiteral[0];
  }

  /** A match at `j` with none before it is the leftmost one. */
  lemma LeftmostAt(s: string, p: Pattern, j: nat)
    requires j <= |s|
    requires forall k: nat :: k < j ==> MatchAt(s, p, k).None?
    requires MatchAt(s, p, j).Some?
    ensures Leftmost(s, p) == Some(j)
  {
    FirstFromReaches(Matcher(s, p), 0, j, |s|);
  }

  /** The capture is the span the leftmost match reports. */
  lemma CaptureOfMatch(s: string, p: Pattern, pos: nat, sp: Span)
    requires Leftmost(s, p) == Some(pos) && MatchAt(s, p, pos) == Some(sp)
    ensures sp.start + sp.len <= |s| && Capture(s, p) == Some(s[sp.start..sp.start + sp.len])
  {
  }

  lemma SuffixSlice(a: string, b: string)
    ensures (a + b)[|a|..|a| + |b|] == b
  {
  }

  /** A pattern captures `c` when it first matches at `at` with a span holding `c`. */
  lemma CaptureAt(s: string, p: Pattern, at: nat, sp: Span, c: string)
    requires at <= |s| && forall k: nat :: k < at ==> MatchAt(s, p, k).None?
    requires MatchAt(s, p, at) == Some(sp)
    requires sp.start + sp.len <= |s| && s[sp.start..sp.start + sp.len] == c
    ensures Capture(s, p) == Some(c)
  {
    LeftmostAt(s, p, at);
    CaptureOfMatch(s, p, at, sp);
  }

  lemma GistPageUrlCapture(user: string, id: string)
    requires user != "" && '/' !in user
    requires id != "" && AllHex(id)
    ensures Capture(GistPageScheme + HostLiteral + user + "/" + id, HostUrl) == Some(id)
  {
    var head := GistPageScheme + HostLiteral + user + "/";
    var s := head + id;
    var at := |GistPageScheme|;
    HostUrlMatch(s, GistPageScheme, user, id);
    assert StartsWith(s, GistPageScheme) by {
      assert s[..at] == GistPageScheme;
    }
    forall k: nat | k < at ensures MatchAt(s, HostUrl, k).None? {
      NoHostMatchInScheme(s, k);
    }
    SuffixSlice(head, id);
    CaptureAt(s, HostUrl, at, Span(|head|, |id|), id);
  }

  /** A gist page URL `https://gist.github.com/<user>/<id>` yields the id. */
  lemma GistPageUrlYieldsId(user: string, id: string)
    requires user != "" && '/' !in user
    requires id != "" && AllHex(id)
    ensures ExtractGistId(GistPageScheme + HostLiteral + user + "/" + id) == id
  {
    var s := GistPageScheme + HostLiteral + user + "/" + id;
    TrimOfTrimmed(s);
    assert !IsHexChar(s[0]);
    GistPageUrlCapture(user, id);
    assert Captures(s)[0] == Some(id);
  }

  /** A pattern that matches nowhere captures nothing. */
  lemma NoMatchNoCapture(s: string, p: Pattern)
    requires forall k: nat :: k <= |s| ==> MatchAt(s, p, k).None?
    ensures Capture(s, p) == None
  {
  }

  /** The text in front of the id in an API URL. */
  const ApiUrlHead := GistPageScheme + ApiLiteral

  /** In the API URL head the letter `g` occurs only at 12 and 23, the
      starts of `github` and `gists`. */
  lemma ApiUrlHeadLetters(k: nat)
    requires k < |ApiUrlHead| && k != 12 && k != 23
    ensures LowerChar(ApiUrlHead[k]) != HostLiteral[0]
  {
    assert ApiUrlHead == "https://api.github.com/gists/";
  }

  /** No gist page host occurs in `https://api.github.com/gists/<id>`. */
  lemma ApiUrlNoHostMatch(s: string, id: string, k: nat)
    requires AllHex(id) && s == ApiUrlHead + id
    ensures MatchAt(s, HostUrl, k).None?
  {
    if k + |HostLiteral| <= |s| {
      if k == 12 {
        assert s[k + 2] == ApiUrlHead[14] == 't';
        assert LowerChar(s[k + 2]) != HostLiteral[2];
      } else if k == 23 {
        assert s[k + 4] == ApiUrlHead[27] == 's';
        assert LowerChar(s[k + 4]) != HostLiteral[4];
      } else if k < |ApiUrlHead| {
        assert s[k] == ApiUrlHead[k];
        ApiUrlHeadLetters(k);
      } else {
        assert s[k] == id[k - |ApiUrlHead|];
        assert LowerChar(s[k]) != HostLiteral[0];
      }
    }
  }

  lemma ApiLiteralIn(s: string, id: string)
    requires s == ApiUrlHead + id
    ensures LiteralAt(s, ApiLiteral, |GistPageScheme|)
  {
    var at := |GistPageScheme|;
    assert s == GistPageScheme + ApiLiteral + id;
    forall j | 0 <= j < |ApiLiteral| ensures LowerChar(s[at + j]) == ApiLiteral[j] {
      assert s[at + j] == ApiLiteral[j];
    }
  }

  /** Inside the scheme `https://` no API pattern can begin. */
  lemma NoApiMatchInScheme(s: string, k: nat)
    requires StartsWith(s, GistPageScheme) && k < |GistPageScheme|
    ensures MatchAt(s, ApiUrl, k).None?
  {
    assert s[k] == GistPageScheme[k];
    assert LowerChar(s[k]) != ApiLiteral[0];
  }

  /** The API pattern matches first right after the scheme, capturing the id. */
  lemma ApiUrlCapture(id: string)
    requires id != "" && AllHex(id)
    ensures Capture(ApiUrlHead + id, ApiUrl) == Some(id)
  {
    var s := ApiUrlHead + id;
    var at := |GistPageScheme|;
    ApiLiteralIn(s, id);
    HexRunAfter(ApiUrlHead, id);
    assert MatchAt(s, ApiUrl, at) == Some(Span(|ApiUrlHead|, |id|));
    assert StartsWith(s, GistPageScheme) by {
      assert s[..at] == GistPageScheme;
    }
    forall k: nat | k < at ensures MatchAt(s, ApiUrl, k).None? {
      NoApiMatchInScheme(s, k);
    }
    SuffixSlice(ApiUrlHead, id);
    CaptureAt(s, ApiUrl, at, Span(|ApiUrlHead|, |id|), id);
  }

  lemma ApiUrlNoHostCapture(id: string)
    requires AllHex(id)
    ensures Capture(ApiUrlHead + id, HostUrl) == None
  {
    var s := ApiUrlHead + id;
    forall k: nat | k <= |s| ensures MatchAt(s, HostUrl, k).None? {
      ApiUrlNoHostMatch(s, id, k);
    }
    NoMatchNoCapture(s, HostUrl);
  }

  /** A text that starts with a non-blank head and ends in a hex id is its own trim. */
  lemma TrimmedHexTail(head: string, id: string)
    requires head != [] && !IsWhitespace(head[0]) && id != [] && AllHex(id)
    ensures Trim(head + id) == head + id
  {
    var s := head + id;
    assert s[0] == head[0] && s[|s| - 1] == id[|id| - 1];
    TrimOfTrimmed(s);
  }

  /** The second pattern's capture wins when the first captures nothing. */
  lemma ExtractOfSecondCapture(s: string, id: string)
    requires Trim(s) == s && s != [] && !IsHexChar(s[0])
    requires Capture(s, HostUrl).None? && Capture(s, ApiUrl) == Some(id)
    ensures ExtractGistId(s) == id
  {
    var cs := Captures(s);
    assert cs[0].None? && cs[1] == Some(id);
    assert FirstSome(cs, 0) == Some(id);
    assert !AllHex(s);
  }

  /** The third pattern's capture wins when the first two capture nothing. */
  lemma ExtractOfThirdCapture(s: string, id: string)
    requires Trim(s) == s && s != [] && !IsHexChar(s[0])
    requires Capture(s, HostUrl).None? && Capture(s, ApiUrl).None? && Capture(s, GistsPath) == Some(id)
    ensures ExtractGistId(s) == id
  {
    var cs := Captures(s);
    assert cs[0].None? && cs[1].None? && cs[2] == Some(id);
    assert FirstSome(cs, 2) == Some(id);
    assert FirstSome(cs, 0) == Some(id);
    assert !AllHex(s);
  }

  /** An API URL `https://api.github.com/gists/<id>` yields the id. */
  lemma ApiUrlYieldsId(id: string)
    requires id != "" && AllHex(id)
    ensures ExtractGistId(ApiUrlHead + id) == id
  {
    var s := ApiUrlHead + id;
    assert ApiUrlHead[0] == 'h';
    TrimmedHexTail(ApiUrlHead, id);
    assert s[0] == 'h';
    ApiUrlNoHostCapture(id);
    ApiUrlCapture(id);
    ExtractOfSecondCapture(s, id);
  }

  /** Neither URL pattern occurs in `gists/<id>`. */
  lemma GistsPathNoUrlMatch(s: string, id: string, k: nat)
    requires AllHex(id) && s == PathLiteral + id
    ensures MatchAt(s, HostUrl, k).None? && MatchAt(s, ApiUrl, k).None?
  {
    assert PathLiteral == "gists/";
    if k + |HostLiteral| <= |s| {
      if k == 0 {
        assert s[4] == 's';
        assert LowerChar(s[4]) != HostLiteral[4];
      } else if k < |PathLiteral| {
        assert s[k] == PathLiteral[k];
        assert LowerChar(s[k]) != HostLiteral[0];
      } else {
        assert s[k] == id[k - |PathLiteral|];
        assert LowerChar(s[k]) != HostLiteral[0];
      }
    }
    if k + |ApiLiteral| <= |s| {
      if k < |PathLiteral| {
        assert s[k] == PathLiteral[k];
        assert LowerChar(s[k]) != ApiLiteral[0];
      } else {
        assert s[k + 1] == id[k + 1 - |PathLiteral|];
        assert LowerChar(s[k + 1]) != ApiLiteral[1];
      }
    }
  }

  lemma GistsPathNoUrlCapture(id: string)
    requires AllHex(id)
    ensures Capture(PathLiteral + id, HostUrl) == None && Capture(PathLiteral + id, ApiUrl) == None
  {
    var s := PathLiteral + id;
    forall k: nat | k <= |s| ensures MatchAt(s, HostUrl, k).None? && MatchAt(s, ApiUrl, k).None? {
      GistsPathNoUrlMatch(s, id, k);
    }
    NoMatchNoCapture(s, HostUrl);
    NoMatchNoCapture(s, ApiUrl);
  }

  lemma GistsPathCapture(id: string)
    requires id != "" && AllHex(id)
    ensures Capture(PathLiteral + id, GistsPath) == Some(id)
  {
    var s := PathLiteral + id;
    forall j | 0 <= j < |PathLiteral| ensures LowerChar(s[j]) == PathLiteral[j] {
      assert s[j] == PathLiteral[j];
    }
    HexRunAfter(PathLiteral, id);
    assert MatchAt(s, GistsPath, 0) == Some(Span(|PathLiteral|, |id|));
    SuffixSlice(PathLiteral, id);
    CaptureAt(s, GistsPath, 0, Span(|PathLiteral|, |id|), id);
  }

  /** A path `gists/<id>` yields the id. */
  lemma GistsPathYieldsId(id: string)
    requires id != "" && AllHex(id)
    ensures ExtractGistId(PathLiteral + id) == id
  {
    var s := PathLiteral + id;
    assert PathLiteral[0] == 'g';
    TrimmedHexTail(PathLiteral, id);
    assert s[0] == 'g';
    GistsPathNoUrlCapture(id);
    GistsPathCapture(id);
    ExtractOfThirdCapture(s, id);
  }
}
