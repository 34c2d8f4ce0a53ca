/** The header's search box: `handleSearch` routes the typed text to a
    by-id lookup, an authenticated keyword search, or a warning; merges the
    two keyword result lists; and reports the outcome to the page or
    navigates. `getUserInitials` derives the avatar letters. The lookup and
    search answers are parameters; antd's `message` calls are recorded as
    notices. */
module Header {
  import opened Wrappers
  import opened JsString
  import opened GistModel
  import GistId

  const MaxResults := 10
  const MinIdLength := 20

  const BlankWarning := "Please enter a Gist ID, URL, or search terms"
  const LoginWarning := "Please log in with GitHub to search gist names and content, or paste a gist URL/ID for direct access."
  const NotFoundOrPrivate := "Gist not found or is private. Please check the Gist ID."
  const SearchFailed := "Error searching. Please try again."
  const NoGistsFound := "No gists found. Try different search terms."

  /** `message.warning`, `message.success`, `message.error`. */
  datatype Notice = Warning(text: string) | Success(text: string) | Failure(text: string)

  /** Which lookup a search performs; `Rejected` performs none. */
  datatype Route = Rejected | ById(gistId: string) | ByKeyword(query: string)

  /** What `onSearchResult` receives. */
  datatype Report = Cleared | SingleGist(gist: Gist) | Multiple(results: seq<Gist>)

  datatype Effects = Effects(route: Route, notices: seq<Notice>, report: Option<Report>, navigateTo: Option<string>, clearInput: bool)

  function Min(a: int, b: int): int {
    if a <= b then a else b
  }

  /** The routing of `handleSearch` for the text in the box. */
  function RouteOf(searchValue: string, isAuthenticated: bool): (r: Route)
    ensures Trim(searchValue) == "" ==> r == Rejected
    ensures r.ById? ==> |r.gistId| >= MinIdLength && r.gistId != Trim(searchValue)
    ensures r.ByKeyword? ==> isAuthenticated && r.query == Trim(searchValue) && r.query != ""
    ensures !isAuthenticated ==> !r.ByKeyword?
  {
    var input := Trim(searchValue);
    if input == "" then Rejected
    else
      var gistId := GistId.ExtractGistId(input);
      if gistId != input && |gistId| >= MinIdLength then ById(gistId)
      else if isAuthenticated then ByKeyword(input)
      else Rejected
  }

  /** Blank text is rejected before any lookup. */
  lemma BlankRejected(searchValue: string, isAuthenticated: bool)
    requires IsBlank(searchValue)
    ensures RouteOf(searchValue, isAuthenticated) == Rejected
  {
  }

  /** A bare hex id never takes the by-id route: it is searched as a keyword
      when signed in and rejected otherwise. */
  lemma BareHexIsKeyword(searchValue: string, isAuthenticated: bool)
    requires Trim(searchValue) != "" && GistId.AllHex(Trim(searchValue))
    ensures RouteOf(searchValue, isAuthenticated) == if isAuthenticated then ByKeyword(Trim(searchValue)) else Rejected
  {
    TrimIdempotent(searchValue);
    GistId.BareHexUnchanged(Trim(searchValue));
  }

  /** A by-id lookup is always for a hex substring (of at least 20
      characters) of the trimmed text. */
  lemma ByIdIsHexInfix(searchValue: string, isAuthenticated: bool)
    requires RouteOf(searchValue, isAuthenticated).ById?
    ensures var id := RouteOf(searchValue, isAuthenticated).gistId;
      |id| >= MinIdLength && GistId.AllHex(id) && Includes(Trim(searchValue), id)
  {
    assert GistId.ExtractGistId(Trim(searchValue)) != Trim(searchValue);
  }

  /** A pasted gist page URL with a full-length id is looked up by that id,
      signed in or not. */
  lemma GistPageUrlRoutesById(user: string, id: string, isAuthenticated: bool)
    requires user != "" && '/' !in user
    requires |id| >= MinIdLength && GistId.AllHex(id)
    ensures RouteOf(GistId.GistPageScheme + GistId.HostLiteral + user + "/" + id, isAuthenticated) == ById(id)
  {
    var s := GistId.GistPageScheme + GistId.HostLiteral + user + "/" + id;
    TrimOfTrimmed(s);
    GistId.GistPageUrlYieldsId(user, id);
    assert s != id by { assert |s| > |id|; }
  }

  /** A pasted API URL with a full-length id is looked up by that id. */
  lemma ApiUrlRoutesById(id: string, isAuthenticated: bool)
    requires |id| >= MinIdLength && GistId.AllHex(id)
    ensures RouteOf(GistId.ApiUrlHead + id, isAuthenticated) == ById(id)
  {
    var s := GistId.ApiUrlHead + id;
    assert s[0] == 'h' && s[|s| - 1] == id[|id| - 1];
    TrimOfTrimmed(s);
    GistId.ApiUrlYieldsId(id);
    assert s != id by { assert |s| > |id|; }
  }

  /** A pasted `gists/<id>` path with a full-length id is looked up by that id. */
  lemma GistsPathRoutesById(id: string, isAuthenticated: bool)
    requires |id| >= MinIdLength && GistId.AllHex(id)
    ensures RouteOf(GistId.PathLiteral + id, isAuthenticated) == ById(id)
  {
    var s := GistId.PathLiteral + id;
    assert s[0] == 'g' && s[|s| - 1] == id[|id| - 1];
    TrimOfTrimmed(s);
    GistId.GistsPathYieldsId(id);
    assert s != id by { assert |s| > |id|; }
  }

  // ---- merging the keyword results ----

  /** `allResults` after the `forEach`: the name results, then each content
      result whose id is not yet present. */
  function Merge(names: seq<Gist>, contents: seq<Gist>): (r: seq<Gist>)
    ensures |names| <= |r| <= |names| + |contents|
    ensures forall k :: |names| <= k < |r| ==> r[k] in contents
  {
    if contents == [] then names
    else
      var m := Merge(names, contents[..|contents| - 1]);
      var g := contents[|contents| - 1];
      if HasId(m, g.id) then m else m + [g]
  }

  lemma {:induction false} MergeKeepsNames(names: seq<Gist>, contents: seq<Gist>)
    ensures |names| <= |Merge(names, contents)| && Merge(names, contents)[..|names|] == names
  {
    if contents != [] {
      MergeKeepsNames(names, contents[..|contents| - 1]);
    }
  }

  /** An id is in the merge iff it is in either list. */
  lemma {:induction false} MergeIds(names: seq<Gist>, contents: seq<Gist>, id: string)
    ensures HasId(Merge(names, contents), id) <==> HasId(names, id) || HasId(contents, id)
  {
    if contents != [] {
      var init := contents[..|contents| - 1];
      var g := contents[|contents| - 1];
      var m := Merge(names, init);
      MergeIds(names, init, id);
      MergeIds(names, init, g.id);
      assert HasId(contents, id) <==> HasId(init, id) || g.id == id by {
        if HasId(contents, id) && g.id != id {
          var k :| 0 <= k < |contents| && contents[k].id == id;
          assert init[k] == contents[k];
        }
        if HasId(init, id) {
          var k :| 0 <= k < |init| && init[k].id == id;
          assert contents[k] == init[k];
        }
      }
      if !HasId(m, g.id) {
        assert HasId(m + [g], id) <==> HasId(m, id) || g.id == id by {
          if HasId(m + [g], id) && g.id != id {
            var k :| 0 <= k < |m + [g]| && (m + [g])[k].id == id;
            assert (m + [g])[k] == m[k];
          }
          if HasId(m, id) {
            var k :| 0 <= k < |m| && m[k].id == id;
            assert (m + [g])[k] == m[k];
          }
          assert (m + [g])[|m|] == g;
        }
      }
    }
  }

  /** De-duplication: without repeated names, the merge repeats no id. */
  lemma {:induction false} MergeDistinct(names: seq<Gist>, contents: seq<Gist>)
    requires DistinctIds(names)
    ensures DistinctIds(Merge(names, contents))
  {
    if contents != [] {
      var init := contents[..|contents| - 1];
      var g := contents[|contents| - 1];
      var m := Merge(names, init);
      MergeDistinct(names, init);
      if !HasId(m, g.id) {
        forall i, j | 0 <= i < j < |m + [g]| ensures (m + [g])[i].id != (m + [g])[j].id {
          if j == |m| {
            assert (m + [g])[i] == m[i];
          } else {
            assert (m + [g])[i] == m[i] && (m + [g])[j] == m[j];
          }
        }
      }
    }
  }

  /** The `forEach` that pushes each content result not already present. */
  method MergeResults(names: seq<Gist>, contents: seq<Gist>) returns (allResults: seq<Gist>)
    ensures allResults == Merge(names, contents)
  {
    allResults := names;
    var i := 0;
    while i < |contents|
      invariant 0 <= i <= |contents|
      invariant allResults == Merge(names, contents[..i])
    {
      var contentGist := contents[i];
      assert contents[..i + 1][..i] == contents[..i];
      if !HasId(allResults, contentGist.id) {
        allResults := allResults + [contentGist];
      }
      i := i + 1;
    }
    assert contents[..|contents|] == contents;
  }

  /** What a failed sub-search contributes (`.catch(() => [])`). */
  function OrEmpty(r: Result<seq<Gist>>): seq<Gist> {
    match r
    case Ok(gs) => gs
    case Err(_) => []
  }

  /** The gists a search ends with, for the route taken. */
  function ResultsOf(route: Route, lookup: Result<Option<Gist>>, contents: Result<seq<Gist>>, names: Result<seq<Gist>>): (rs: seq<Gist>)
    ensures |rs| <= MaxResults
    ensures route.Rejected? ==> rs == []
    ensures route.ById? ==> (rs == [] <==> !(lookup.Ok? && lookup.value.Some?))
  {
    match route
    case Rejected => []
    case ById(_) => if lookup.Ok? && lookup.value.Some? then [lookup.value.value] else []
    case ByKeyword(_) =>
      var all := Merge(OrEmpty(names), OrEmpty(contents));
      all[..Min(MaxResults, |all|)]
  }

  /** The keyword results start with the name results (as many as fit), and
      a failed content search leaves just those. */
  lemma KeywordResults(query: string, lookup: Result<Option<Gist>>, contents: Result<seq<Gist>>, names: Result<seq<Gist>>)
    ensures var rs := ResultsOf(ByKeyword(query), lookup, contents, names);
      rs == Merge(OrEmpty(names), OrEmpty(contents))[..|rs|]
      && rs[..Min(|rs|, |OrEmpty(names)|)] == OrEmpty(names)[..Min(|rs|, |OrEmpty(names)|)]
    ensures contents.Err? ==> ResultsOf(ByKeyword(query), lookup, contents, names) == OrEmpty(names)[..Min(MaxResults, |OrEmpty(names)|)]
  {
    MergeKeepsNames(OrEmpty(names), OrEmpty(contents));
  }

  /** Keyword results never repeat an id when the name results do not. */
  lemma KeywordResultsDistinct(query: string, lookup: Result<Option<Gist>>, contents: Result<seq<Gist>>, names: Result<seq<Gist>>)
    requires DistinctIds(OrEmpty(names))
    ensures DistinctIds(ResultsOf(ByKeyword(query), lookup, contents, names))
  {
    MergeDistinct(OrEmpty(names), OrEmpty(contents));
  }

  /** `Found N gist(s)!`. */
  function FoundMessage(n: nat): string {
    "Found " + IntToString(n) + " gist" + (if n > 1 then "s" else "") + "!"
  }

  /** The failure notice of a by-id lookup that threw. */
  function LookupFailure(message: string): string {
    if Includes(message, "404") then NotFoundOrPrivate else SearchFailed
  }

  /** The notice of a by-id lookup that threw, if any. */
  function LookupNotices(route: Route, lookup: Result<Option<Gist>>): seq<Notice> {
    if route.ById? && lookup.Err? then [Failure(LookupFailure(lookup.message))] else []
  }

  /** Reporting the results of a search that was performed. */
  function Outcome(route: Route, notices: seq<Notice>, rs: seq<Gist>, hasHandler: bool): (e: Effects)
    ensures e.route == route && |e.notices| == |notices| + 1 && e.notices[..|notices|] == notices
    ensures e.notices[|notices|] == if |rs| > 0 then Success(FoundMessage(|rs|)) else Failure(NoGistsFound)
    ensures e.report.Some? <==> hasHandler
    ensures e.navigateTo.Some? <==> !hasHandler && |rs| > 0
    ensures e.navigateTo.Some? ==> e.navigateTo.value == "/gist/" + rs[0].id
    ensures e.clearInput <==> |rs| > 0
  {
    if |rs| > 0 then
      var report := if !hasHandler then None else if |rs| == 1 then Some(SingleGist(rs[0])) else Some(Multiple(rs));
      Effects(route, notices + [Success(FoundMessage(|rs|))], report, if hasHandler then None else Some("/gist/" + rs[0].id), true)
    else
      Effects(route, notices + [Failure(NoGistsFound)], if hasHandler then Some(Multiple([])) else None, None, false)
  }

  /** The effects of `handleSearch` with the given answers. */
  function SearchEffects(searchValue: string, isAuthenticated: bool, hasHandler: bool,
                         lookup: Result<Option<Gist>>, contents: Result<seq<Gist>>, names: Result<seq<Gist>>): Effects
  {
    var route := RouteOf(searchValue, isAuthenticated);
    if route.Rejected? then
      Effects(route, [Warning(if IsBlank(searchValue) then BlankWarning else LoginWarning)], None, None, false)
    else
      Outcome(route, LookupNotices(route, lookup), ResultsOf(route, lookup, contents, names), hasHandler)
  }

  /** A rejected search only warns: no report, no navigation, the text kept. */
  lemma RejectedOnlyWarns(searchValue: string, isAuthenticated: bool, hasHandler: bool,
                          lookup: Result<Option<Gist>>, contents: Result<seq<Gist>>, names: Result<seq<Gist>>)
    requires RouteOf(searchValue, isAuthenticated).Rejected?
    ensures var e := SearchEffects(searchValue, isAuthenticated, hasHandler, lookup, contents, names);
      |e.notices| == 1 && e.notices[0].Warning? && e.report.None? && e.navigateTo.None? && !e.clearInput
    ensures !IsBlank(searchValue) ==> !isAuthenticated
  {
  }

  /** The outcome shape: one result is reported alone, several or none as a
      list; without a handler the first result is opened. */
  lemma OutcomeShape(searchValue: string, isAuthenticated: bool, hasHandler: bool,
                     lookup: Result<Option<Gist>>, contents: Result<seq<Gist>>, names: Result<seq<Gist>>)
    requires !RouteOf(searchValue, isAuthenticated).Rejected?
    ensures var e := SearchEffects(searchValue, isAuthenticated, hasHandler, lookup, contents, names);
      var rs := ResultsOf(e.route, lookup, contents, names);
      (hasHandler && |rs| == 1 ==> e.report == Some(SingleGist(rs[0])))
      && (hasHandler && |rs| != 1 ==> e.report == Some(Multiple(rs)))
      && (!hasHandler ==> e.report.None? && (e.navigateTo.Some? <==> |rs| > 0))
      && (e.clearInput <==> |rs| > 0)
  {
    var route := RouteOf(searchValue, isAuthenticated);
    var rs := ResultsOf(route, lookup, contents, names);
    assert SearchEffects(searchValue, isAuthenticated, hasHandler, lookup, contents, names)
        == Outcome(route, LookupNotices(route, lookup), rs, hasHandler);
  }

  /** The search box's state: the text typed in it. */
  class SearchBox {
    var searchValue: string

    constructor ()
      ensures searchValue == ""
    {
      searchValue := "";
    }

    /** `handleSearchInputChange`: store the text; a blank text tells the
        page to clear its results. */
    method InputChange(value: string, hasHandler: bool) returns (report: Option<Report>)
      modifies this
      ensures searchValue == value
      ensures report == if hasHandler && IsBlank(value) then Some(Cleared) else None
    {
      searchValue := value;
      report := None;
      if IsBlank(value) && hasHandler {
        report := Some(Cleared);
      }
    }

    /** `handleSearch`: route, look up, merge, report; a search with results
        empties the box. */
    method Search(isAuthenticated: bool, hasHandler: bool,
                  lookup: Result<Option<Gist>>, contents: Result<seq<Gist>>, names: Result<seq<Gist>>)
      returns (e: Effects)
      modifies this
      ensures e == SearchEffects(old(searchValue), isAuthenticated, hasHandler, lookup, contents, names)
      ensures searchValue == if e.clearInput then "" else old(searchValue)
    {
      var route := Classify(searchValue, isAuthenticated);
      if route.Rejected? {
        var warning := if IsBlank(searchValue) then BlankWarning else LoginWarning;
        return Effects(Rejected, [Warning(warning)], None, None, false);
      }
      var results, notices := Gather(route, lookup, contents, names);
      e := Announce(route, notices, results, hasHandler);
      if e.clearInput {
        searchValue := "";
      }
    }
  }

  /** The routing part of `handleSearch`. */
  method Classify(searchValue: string, isAuthenticated: bool) returns (route: Route)
    ensures route == RouteOf(searchValue, isAuthenticated)
  {
    if IsBlank(searchValue) {
      return Rejected;
    }
    var input := Trim(searchValue);
    var gistId := GistId.Extract(input);
    if gistId != input && |gistId| >= MinIdLength {
      route := ById(gistId);
    } else if isAuthenticated {
      route := ByKeyword(input);
    } else {
      route := Rejected;
    }
  }

  /** The lookups of a routed search: the by-id answer, or the two keyword
      lists merged and cut to ten. */
  method Gather(route: Route, lookup: Result<Option<Gist>>, contents: Result<seq<Gist>>, names: Result<seq<Gist>>)
    returns (results: seq<Gist>, notices: seq<Notice>)
    requires !route.Rejected?
    ensures results == ResultsOf(route, lookup, contents, names)
    ensures notices == LookupNotices(route, lookup)
  {
    results := [];
    notices := [];
    if route.ById? {
      match lookup
      case Ok(found) =>
        if found.Some? {
          results := [found.value];
        }
      case Err(m) =>
        notices := notices + [Failure(LookupFailure(m))];
    } else {
      var allResults := MergeResults(OrEmpty(names), OrEmpty(contents));
      results := allResults[..Min(MaxResults, |allResults|)];
    }
  }

  /** The reporting part of `handleSearch`. */
  method Announce(route: Route, notices0: seq<Notice>, results: seq<Gist>, hasHandler: bool) returns (e: Effects)
    ensures e == Outcome(route, notices0, results, hasHandler)
  {
    var notices := notices0;
    var report: Option<Report> := None;
    var navigateTo: Option<string> := None;
    if |results| > 0 {
      notices := notices + [Success(FoundMessage(|results|))];
      if hasHandler {
        if |results| == 1 {
          report := Some(SingleGist(results[0]));
        } else {
          report := Some(Multiple(results));
        }
      } else {
        navigateTo := Some("/gist/" + results[0].id);
      }
      e := Effects(route, notices, report, navigateTo, true);
    } else {
      if hasHandler {
        report := Some(Multiple([]));
      }
      notices := notices + [Failure(NoGistsFound)];
      e := Effects(route, notices, report, navigateTo, false);
    }
  }

  // ---- avatar initials ----

  /** `words.map(n => n[0]).join('')`: an empty word contributes nothing. */
  function FirstLetters(words: seq<string>): (r: string)
    ensures |r| <= |words|
  {
    if words == [] then ""
    else (if words[0] == "" then "" else [words[0][0]]) + FirstLetters(words[1..])
  }

  /** `getUserInitials(name)`. */
  function UserInitials(name: Option<string>): (r: string)
    ensures |r| <= 2
    ensures name.None? || name.value == "" ==> r == "U"
  {
    if name.None? || name.value == "" then "U"
    else
      var letters := ToUpper(FirstLetters(Split(name.value, ' ')));
      letters[..Min(2, |letters|)]
  }

  /** `First Last` gives the two capitalised first letters. */
  lemma TwoWordInitials(first: string, last: string)
    requires first != "" && last != "" && ' ' !in first && ' ' !in last
    ensures UserInitials(Some(first + " " + last)) == [UpperChar(first[0]), UpperChar(last[0])]
  {
    SplitAt(first, last, ' ');
    SplitNoSep(last, ' ');
    assert first + " " + last == first + [' '] + last;
    assert Split(first + " " + last, ' ') == [first, last];
    assert FirstLetters([first, last]) == [first[0], last[0]];
  }

  /** A single word gives its capitalised first letter. */
  lemma OneWordInitial(word: string)
    requires word != "" && ' ' !in word
    ensures UserInitials(Some(word)) == [UpperChar(word[0])]
  {
    SplitNoSep(word, ' ');
    assert FirstLetters([word]) == [word[0]];
  }

  /** A name made only of spaces passes the `!name` test yet yields no letters. */
  lemma SpacesGiveNoInitials(name: string)
    requires name != "" && forall i :: 0 <= i < |name| ==> name[i] == ' '
    ensures UserInitials(Some(name)) == ""
  {
    SpacesSplit(name);
  }

  lemma {:induction false} SpacesSplit(name: string)
    requires forall i :: 0 <= i < |name| ==> name[i] == ' '
    ensures FirstLetters(Split(name, ' ')) == ""
  {
    if name != [] {
      SpacesSplit(name[1..]);
      assert Split(name, ' ') == [""] + Split(name[1..], ' ');
      assert ([""] + Split(name[1..], ' '))[1..] == Split(name[1..], ' ');
    }
  }
}
