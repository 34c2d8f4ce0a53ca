/** Mock data: the six fixed gist cards, their pagination, and the
    generator of further cards with cyclic languages and authors. The
    random draws are parameters. */
module MockData {
  import opened Wrappers
  import opened JsString
  import LanguageUtils

  /** A gist card; `codeSnippet` is `None` where the text is not
      reproduced (the six fixed cards). */
  datatype GistCardData = GistCardData(
    id: string,
    authorName: string,
    gistName: string,
    description: string,
    createdAt: string,
    language: string,
    avatarUrl: string,
    gistUrl: string,
    codeSnippet: Option<string>)

  /** `mockGistCards`, without the code snippets' text. */
  const MockGistCards: seq<GistCardData> := [
    GistCardData("1", "John Doe", "package.json", "Node.js package configuration with modern dependencies", "Created 7 hours ago", "json",
      "https://avatars.githubusercontent.com/u/1?v=4", "https://gist.github.com/johndoe/1", None),
    GistCardData("2", "Jane Smith", "utils.ts", "TypeScript utility functions for common operations", "Created 2 days ago", "typescript",
      "https://avatars.githubusercontent.com/u/2?v=4", "https://gist.github.com/janesmith/2", None),
    GistCardData("3", "Alex Chen", "api-helpers.js", "JavaScript API helper functions with error handling", "Created 1 week ago", "javascript",
      "https://avatars.githubusercontent.com/u/3?v=4", "https://gist.github.com/alexchen/3", None),
    GistCardData("4", "Maria Rodriguez", "styles.css", "Modern CSS utility classes and component styles", "Created 3 days ago", "css",
      "https://avatars.githubusercontent.com/u/4?v=4", "https://gist.github.com/mariarodriguez/4", None),
    GistCardData("5", "David Kim", "README.md", "Comprehensive project documentation template", "Created 5 days ago", "markdown",
      "https://avatars.githubusercontent.com/u/5?v=4", "https://gist.github.com/davidkim/5", None),
    GistCardData("6", "Sarah Wilson", "config.py", "Python configuration management with environment variables", "Created 1 week ago", "python",
      "https://avatars.githubusercontent.com/u/6?v=4", "https://gist.github.com/sarahwilson/6", None)]


  lemma MockCardIds()
    ensures |MockGistCards| == 6
    ensures forall k :: 0 <= k < 6 ==> MockGistCards[k].id == IntToString(k + 1)
  {
    assert IntToString(1) == "1" && IntToString(2) == "2" && IntToString(3) == "3";
    assert IntToString(4) == "4" && IntToString(5) == "5" && IntToString(6) == "6";
  }

  // getMockGistsPaginated

  /** The index `slice` uses for a start or end argument: negative ones
      count from the end, and both are clamped into the list. */
  function SliceIndex(x: int, len: nat): (r: nat)
    ensures r <= len
    ensures 0 <= x ==> r == if x < len then x else len
    ensures x < 0 ==> r == if len + x < 0 then 0 else len + x
  {
    if x < 0 then (if len + x < 0 then 0 else len + x) else if x > len then len else x
  }

  /** `xs.slice(start, end)`. */
  function Slice<T>(xs: seq<T>, start: int, end: int): seq<T> {
    var s, e := SliceIndex(start, |xs|), SliceIndex(end, |xs|);
    if s < e then xs[s..e] else []
  }

  /** `Math.ceil(a / b)` for a non-zero divisor. */
  function CeilDiv(a: int, b: int): (r: int)
    requires b != 0
    ensures b > 0 ==> (r - 1) * b < a <= r * b
  {
    if b > 0 then -((-a) / b) else -(a / (-b))
  }

  /** The paginated result. `totalPages` is `None` for a page size of zero,
      where `Math.ceil(6 / 0)` is `Infinity`. */
  datatype MockPage = MockPage(gists: seq<GistCardData>, total: int, page: int, pageSize: int, totalPages: Option<int>)

  /** `getMockGistsPaginated(page, pageSize)`; the defaults 1 and 10 are
      supplied by the caller. */
  function GetMockGistsPaginated(page: int, pageSize: int): (r: MockPage)
    ensures r.total == 6 && r.page == page && r.pageSize == pageSize
    ensures r.gists == Slice(MockGistCards, (page - 1) * pageSize, (page - 1) * pageSize + pageSize)
    ensures pageSize != 0 ==> r.totalPages == Some(CeilDiv(6, pageSize))
    ensures pageSize == 0 ==> r.totalPages.None?
  {
    var startIndex := (page - 1) * pageSize;
    var endIndex := startIndex + pageSize;
    MockPage(Slice(MockGistCards, startIndex, endIndex), |MockGistCards|, page, pageSize,
             if pageSize == 0 then None else Some(CeilDiv(|MockGistCards|, pageSize)))
  }

  lemma MulMono(a: int, b: int, c: int)
    requires a <= b && c >= 0
    ensures a * c <= b * c
  {
  }

  /** No page holds more than `pageSize` cards, whatever the page number. */
  lemma PageSizeBound(page: int, pageSize: int)
    requires pageSize >= 0
    ensures |GetMockGistsPaginated(page, pageSize).gists| <= pageSize
  {
    var s := (page - 1) * pageSize;
    var e := s + pageSize;
    if page >= 1 {
      MulMono(0, page - 1, pageSize);
    } else {
      MulMono(page, 0, pageSize);
      assert e == page * pageSize;
    }
  }

  /** On positive page numbers and sizes the page is the run of cards it
      names, and it is non-empty exactly up to `totalPages`. */
  lemma PagesCoverCards(page: int, pageSize: int)
    requires page >= 1 && pageSize >= 1
    ensures var s := (page - 1) * pageSize;
      GetMockGistsPaginated(page, pageSize).gists ==
        (if s < 6 then MockGistCards[s..if s + pageSize < 6 then s + pageSize else 6] else [])
    ensures GetMockGistsPaginated(page, pageSize).gists != [] <==> page <= GetMockGistsPaginated(page, pageSize).totalPages.value
  {
    var s := (page - 1) * pageSize;
    var t := CeilDiv(6, pageSize);
    MulMono(0, page - 1, pageSize);
    if page <= t {
      MulMono(page - 1, t - 1, pageSize);
    } else {
      MulMono(t, page - 1, pageSize);
    }
  }

  // generateMockGists

  const Languages := ["javascript", "typescript", "python", "css", "html", "json", "markdown"]
  const Authors := ["Alice Johnson", "Bob Smith", "Carol Brown", "David Lee", "Eva Garcia"]
  const Extensions := ["js", "ts", "py", "css", "html", "json", "md"]

  /** The GitHub handles the gist URLs use, one per author. */
  const Handles := ["alicejohnson", "bobsmith", "carolbrown", "davidlee", "evagarcia"]

  /** Lower-casing a two-word name and dropping its first space joins the
      two lower-cased words. */
  lemma TwoWordHandle(first: string, last: string)
    requires forall i :: 0 <= i < |first| ==> first[i] != ' '
    ensures RemoveFirst(ToLower(first + " " + last), ' ') == ToLower(first) + ToLower(last)
  {
    var lf, ll := ToLower(first), ToLower(last);
    var whole := ToLower(first + " " + last);
    assert whole == lf + [' '] + ll by {
      forall i | 0 <= i < |whole| ensures whole[i] == (lf + [' '] + ll)[i] {
        if i < |first| {
          assert (first + " " + last)[i] == first[i];
        } else if i > |first| {
          assert (first + " " + last)[i] == last[i - |first| - 1];
        }
      }
    }
    assert ' ' !in lf by {
      forall i | 0 <= i < |lf| ensures lf[i] != ' ' {
        assert lf[i] == LowerChar(first[i]);
      }
    }
    RemoveFirstAfter(lf, ' ', ll);
  }

  /** Each author's first and last names. */
  const FirstNames := ["Alice", "Bob", "Carol", "David", "Eva"]
  const LastNames := ["Johnson", "Smith", "Brown", "Lee", "Garcia"]

  /** Each author is a space-free first name, a space and a last name. */
  lemma AuthorNames(k: nat)
    requires k < |Authors|
    ensures k < |FirstNames| && k < |LastNames|
    ensures Authors[k] == FirstNames[k] + " " + LastNames[k]
    ensures forall i :: 0 <= i < |FirstNames[k]| ==> FirstNames[k][i] != ' '
  {
    if k == 0 {
      assert Authors[0] == "Alice" + " " + "Johnson";
    } else if k == 1 {
      assert Authors[1] == "Bob" + " " + "Smith";
    } else if k == 2 {
      assert Authors[2] == "Carol" + " " + "Brown";
    } else if k == 3 {
      assert Authors[3] == "David" + " " + "Lee";
    } else {
      assert Authors[4] == "Eva" + " " + "Garcia";
    }
  }

  /** Each handle joins an author's lower-cased first and last names. */
  lemma HandleNames(k: nat)
    requires k < |Handles|
    ensures k < |FirstNames| && k < |LastNames|
    ensures Handles[k] == ToLower(FirstNames[k]) + ToLower(LastNames[k])
  {
    if k == 0 {
      assert ToLower("Alice") == "alice";
      assert ToLower("Johnson") == "johnson";
      assert Handles[0] == "alice" + "johnson";
    } else if k == 1 {
      assert ToLower("Bob") == "bob";
      assert ToLower("Smith") == "smith";
      assert Handles[1] == "bob" + "smith";
    } else if k == 2 {
      assert ToLower("Carol") == "carol";
      assert ToLower("Brown") == "brown";
      assert Handles[2] == "carol" + "brown";
    } else if k == 3 {
      assert ToLower("David") == "david";
      assert ToLower("Lee") == "lee";
      assert Handles[3] == "david" + "lee";
    } else {
      assert ToLower("Eva") == "eva";
      assert ToLower("Garcia") == "garcia";
      assert Handles[4] == "eva" + "garcia";
    }
  }

  /** Each author's URL segment is their handle. */
  lemma AuthorHandle(k: nat)
    requires k < |Authors|
    ensures |Handles| == |Authors| && RemoveFirst(ToLower(Authors[k]), ' ') == Handles[k]
  {
    AuthorNames(k);
    HandleNames(k);
    TwoWordHandle(FirstNames[k], LastNames[k]);
  }

  /** The card generated at `index`; `days` is the random day count. */
  function GeneratedCard(index: nat, days: int): (c: GistCardData)
    ensures c.id == IntToString(7 + index)
    ensures c.language == Languages[index % 7] && c.authorName == Authors[index % 5]
    ensures c.gistUrl == "https://gist.github.com/" + Handles[index % 5] + "/" + c.id
  {
    assert |MockGistCards| == 6 && |Languages| == 7 && |Authors| == 5;
    AuthorHandle(index % 5);
    var baseId := |MockGistCards| + index + 1;
    var language := Languages[index % |Languages|];
    var author := Authors[index % |Authors|];
    var extension := Extensions[index % |Extensions|];
    var id := IntToString(baseId);
    GistCardData(
      id,
      author,
      "sample-file-" + id + "." + extension,
      "Sample " + language + " file for testing purposes",
      "Created " + IntToString(days) + " days ago",
      language,
      "https://avatars.githubusercontent.com/u/" + id + "?v=4",
      "https://gist.github.com/" + RemoveFirst(ToLower(author), ' ') + "/" + id,
      Some("// Sample " + language + " code\nconsole.log(\'Hello from " + author + "!\');"))
  }

  /** `generateMockGists(count)`; `drawDays(i)` stands for the value of
      `Math.floor(Math.random() * 30) + 1` drawn for card `i`. */
  function GenerateMockGists(count: int, drawDays: int -> int): (r: seq<GistCardData>)
    ensures |r| == if count < 0 then 0 else count
    ensures forall i :: 0 <= i < |r| ==>
      r[i].id == IntToString(7 + i)
      && r[i].language == Languages[i % 7]
      && r[i].authorName == Authors[i % 5]
  {
    var n := if count < 0 then 0 else count;
    var r := seq(n, i requires 0 <= i < n => GeneratedCard(i, drawDays(i)));
    assert forall i :: 0 <= i < n ==> r[i] == GeneratedCard(i, drawDays(i));
    r
  }

  /** Ids numbered upward from 7 are distinct from each other and from
      ids numbered upward from 1 that stop before 7. */
  lemma NumberedFromSevenFresh(ids: seq<string>, fixed: seq<string>)
    requires forall i :: 0 <= i < |ids| ==> ids[i] == IntToString(7 + i)
    requires |fixed| <= 6 && forall k :: 0 <= k < |fixed| ==> fixed[k] == IntToString(k + 1)
    ensures forall i, j :: 0 <= i < j < |ids| ==> ids[i] != ids[j]
    ensures forall i, k :: 0 <= i < |ids| && 0 <= k < |fixed| ==> ids[i] != fixed[k]
  {
    forall i, j | 0 <= i < j < |ids| ensures ids[i] != ids[j] {
      if ids[i] == ids[j] {
        IntToStringInjective(7 + i, 7 + j);
      }
    }
    forall i, k | 0 <= i < |ids| && 0 <= k < |fixed| ensures ids[i] != fixed[k] {
      if ids[i] == fixed[k] {
        IntToStringInjective(7 + i, k + 1);
      }
    }
  }

  /** Generated cards have distinct ids, none of them a fixed card's. */
  lemma GeneratedIdsFresh(count: int, drawDays: int -> int)
    ensures var r := GenerateMockGists(count, drawDays);
      (forall i, j :: 0 <= i < j < |r| ==> r[i].id != r[j].id)
      && forall i, k :: 0 <= i < |r| && 0 <= k < |MockGistCards| ==> r[i].id != MockGistCards[k].id
  {
    var r := GenerateMockGists(count, drawDays);
    var ids := seq(|r|, i requires 0 <= i < |r| => r[i].id);
    var fixed := seq(|MockGistCards|, k requires 0 <= k < |MockGistCards| => MockGistCards[k].id);
    MockCardIds();
    NumberedFromSevenFresh(ids, fixed);
    forall i, k | 0 <= i < |r| && 0 <= k < |MockGistCards| ensures r[i].id != MockGistCards[k].id {
      assert ids[i] == r[i].id && fixed[k] == MockGistCards[k].id;
    }
    forall i, j | 0 <= i < j < |r| ensures r[i].id != r[j].id {
      assert ids[i] == r[i].id && ids[j] == r[j].id;
    }
  }

  /** The generator's extension list and language list agree with the
      language table, position by position. */
  lemma ExtensionsNameLanguages(k: nat)
    requires k < 7
    ensures LanguageUtils.LanguageOrText(Extensions[k]) == Languages[k]
    ensures '.' !in Extensions[k] && ToLower(Extensions[k]) == Extensions[k]
  {
  }

  /** Each generated file's extension names the card's language. */
  lemma GeneratedExtensionMatchesLanguage(index: nat, days: int)
    ensures var c := GeneratedCard(index, days);
      LanguageUtils.GetLanguageFromFilename(c.gistName) == c.language
  {
    var c := GeneratedCard(index, days);
    var k := index % 7;
    var name := "sample-file-" + IntToString(|MockGistCards| + index + 1);
    assert |Extensions| == 7;
    assert c.gistName == name + "." + Extensions[k];
    ExtensionsNameLanguages(k);
    LanguageUtils.ExtensionOf(name, Extensions[k]);
  }
}
