/** The form schemas for creating, updating and searching gists, read as
    the list of issues a schema reports (empty exactly when the form is
    valid), and the default values of the create and search forms. */
module GistForms {
  import opened Wrappers
  import opened JsString

  /** A schema issue: the field path as the form addresses it
      (`files.0.filename`) and its message. */
  datatype Issue = Issue(path: string, message: string)

  const DescriptionMax := 256
  const DescriptionRequired := "Description is required"
  const DescriptionTooLong := "Description too long"
  const FilenameRequired := "Filename is required"
  const ContentRequired := "Content is required"
  const AtLeastOneFile := "At least one file is required"
  const QueryRequired := "Search query is required"

  // createGistSchema

  datatype FormFile = FormFile(filename: string, content: string, language: Option<string>)

  datatype CreateGistFormData = CreateGistFormData(description: string, isPublic: bool, files: seq<FormFile>)

  predicate FileValid(f: FormFile) {
    |f.filename| >= 1 && |f.content| >= 1
  }

  /** What `createGistSchema` accepts. */
  predicate CreateValid(d: CreateGistFormData) {
    1 <= Utf16Len(d.description) <= DescriptionMax
    && |d.files| >= 1
    && forall i :: 0 <= i < |d.files| ==> FileValid(d.files[i])
  }

  /** The description, measured as zod does in UTF-16 code units: required,
      then at most 256 long. */
  function DescriptionIssues(description: string): (issues: seq<Issue>)
    ensures issues == [] <==> 1 <= Utf16Len(description) <= DescriptionMax
    ensures issues == [Issue("description", DescriptionRequired)] <==> description == []
    ensures Utf16Len(description) > DescriptionMax ==> issues == [Issue("description", DescriptionTooLong)]
  {
    if Utf16Len(description) < 1 then [Issue("description", DescriptionRequired)]
    else if Utf16Len(description) > DescriptionMax then [Issue("description", DescriptionTooLong)]
    else []
  }

  /** The issues of the file at `index`: filename first, then content. */
  function FileIssues(index: nat, f: FormFile): (issues: seq<Issue>)
    ensures issues == [] <==> FileValid(f)
    ensures f.filename == [] <==> Issue("files." + IntToString(index) + ".filename", FilenameRequired) in issues
    ensures f.content == [] <==> Issue("files." + IntToString(index) + ".content", ContentRequired) in issues
    ensures f.filename == [] && f.content == [] ==>
      issues == [Issue("files." + IntToString(index) + ".filename", FilenameRequired),
                 Issue("files." + IntToString(index) + ".content", ContentRequired)]
    ensures |issues| <= 2
  {
    var prefix := "files." + IntToString(index) + ".";
    assert FilenameRequired[0] != ContentRequired[0];
    assert prefix + "filename" == "files." + IntToString(index) + ".filename";
    assert prefix + "content" == "files." + IntToString(index) + ".content";
    (if |f.filename| < 1 then [Issue(prefix + "filename", FilenameRequired)] else [])
    + (if |f.content| < 1 then [Issue(prefix + "content", ContentRequired)] else [])
  }

  /** The issues of every file, in order. */
  function ElementIssues(files: seq<FormFile>): seq<Issue> {
    if files == [] then []
    else ElementIssues(files[..|files| - 1]) + FileIssues(|files| - 1, files[|files| - 1])
  }

  predicate AllFilesValid(files: seq<FormFile>) {
    forall i :: 0 <= i < |files| ==> FileValid(files[i])
  }

  lemma {:induction false} ElementIssuesEmptyIff(files: seq<FormFile>)
    ensures ElementIssues(files) == [] <==> AllFilesValid(files)
  {
    if files != [] {
      var init, last := files[..|files| - 1], files[|files| - 1];
      ElementIssuesEmptyIff(init);
      if AllFilesValid(files) {
        forall i | 0 <= i < |init| ensures FileValid(init[i]) {
          assert init[i] == files[i];
        }
        assert FileValid(last);
      }
      if AllFilesValid(init) && FileValid(last) {
        forall i | 0 <= i < |files| ensures FileValid(files[i]) {
          if i < |init| {
            assert files[i] == init[i];
          }
        }
      }
    }
  }

  /** The issues `createGistSchema` reports, field by field in schema order;
      the array's minimum length is checked before its elements. */
  function CreateIssues(d: CreateGistFormData): seq<Issue> {
    DescriptionIssues(d.description)
    + (if |d.files| < 1 then [Issue("files", AtLeastOneFile)] else [])
    + ElementIssues(d.files)
  }

  /** The schema reports nothing exactly for the valid forms. */
  lemma CreateIssuesEmptyIff(d: CreateGistFormData)
    ensures CreateIssues(d) == [] <==> CreateValid(d)
  {
    ElementIssuesEmptyIff(d.files);
  }

  /** `Partial<CreateGistFormData>`: a missing key is `None`. */
  datatype PartialCreateData = PartialCreateData(description: Option<string>, isPublic: Option<bool>, files: Option<seq<FormFile>>)

  const EmptyFormFile := FormFile("", "", Some(""))

  /** `useCreateGistForm`'s default values: the built-in ones, overridden by
      every key the caller supplies. */
  function CreateDefaults(p: PartialCreateData): (d: CreateGistFormData)
    ensures d.description == p.description.GetOr("")
    ensures d.isPublic == p.isPublic.GetOr(true)
    ensures d.files == p.files.GetOr([EmptyFormFile])
  {
    CreateGistFormData(p.description.GetOr(""), p.isPublic.GetOr(true), p.files.GetOr([EmptyFormFile]))
  }

  /** The default file, placed first, misses both of its fields. */
  lemma DefaultFileIssues()
    ensures FileIssues(0, EmptyFormFile) == [Issue("files.0.filename", FilenameRequired), Issue("files.0.content", ContentRequired)]
  {
    assert IntToString(0) == "0";
    assert "files." + "0" + ".filename" == "files.0.filename";
    assert "files." + "0" + ".content" == "files.0.content";
  }

  /** The built-in default form fails the schema on its description and on
      both fields of its one file. */
  lemma DefaultCreateFormInvalid()
    ensures CreateIssues(CreateDefaults(PartialCreateData(None, None, None))) ==
      [Issue("description", DescriptionRequired), Issue("files.0.filename", FilenameRequired), Issue("files.0.content", ContentRequired)]
    ensures !CreateValid(CreateDefaults(PartialCreateData(None, None, None)))
  {
    var d := CreateDefaults(PartialCreateData(None, None, None));
    assert ElementIssues(d.files) == FileIssues(0, EmptyFormFile) by {
      assert d.files[..0] == [];
    }
    DefaultFileIssues();
    assert DescriptionIssues(d.description) == [Issue("description", DescriptionRequired)];
    assert CreateIssues(d) == [Issue("description", DescriptionRequired)] + []
      + [Issue("files.0.filename", FilenameRequired), Issue("files.0.content", ContentRequired)];
    CreateIssuesEmptyIff(d);
  }

  // updateGistSchema

  datatype UpdateFileData = UpdateFileData(content: Option<string>, filename: Option<string>)

  datatype UpdateGistFormData = UpdateGistFormData(description: Option<string>, files: Option<map<string, UpdateFileData>>)

  /** `updateGistSchema`: only a present description is bounded; the files
      record and its entries are unconstrained. */
  function UpdateIssues(d: UpdateGistFormData): (issues: seq<Issue>)
    ensures issues == [] <==> d.description.None? || Utf16Len(d.description.value) <= DescriptionMax
    ensures issues != [] ==> issues == [Issue("description", DescriptionTooLong)]
  {
    if d.description.Some? && Utf16Len(d.description.value) > DescriptionMax then [Issue("description", DescriptionTooLong)] else []
  }

  // searchSchema

  datatype SearchFormData = SearchFormData(query: string, language: Option<string>, user: Option<string>)

  /** `searchSchema`: the query must not be empty. */
  function SearchIssues(d: SearchFormData): (issues: seq<Issue>)
    ensures issues == [] <==> d.query != ""
    ensures issues != [] ==> issues == [Issue("query", QueryRequired)]
  {
    if |d.query| < 1 then [Issue("query", QueryRequired)] else []
  }

  /** `useSearchForm`'s default values. */
  const SearchDefaults := SearchFormData("", Some(""), Some(""))

  /** The default search form is rejected until a query is typed; a query
      of spaces is accepted. */
  lemma SearchDefaultsInvalid()
    ensures SearchIssues(SearchDefaults) == [Issue("query", QueryRequired)]
    ensures SearchIssues(SearchDefaults.(query := " ")) == []
  {
  }
}
