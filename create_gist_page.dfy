/** The create-gist page: a description and a list of files, each with
    an id; editing replaces a file by id, removing drops it by id and adding
    appends an empty file. Submitting keeps the files whose name and content
    are not blank. The ids come from `uuidv4()` and are parameters here. */
module CreateGistPage {
  import opened Wrappers
  import opened JsString
  import Sequences

  datatype PageFile = PageFile(id: string, filename: string, content: string)

  /** `handleFileChange(updated)`: every file with the updated id is
      replaced, the rest kept in place. */
  function ReplaceById(files: seq<PageFile>, updated: PageFile): (r: seq<PageFile>)
    ensures |r| == |files|
    ensures forall i :: 0 <= i < |files| ==> r[i] == if files[i].id == updated.id then updated else files[i]
  {
    seq(|files|, i requires 0 <= i < |files| => if files[i].id == updated.id then updated else files[i])
  }

  /** Editing a file never changes which ids are on the page, nor where. */
  lemma ReplaceKeepsIds(files: seq<PageFile>, updated: PageFile)
    ensures forall i :: 0 <= i < |files| ==> ReplaceById(files, updated)[i].id == files[i].id
  {
  }

  /** `handleRemove(id)`: every file with that id dropped, the others kept
      in order; the last file may go too. */
  function RemoveById(files: seq<PageFile>, id: string): (r: seq<PageFile>)
    ensures |r| <= |files|
    ensures forall f :: f in r <==> f in files && f.id != id
  {
    if files == [] then []
    else if files[|files| - 1].id == id then RemoveById(files[..|files| - 1], id)
    else RemoveById(files[..|files| - 1], id) + [files[|files| - 1]]
  }

  lemma {:induction false} RemoveByIdConcat(a: seq<PageFile>, b: seq<PageFile>, id: string)
    ensures RemoveById(a + b, id) == RemoveById(a, id) + RemoveById(b, id)
    decreases |b|
  {
    if b == [] {
      assert a + b == a;
    } else {
      var b' := b[..|b| - 1];
      assert (a + b)[..|a + b| - 1] == a + b';
      assert (a + b)[|a + b| - 1] == b[|b| - 1];
      RemoveByIdConcat(a, b', id);
    }
  }

  lemma {:induction false} RemoveAbsent(files: seq<PageFile>, id: string)
    requires forall i :: 0 <= i < |files| ==> files[i].id != id
    ensures RemoveById(files, id) == files
  {
    if files != [] {
      var init := files[..|files| - 1];
      forall i | 0 <= i < |init| ensures init[i].id != id {
        assert init[i] == files[i];
      }
      RemoveAbsent(init, id);
      Sequences.SplitLast(files);
    }
  }

  /** The list `handleAddFile` sets: an empty file with a new id appended. */
  function WithNewFile(files: seq<PageFile>, freshId: string): seq<PageFile> {
    files + [PageFile(freshId, "", "")]
  }

  /** Removing a file just added with a fresh id gives back the list. */
  lemma RemoveUndoesAdd(files: seq<PageFile>, freshId: string)
    requires forall i :: 0 <= i < |files| ==> files[i].id != freshId
    ensures RemoveById(WithNewFile(files, freshId), freshId) == files
  {
    RemoveByIdConcat(files, [PageFile(freshId, "", "")], freshId);
    RemoveAbsent(files, freshId);
    assert RemoveById([PageFile(freshId, "", "")], freshId) == [] by {
      assert [PageFile(freshId, "", "")][..0] == [];
    }
  }

  /** `f.filename.trim() && f.content.trim()`. */
  predicate Filled(f: PageFile) {
    !IsBlank(f.filename) && !IsBlank(f.content)
  }

  /** `files.filter(f => f.filename.trim() && f.content.trim())`. */
  function NonEmptyFiles(files: seq<PageFile>): (r: seq<PageFile>)
    ensures |r| <= |files|
    ensures forall f :: f in r <==> f in files && Filled(f)
  {
    if files == [] then []
    else if Filled(files[|files| - 1]) then NonEmptyFiles(files[..|files| - 1]) + [files[|files| - 1]]
    else NonEmptyFiles(files[..|files| - 1])
  }

  /** The filter keeps the order: it distributes over concatenation. */
  lemma {:induction false} NonEmptyFilesConcat(a: seq<PageFile>, b: seq<PageFile>)
    ensures NonEmptyFiles(a + b) == NonEmptyFiles(a) + NonEmptyFiles(b)
    decreases |b|
  {
    if b == [] {
      assert a + b == a;
    } else {
      var b' := b[..|b| - 1];
      assert (a + b)[..|a + b| - 1] == a + b';
      assert (a + b)[|a + b| - 1] == b[|b| - 1];
      NonEmptyFilesConcat(a, b');
    }
  }

  datatype PayloadFile = PayloadFile(filename: string, content: string)

  datatype Payload = Payload(description: string, files: seq<PayloadFile>)

  const NoFileAlert := "Add at least one file with a filename and content."
  const CapturedAlert := "Gist data captured in the console. Wire this to your backend to create the gist."

  datatype SubmitResult = Rejected(alert: string) | Captured(payload: Payload, alert: string)

  /** `handleSubmit`: rejected when no file is filled in; otherwise the
      trimmed description and the filled files, untrimmed and in order. */
  function SubmitOutcome(description: string, files: seq<PageFile>): (r: SubmitResult)
    ensures r.Rejected? <==> NonEmptyFiles(files) == []
    ensures r.Rejected? ==> r.alert == NoFileAlert
    ensures r.Captured? ==>
      var kept := NonEmptyFiles(files);
      r.alert == CapturedAlert
      && r.payload.description == Trim(description)
      && |r.payload.files| == |kept|
      && forall i :: 0 <= i < |kept| ==> r.payload.files[i] == PayloadFile(kept[i].filename, kept[i].content)
  {
    var nonEmpty := NonEmptyFiles(files);
    if |nonEmpty| == 0 then Rejected(NoFileAlert)
    else
      var payloadFiles := seq(|nonEmpty|, i requires 0 <= i < |nonEmpty| => PayloadFile(nonEmpty[i].filename, nonEmpty[i].content));
      Captured(Payload(Trim(description), payloadFiles), CapturedAlert)
  }

  /** Every file sent has a non-blank name and content, and came from the
      page. */
  lemma SubmittedFilesFilled(description: string, files: seq<PageFile>, i: nat)
    requires SubmitOutcome(description, files).Captured?
    requires i < |SubmitOutcome(description, files).payload.files|
    ensures var p := SubmitOutcome(description, files).payload.files[i];
      exists f :: f in files && Filled(f) && p == PayloadFile(f.filename, f.content)
  {
    var kept := NonEmptyFiles(files);
    assert kept[i] in kept;
  }

  const FirstFilename := "filename.txt"

  /** The page as it first renders cannot be submitted: its one file is
      empty. */
  lemma InitialPageRejected(firstId: string, description: string)
    ensures SubmitOutcome(description, [PageFile(firstId, FirstFilename, "")]) == Rejected(NoFileAlert)
  {
    var files := [PageFile(firstId, FirstFilename, "")];
    assert files[..0] == [];
    assert !Filled(files[0]);
  }

  /** The page's state: `description` and `files`. */
  class Page {
    var description: string
    var files: seq<PageFile>

    constructor (firstId: string)
      ensures description == "" && files == [PageFile(firstId, FirstFilename, "")]
    {
      description := "";
      files := [PageFile(firstId, FirstFilename, "")];
    }

    method SetDescription(value: string)
      modifies this
      ensures description == value && files == old(files)
    {
      description := value;
    }

    method FileChanged(updated: PageFile)
      modifies this
      ensures files == ReplaceById(old(files), updated) && description == old(description)
    {
      files := ReplaceById(files, updated);
    }

    method Remove(id: string)
      modifies this
      ensures files == RemoveById(old(files), id) && description == old(description)
    {
      files := RemoveById(files, id);
    }

    method AddFile(freshId: string)
      modifies this
      ensures files == WithNewFile(old(files), freshId) && description == old(description)
    {
      files := files + [PageFile(freshId, "", "")];
    }
  }
}
