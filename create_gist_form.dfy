/** The create-gist form: submitting folds the list of files into the
    `files` object the API expects; the file list grows by one empty file
    and shrinks by index, never below one file. The mutation that sends the
    payload is external. */
module CreateGistForm {
  import opened Wrappers
  import opened GistForms

  // The files object

  /** `data.files.reduce((acc, f) => { acc[f.filename] = … }, {})` with
      own-key writes: each filename maps to its content, a later file
      overwriting an earlier one of the same name. */
  function FilesObject(files: seq<FormFile>): (obj: map<string, string>)
    ensures obj.Keys <= Filenames(files)
    ensures files != [] ==> files[|files| - 1].filename in obj && obj[files[|files| - 1].filename] == files[|files| - 1].content
  {
    if files == [] then map[]
    else FilesObject(files[..|files| - 1])[files[|files| - 1].filename := files[|files| - 1].content]
  }

  /** The filenames of a file list. */
  function Filenames(files: seq<FormFile>): set<string> {
    set i | 0 <= i < |files| :: files[i].filename
  }

  /** The object has one key per distinct filename, and no other. */
  lemma {:induction false} FilesObjectKeys(files: seq<FormFile>)
    ensures FilesObject(files).Keys == Filenames(files)
  {
    if files != [] {
      var init := files[..|files| - 1];
      FilesObjectKeys(init);
      forall k | k in Filenames(files) ensures k in Filenames(init) + {files[|files| - 1].filename} {
        var i :| 0 <= i < |files| && files[i].filename == k;
        if i < |init| {
          assert init[i] == files[i];
        }
      }
      forall k | k in Filenames(init) ensures k in Filenames(files) {
        var i :| 0 <= i < |init| && init[i].filename == k;
        assert files[i] == init[i];
      }
    }
  }

  /** A filename maps to the content of the last file carrying it. */
  lemma {:induction false} FilesObjectLastWins(files: seq<FormFile>, i: nat)
    requires i < |files|
    requires forall j :: i < j < |files| ==> files[j].filename != files[i].filename
    ensures files[i].filename in FilesObject(files)
    ensures FilesObject(files)[files[i].filename] == files[i].content
  {
    if i < |files| - 1 {
      var init := files[..|files| - 1];
      assert init[i] == files[i];
      FilesObjectLastWins(init, i);
    }
  }

  const ProtoKey := "__proto__"

  /** The fold as written: `acc['__proto__'] = …` replaces the object's
      prototype instead of adding a key, so that file never reaches the
      serialized payload. */
  function FilesObjectAsWritten(files: seq<FormFile>): (obj: map<string, string>)
    ensures obj.Keys <= Filenames(files)
    ensures ProtoKey !in obj
  {
    if files == [] then map[]
    else
      var acc := FilesObjectAsWritten(files[..|files| - 1]);
      var f := files[|files| - 1];
      if f.filename == ProtoKey then acc else acc[f.filename := f.content]
  }

  /** A form whose only file is named `__proto__` passes the schema, yet
      its payload as written carries no file at all. */
  lemma ProtoFileLost()
    ensures var d := CreateGistFormData("d", true, [FormFile(ProtoKey, "x", None)]);
      CreateValid(d) && FilesObjectAsWritten(d.files) == map[] && FilesObject(d.files) == map[ProtoKey := "x"]
  {
    var files := [FormFile(ProtoKey, "x", None)];
    assert files[..0] == [];
  }

  /** Without a `__proto__` filename the fold as written and the own-key
      fold agree. */
  lemma {:induction false} AsWrittenAgreesWithoutProto(files: seq<FormFile>)
    requires forall i :: 0 <= i < |files| ==> files[i].filename != ProtoKey
    ensures FilesObjectAsWritten(files) == FilesObject(files)
  {
    if files != [] {
      var init := files[..|files| - 1];
      forall i | 0 <= i < |init| ensures init[i].filename != ProtoKey {
        assert init[i] == files[i];
      }
      AsWrittenAgreesWithoutProto(init);
    }
  }

  /** The body of `onSubmit`'s fold, run on the file list. */
  method BuildFilesObject(files: seq<FormFile>) returns (acc: map<string, string>)
    ensures acc == FilesObject(files)
  {
    acc := map[];
    for i := 0 to |files|
      invariant acc == FilesObject(files[..i])
    {
      assert files[..i + 1][..i] == files[..i];
      acc := acc[files[i].filename := files[i].content];
    }
    assert files[..|files|] == files;
  }

  /** The `createGist` payload: description and visibility pass through. */
  datatype GistPayload = GistPayload(description: string, public: bool, files: map<string, string>)

  /** `onSubmit`: the payload handed to the mutation. */
  method OnSubmit(data: CreateGistFormData) returns (payload: GistPayload)
    ensures payload == GistPayload(data.description, data.isPublic, FilesObject(data.files))
  {
    var filesObject := BuildFilesObject(data.files);
    payload := GistPayload(data.description, data.isPublic, filesObject);
  }

  /** A valid form sends at least one file, and no file with an empty name. */
  lemma ValidFormPayload(d: CreateGistFormData)
    requires CreateValid(d)
    ensures FilesObject(d.files) != map[]
    ensures forall k :: k in FilesObject(d.files) ==> k != ""
  {
    FilesObjectKeys(d.files);
    assert d.files[0].filename in Filenames(d.files);
    forall k | k in FilesObject(d.files) ensures k != "" {
      var i :| 0 <= i < |d.files| && d.files[i].filename == k;
      assert FileValid(d.files[i]);
    }
  }

  // Adding and removing files

  /** The list `addFile` sets: one empty file appended. */
  function WithEmptyFile(files: seq<FormFile>): seq<FormFile> {
    files + [EmptyFormFile]
  }

  /** The list `removeFile(index)` sets: the file at `index` dropped, only while more
      than one file exists; an index outside the list drops nothing. */
  function WithoutIndex(files: seq<FormFile>, index: int): (r: seq<FormFile>)
    ensures |files| > 1 && 0 <= index < |files| ==> r == files[..index] + files[index + 1..]
    ensures !(|files| > 1 && 0 <= index < |files|) ==> r == files
  {
    if |files| > 1 && 0 <= index < |files| then files[..index] + files[index + 1..] else files
  }

  /** Removing never leaves a non-empty list empty. */
  lemma RemoveFileKeepsOne(files: seq<FormFile>, index: int)
    requires |files| >= 1
    ensures |WithoutIndex(files, index)| >= 1
    ensures |WithoutIndex(files, index)| >= |files| - 1
  {
  }

  /** A freshly added file has to be filled in before the form passes. */
  lemma AddFileInvalidates(d: CreateGistFormData)
    ensures !CreateValid(d.(files := WithEmptyFile(d.files)))
  {
    var files := WithEmptyFile(d.files);
    assert files[|files| - 1] == EmptyFormFile;
  }

  /** Removing a file from a valid form keeps it valid. */
  lemma RemoveFileKeepsValid(d: CreateGistFormData, index: int)
    requires CreateValid(d)
    ensures CreateValid(d.(files := WithoutIndex(d.files, index)))
  {
    var r := WithoutIndex(d.files, index);
    if |d.files| > 1 && 0 <= index < |d.files| {
      forall i | 0 <= i < |r| ensures FileValid(r[i]) {
        if i < index {
          assert r[i] == d.files[i];
        } else {
          assert r[i] == d.files[i + 1];
        }
      }
    }
  }

  /** The `files` field of the form as the component edits it. */
  class FormFiles {
    var files: seq<FormFile>

    /** The files of `useCreateGistForm()`'s default values. */
    constructor ()
      ensures files == CreateDefaults(PartialCreateData(None, None, None)).files
    {
      files := [EmptyFormFile];
    }

    method AddFile()
      modifies this
      ensures files == WithEmptyFile(old(files))
    {
      files := files + [EmptyFormFile];
    }

    method RemoveFile(index: int)
      modifies this
      ensures files == WithoutIndex(old(files), index)
    {
      if |files| > 1 {
        if 0 <= index < |files| {
          files := files[..index] + files[index + 1..];
        }
      }
    }
  }
}
