/** Sample-code generation for a gist's first file: the extension and the
    cleaned base name of the filename, the ordered choice among eight
    templates, and the language icon table. The date printed by the
    fallback template is a parameter. */
module CodeSnippetUtils {
  import opened Wrappers
  import opened JsString
  import opened GistModel
  import LanguageUtils

  // The base name

  /** A match of `/\.[^/.]+$/` starts at `k`: a dot followed by one or more
      characters other than `/` and `.` that run to the end. */
  predicate ExtensionSuffixAt(f: string, k: int) {
    0 <= k && k + 1 < |f| && f[k] == '.' && forall i :: k < i < |f| ==> f[i] != '.' && f[i] != '/'
  }

  /** `filename.replace(/\.[^/.]+$/, '')`: the name without its final
      extension, when it has one. */
  function StripExtension(f: string): (r: string)
    ensures |r| <= |f| && r == f[..|r|]
    ensures r != f ==> ExtensionSuffixAt(f, |r|)
    ensures r == f ==> forall k :: 0 <= k < |f| ==> !ExtensionSuffixAt(f, k)
  {
    var seg := LastSegment(f, '.');
    if |seg| < |f| && seg != "" && '/' !in seg then
      var k := |f| - |seg| - 1;
      assert f[k + 1..] == seg;
      f[..k]
    else
      NoExtensionSuffix(f, seg);
      f
  }

  lemma NoExtensionSuffix(f: string, seg: string)
    requires |seg| <= |f| && seg == f[|f| - |seg|..] && '.' !in seg
    requires |seg| < |f| ==> f[|f| - |seg| - 1] == '.'
    requires !(|seg| < |f| && seg != "" && '/' !in seg)
    ensures forall k :: 0 <= k < |f| ==> !ExtensionSuffixAt(f, k)
  {
    forall k | 0 <= k < |f| ensures !ExtensionSuffixAt(f, k) {
      var d := |f| - |seg| - 1;
      if k < d {
        assert f[d] == '.';
      } else if k > d {
        assert f[k] == seg[k - d - 1];
      } else if seg == "" {
      } else {
        assert '/' in seg;
        var j :| 0 <= j < |seg| && seg[j] == '/';
        assert f[d + 1 + j] == '/';
      }
    }
  }

  predicate IsAlnum(c: char) {
    'a' <= c <= 'z' || 'A' <= c <= 'Z' || '0' <= c <= '9'
  }

  /** `.replace(/[^a-zA-Z0-9]/g, '')`: the ASCII letters and digits, in order. */
  function KeepAlnum(s: string): (r: string)
    ensures |r| <= |s|
    ensures forall i :: 0 <= i < |r| ==> IsAlnum(r[i])
    ensures (forall i :: 0 <= i < |s| ==> IsAlnum(s[i])) ==> r == s
    ensures (forall i :: 0 <= i < |s| ==> !IsAlnum(s[i])) ==> r == ""
  {
    if s == [] then []
    else (if IsAlnum(s[0]) then [s[0]] else []) + KeepAlnum(s[1..])
  }

  /** Cleaning distributes over concatenation, so the kept characters stay in order. */
  lemma {:induction false} KeepAlnumConcat(a: string, b: string)
    ensures KeepAlnum(a + b) == KeepAlnum(a) + KeepAlnum(b)
    decreases |a|
  {
    if a == [] {
      assert a + b == b;
    } else {
      assert (a + b)[0] == a[0] && (a + b)[1..] == a[1..] + b;
      KeepAlnumConcat(a[1..], b);
    }
  }

  /** One character is kept exactly when it is an ASCII letter or digit. */
  lemma KeepAlnumChar(c: char)
    ensures IsAlnum(c) ==> KeepAlnum([c]) == [c]
    ensures !IsAlnum(c) ==> KeepAlnum([c]) == []
  {
    assert [c][1..] == [];
  }

  /** `baseName || 'untitled'`: never empty, letters and digits only. */
  function CleanBaseName(filename: string): (base: string)
    ensures base != ""
    ensures forall i :: 0 <= i < |base| ==> IsAlnum(base[i])
    ensures KeepAlnum(StripExtension(filename)) != "" ==> base == KeepAlnum(StripExtension(filename))
    ensures KeepAlnum(StripExtension(filename)) == "" ==> base == "untitled"
  {
    var b := KeepAlnum(StripExtension(filename));
    if b == "" then "untitled" else b
  }

  // Template selection

  /** The branches of `generateCodeSnippet` in the order they are tested:
      the language name and the extension that select each. */
  const Branches: seq<(string, string)> := [
    ("javascript", "js"), ("typescript", "ts"), ("json", "json"), ("python", "py"),
    ("markdown", "md"), ("html", "html"), ("css", "css"), ("bash", "sh")]

  predicate Matches(language: Option<string>, ext: string, k: nat)
    requires k < |Branches|
  {
    language == Some(Branches[k].0) || ext == Branches[k].1
  }

  /** The first branch from `from` on whose language or extension matches. */
  function FirstBranchFrom(language: Option<string>, ext: string, from: nat): (k: Option<nat>)
    requires from <= |Branches|
    ensures k.Some? ==> from <= k.value < |Branches| && Matches(language, ext, k.value)
    ensures forall j :: from <= j < |Branches| && (k.None? || j < k.value) ==> !Matches(language, ext, j)
    decreases |Branches| - from
  {
    if from == |Branches| then None
    else if Matches(language, ext, from) then Some(from)
    else FirstBranchFrom(language, ext, from + 1)
  }

  /** The branch `generateCodeSnippet` takes; `None` for the fallback. */
  function SelectBranch(language: Option<string>, ext: string): (k: Option<nat>)
    ensures k.Some? ==> k.value < |Branches| && Matches(language, ext, k.value)
    ensures forall j :: 0 <= j < |Branches| && (k.None? || j < k.value) ==> !Matches(language, ext, j)
  {
    FirstBranchFrom(language, ext, 0)
  }

  /** A language name chosen by the caller overrides any extension that
      only a later branch would match. */
  lemma LanguageDecides(language: string, ext: string, k: nat)
    requires k < |Branches| && language == Branches[k].0
    requires forall j :: 0 <= j < k ==> ext != Branches[j].1
    ensures SelectBranch(Some(language), ext) == Some(k)
  {
    var r := SelectBranch(Some(language), ext);
    forall j | 0 <= j < k ensures !Matches(Some(language), ext, j) {
      assert Branches[j].0 != Branches[k].0;
    }
  }

  /** Without a language the extension alone decides. */
  lemma ExtensionDecides(ext: string, k: nat)
    requires k < |Branches| && ext == Branches[k].1
    ensures SelectBranch(None, ext) == Some(k)
  {
    forall j | 0 <= j < k ensures !Matches(None, ext, j) {
      assert Branches[j].1 != Branches[k].1;
    }
  }

  // Templates

  /** `description || fallback`. */
  function OrDefault(description: Option<string>, fallback: string): (r: string)
    ensures r == if description.Some? && description.value != "" then description.value else fallback
  {
    match description
    case Some(d) => if d == "" then fallback else d
    case None => fallback
  }

  /** `language?.toUpperCase() || 'Text'`. */
  function LanguageLabel(language: Option<string>): (r: string)
    ensures language.Some? && language.value != "" ==> r == ToUpper(language.value)
    ensures language.None? || language.value == "" ==> r == "Text"
  {
    match language
    case Some(l) => if l == "" then "Text" else ToUpper(l)
    case None => "Text"
  }

  // The fixed text of the templates, between the places where the
  // filename, the base name, the language label, the description or the
  // date are filled in.
  const JsBody := "function "
  const JsTail := "() {\n  console.log(\'Hello, World!\');\n  return true;\n}\n\nexport default "
  const TsBody := "interface "
  const TsConfig := "Config {\n  name: string;\n  version: string;\n}\n\nfunction "
  const TsParam := "(config: "
  const TsTail := "Config): boolean {\n  console.log(`${config.name} v${config.version}`);\n  return true;\n}\n\nexport default "
  const JsonHead := "{\n  \"name\": \""
  const JsonMiddle := "\",\n  \"version\": \"1.0.0\",\n  \"description\": \""
  const JsonTail := "\",\n  \"main\": \"index.js\",\n  \"scripts\": {\n    \"start\": \"node index.js\"\n  }\n}"
  const PyTail := "\ndef main():\n    print(\"Hello, World!\")\n    return True\n\nif __name__ == \"__main__\":\n    main()"
  const MdTail := "\n\n## Features\n\n- Feature 1\n- Feature 2\n- Feature 3\n\n## Usage\n\n```bash\n# Example usage\necho \"Hello, World!\"\n```"
  const HtmlHead := "<!DOCTYPE html>\n<html lang=\"en\">\n<head>\n    <meta charset=\"UTF-8\">\n    <meta name=\"viewport\" content=\"width=device-width, initial-scale=1.0\">\n    <title>"
  const HtmlMiddle := "</title>\n</head>\n<body>\n    <h1>Hello, World!</h1>\n    <p>"
  const HtmlTail := "</p>\n</body>\n</html>"
  const CssFirst := " */\n."
  const CssSecond := " {\n  display: flex;\n  align-items: center;\n  justify-content: center;\n  padding: 1rem;\n  background-color: #f0f0f0;\n  border-radius: 8px;\n}\n\n."
  const CssTail := "__title {\n  font-size: 1.5rem;\n  font-weight: bold;\n  color: #333;\n}"
  const ShHead := "#!/bin/bash\n# "
  const ShMiddle := "\n\necho \"Hello, World!\"\necho \"Running "
  const ShTail := " script...\"\n\n# Add your script logic here\nexit 0"
  const FallbackMiddle := " file\n// Size: Unknown\n// Created: "
  const FallbackTail := "\n\n/* Content preview not available */"

  /** The template of branch `k`. */
  function Template(k: nat, filename: string, base: string, language: Option<string>, description: Option<string>): string
    requires k < |Branches|
  {
    match k
    case 0 => ("// " + filename + "\n") + (JsBody + base + JsTail + base + ";")
    case 1 => ("// " + filename + "\n") + (TsBody + base + TsConfig + base + TsParam + base + TsTail + base + ";")
    case 2 => JsonHead + base + JsonMiddle + OrDefault(description, "A gist file") + JsonTail
    case 3 => "# " + filename + PyTail
    case 4 => "# " + base + "\n\n" + OrDefault(description, "A sample markdown file") + MdTail
    case 5 => HtmlHead + base + HtmlMiddle + OrDefault(description, "A sample HTML file") + HtmlTail
    case 6 => "/* " + filename + CssFirst + base + CssSecond + base + CssTail
    case 7 => ShHead + filename + ShMiddle + base + ShTail
  }

  /** The fallback template; `today` stands for `new Date().toLocaleDateString()`. */
  function FallbackTemplate(filename: string, language: Option<string>, today: string): string {
    ("// " + filename + "\n") + ("// " + LanguageLabel(language) + FallbackMiddle + today + FallbackTail)
  }

  /** `generateCodeSnippet(filename, language, description)`: the template
      of the first matching branch, else the fallback. */
  function GenerateCodeSnippet(filename: string, language: Option<string>, description: Option<string>, today: string): (r: string)
    ensures var k := SelectBranch(language, LanguageUtils.Extension(filename));
      r == if k.Some? then Template(k.value, filename, CleanBaseName(filename), language, description)
           else FallbackTemplate(filename, language, today)
  {
    var ext := LanguageUtils.Extension(filename);
    var base := CleanBaseName(filename);
    match SelectBranch(language, ext)
    case Some(k) => Template(k, filename, base, language, description)
    case None => FallbackTemplate(filename, language, today)
  }

  /** The default text a template shows in place of a missing description. */
  function DescriptionDefault(k: nat): string {
    if k == 2 then "A gist file" else if k == 4 then "A sample markdown file" else "A sample HTML file"
  }

  /** The JSON, markdown and HTML templates carry the description, or their
      own default when it is missing or empty. */
  lemma TemplateEmbedsDescription(k: nat, filename: string, base: string, language: Option<string>, description: Option<string>)
    requires k == 2 || k == 4 || k == 5
    ensures Includes(Template(k, filename, base, language, description), OrDefault(description, DescriptionDefault(k)))
  {
    var r := Template(k, filename, base, language, description);
    var d := OrDefault(description, DescriptionDefault(k));
    var head, tail;
    if k == 2 {
      head, tail := JsonHead + base + JsonMiddle, JsonTail;
    } else if k == 4 {
      head, tail := "# " + base + "\n\n", MdTail;
    } else {
      head, tail := HtmlHead + base + HtmlMiddle, HtmlTail;
    }
    assert r == head + d + tail;
    IncludesConcat(head, d, tail);
  }

  lemma StartsWithConcat(a: string, b: string)
    ensures StartsWith(a + b, a)
  {
    assert (a + b)[..|a|] == a;
  }

  /** The JavaScript and TypeScript templates open with a comment line
      naming the file. */
  lemma TemplateNamesFile(k: nat, filename: string, base: string, language: Option<string>, description: Option<string>)
    requires k < 2
    ensures StartsWith(Template(k, filename, base, language, description), "// " + filename + "\n")
  {
    var head := "// " + filename + "\n";
    var rest := if k == 0 then JsBody + base + JsTail + base + ";"
                else TsBody + base + TsConfig + base + TsParam + base + TsTail + base + ";";
    assert Template(k, filename, base, language, description) == head + rest;
    StartsWithConcat(head, rest);
  }

  /** So does the fallback. */
  lemma FallbackNamesFile(filename: string, language: Option<string>, today: string)
    ensures StartsWith(FallbackTemplate(filename, language, today), "// " + filename + "\n")
  {
    var head := "// " + filename + "\n";
    var rest := "// " + LanguageLabel(language) + FallbackMiddle + today + FallbackTail;
    assert FallbackTemplate(filename, language, today) == head + rest;
    StartsWithConcat(head, rest);
  }

  // getCodeSnippetFromGist

  const NoContent := "// No content available"

  /** `Object.keys(gist.files)[0] || 'untitled.txt'`. */
  function SnippetFilename(f: GistFile): string {
    if f.filename == "" then "untitled.txt" else f.filename
  }

  /** `getCodeSnippetFromGist(gist)`: the snippet of the first file, named
      `untitled.txt` when its key is empty, with its language lower-cased
      and an empty description dropped. */
  function GetCodeSnippetFromGist(gist: Gist, today: string): (r: string)
    ensures gist.files == [] ==> r == NoContent
    ensures gist.files != [] ==>
      var f := gist.files[0];
      r == GenerateCodeSnippet(
        SnippetFilename(f),
        if f.language.Some? then Some(ToLower(f.language.value)) else None,
        if gist.description.Some? && gist.description.value != "" then gist.description else None,
        today)
  {
    if gist.files == [] then NoContent
    else
      var first := gist.files[0];
      var filename := SnippetFilename(first);
      var language := match first.language case Some(l) => Some(ToLower(l)) case None => None;
      var description := match gist.description case Some(d) => (if d == "" then None else Some(d)) case None => None;
      GenerateCodeSnippet(filename, language, description, today)
  }

  /** A gist whose first file declares a branch's language (in any letter
      case) gets that branch's template, unless the file's extension
      selects an earlier branch. */
  lemma GistLanguageDecides(gist: Gist, today: string, k: nat)
    requires gist.files != [] && k < |Branches|
    requires gist.files[0].language.Some? && ToLower(gist.files[0].language.value) == Branches[k].0
    requires forall j :: 0 <= j < k ==> LanguageUtils.Extension(SnippetFilename(gist.files[0])) != Branches[j].1
    ensures GetCodeSnippetFromGist(gist, today) ==
      Template(k, SnippetFilename(gist.files[0]), CleanBaseName(SnippetFilename(gist.files[0])), Some(Branches[k].0),
        if gist.description.Some? && gist.description.value != "" then gist.description else None)
  {
    LanguageDecides(Branches[k].0, LanguageUtils.Extension(SnippetFilename(gist.files[0])), k);
  }

  // getLanguageIcon

  /** The own entries of the `icons` object. */
  function IconEntry(key: string): Option<string> {
    match key
    case "javascript" => Some("\U{1F7E8}")
    case "typescript" => Some("\U{1F537}")
    case "python" => Some("\U{1F40D}")
    case "java" => Some("\U{2615}")
    case "html" => Some("\U{1F310}")
    case "css" => Some("\U{1F3A8}")
    case "json" => Some("\U{1F4C4}")
    case "markdown" => Some("\U{1F4DD}")
    case "bash" => Some("\U{1F4BB}")
    case "shell" => Some("\U{1F4BB}")
    case "php" => Some("\U{1F418}")
    case "ruby" => Some("\U{1F48E}")
    case "go" => Some("\U{1F439}")
    case "rust" => Some("\U{1F980}")
    case "cpp" => Some("\U{2699}\U{FE0F}")
    case "c" => Some("\U{2699}\U{FE0F}")
    case "csharp" => Some("\U{1F537}")
    case _ => None
  }

  const DefaultIcon := "\U{1F4C4}"

  /** `language?.toLowerCase() || ''`. */
  function IconKey(language: Option<string>): (key: string)
    ensures language.None? ==> key == ""
    ensures language.Some? ==> key == ToLower(language.value)
  {
    match language
    case Some(l) => ToLower(l)
    case None => ""
  }

  /** `getLanguageIcon` as written: the key is looked up on the object,
      prototype chain included. */
  function LanguageIconAsWritten(language: Option<string>): (v: LanguageUtils.JsValue)
    ensures v.Inherited? <==> IconEntry(IconKey(language)).None? && LanguageUtils.IsPrototypeMember(IconKey(language))
    ensures v.Str? ==> v.s != ""
  {
    var key := IconKey(language);
    LanguageUtils.OrElse(LanguageUtils.PropertyRead(IconEntry(key), key), DefaultIcon)
  }

  /** A language named `Constructor` is given `Object` itself as its icon. */
  lemma ConstructorLanguageNotAnIcon()
    ensures LanguageIconAsWritten(Some("Constructor")) == LanguageUtils.Inherited("constructor")
  {
    assert ToLower("Constructor") == "constructor";
    assert LanguageUtils.IsPrototypeMember("constructor");
  }

  /** `getLanguageIcon` with an own-key lookup: the table's icon for the
      lower-cased language, else the page icon. */
  function GetLanguageIcon(language: Option<string>): (icon: string)
    ensures icon != ""
    ensures IconEntry(IconKey(language)).Some? ==> icon == IconEntry(IconKey(language)).value
    ensures IconEntry(IconKey(language)).None? ==> icon == DefaultIcon
  {
    match IconEntry(IconKey(language))
    case Some(i) => i
    case None => DefaultIcon
  }

  /** The written lookup and the own-key lookup agree whenever the key is
      not an inherited member name. */
  lemma IconAgreesOffPrototype(language: Option<string>)
    requires !LanguageUtils.IsPrototypeMember(IconKey(language))
    ensures LanguageIconAsWritten(language) == LanguageUtils.Str(GetLanguageIcon(language))
  {
  }

  /** The icon does not depend on letter case. */
  lemma IconIgnoresCase(language: string)
    ensures GetLanguageIcon(Some(language)) == GetLanguageIcon(Some(ToLower(language)))
  {
    assert ToLower(ToLower(language)) == ToLower(language);
  }
}
