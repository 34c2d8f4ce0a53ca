/** Filename-to-language tables: the general language table, the four
    Monaco editor languages, the highlighting test and display names. */
module LanguageUtils {
  import opened Wrappers
  import opened JsString

  /** `LANGUAGE_MAP`: the table's own entries. */
  function LanguageEntry(ext: string): Option<string> {
    match ext
    case "js" => Some("javascript")
    case "jsx" => Some("jsx")
    case "ts" => Some("typescript")
    case "tsx" => Some("tsx")
    case "mjs" => Some("javascript")
    case "cjs" => Some("javascript")
    case "html" => Some("html")
    case "htm" => Some("html")
    case "css" => Some("css")
    case "scss" => Some("scss")
    case "sass" => Some("sass")
    case "less" => Some("less")
    case "json" => Some("json")
    case "xml" => Some("xml")
    case "yaml" => Some("yaml")
    case "yml" => Some("yaml")
    case "py" => Some("python")
    case "java" => Some("java")
    case "c" => Some("c")
    case "cpp" => Some("cpp")
    case "cxx" => Some("cpp")
    case "cc" => Some("cpp")
    case "cs" => Some("csharp")
    case "php" => Some("php")
    case "rb" => Some("ruby")
    case "go" => Some("go")
    case "rs" => Some("rust")
    case "kt" => Some("kotlin")
    case "scala" => Some("scala")
    case "swift" => Some("swift")
    case "dart" => Some("dart")
    case "sh" => Some("bash")
    case "bash" => Some("bash")
    case "zsh" => Some("zsh")
    case "fish" => Some("fish")
    case "ps1" => Some("powershell")
    case "bat" => Some("batch")
    case "cmd" => Some("batch")
    case "sql" => Some("sql")
    case "md" => Some("markdown")
    case "markdown" => Some("markdown")
    case "rst" => Some("rst")
    case "txt" => Some("text")
    case "toml" => Some("toml")
    case "ini" => Some("ini")
    case "cfg" => Some("ini")
    case "conf" => Some("ini")
    case "dockerfile" => Some("dockerfile")
    case "r" => Some("r")
    case "matlab" => Some("matlab")
    case "m" => Some("matlab")
    case "pl" => Some("perl")
    case "lua" => Some("lua")
    case "vim" => Some("vim")
    case _ => None
  }

  /** `filename.split('.').pop()?.toLowerCase()`: the lower-cased text after
      the last dot, or the whole name when there is none. */
  function Extension(filename: string): (ext: string)
    ensures '.' !in ext && |ext| <= |filename|
    ensures ext == ToLower(filename[|filename| - |ext|..])
    ensures |ext| < |filename| ==> filename[|filename| - |ext| - 1] == '.'
  {
    ToLower(LastSegment(filename, '.'))
  }

  // Property reads on a plain JavaScript object

  /** The members every object literal inherits from `Object.prototype`. */
  predicate IsPrototypeMember(key: string) {
    key in {"constructor", "__proto__", "hasOwnProperty", "isPrototypeOf", "propertyIsEnumerable",
            "toLocaleString", "toString", "valueOf",
            "__defineGetter__", "__defineSetter__", "__lookupGetter__", "__lookupSetter__"}
  }

  /** A value read from an object literal: one of its own strings, or an
      inherited member (a function or object, never a string). */
  datatype JsValue = Str(s: string) | Inherited(name: string)

  /** `table[key]` on an object literal whose own entry for `key` is `own`. */
  function PropertyRead(own: Option<string>, key: string): (v: Option<JsValue>)
    ensures own.Some? ==> v == Some(Str(own.value))
    ensures (v.Some? && v.value.Inherited?) <==> own.None? && IsPrototypeMember(key)
  {
    if own.Some? then Some(Str(own.value))
    else if IsPrototypeMember(key) then Some(Inherited(key))
    else None
  }

  /** `v || fallback` on the read value. */
  function OrElse(v: Option<JsValue>, fallback: string): JsValue {
    match v
    case None => Str(fallback)
    case Some(Str(s)) => if s == "" then Str(fallback) else Str(s)
    case Some(Inherited(n)) => Inherited(n)
  }

  /** `getLanguageFromFilename` as written: the extension is looked up on
      the object, prototype chain included. */
  function LanguageAsWritten(filename: string): (v: JsValue)
    ensures v.Inherited? <==>
      (filename != "" && Extension(filename) != ""
       && LanguageEntry(Extension(filename)).None? && IsPrototypeMember(Extension(filename)))
    ensures v.Str? ==> v.s != ""
  {
    if filename == "" then Str("text")
    else
      var ext := Extension(filename);
      if ext == "" then Str("text") else OrElse(PropertyRead(LanguageEntry(ext), ext), "text")
  }

  lemma ExtensionOf(name: string, ext: string)
    requires '.' !in ext && ToLower(ext) == ext
    ensures Extension(name + "." + ext) == ext
  {
    var f := name + "." + ext;
    var last := LastSegment(f, '.');
    assert f[|f| - |ext| - 1] == '.';
    assert f[|f| - |ext|..] == ext;
    assert last == ext;
  }

  /** A file named `x.constructor` is given `Object` itself as its language. */
  lemma ConstructorExtensionNotAString()
    ensures LanguageAsWritten("x.constructor") == Inherited("constructor")
  {
    var f := "x.constructor";
    assert f == "x" + "." + "constructor";
    ExtensionOf("x", "constructor");
    assert Extension(f) == "constructor";
    NoOwnConstructor();
    assert IsPrototypeMember("constructor");
  }

  lemma NoOwnConstructor()
    ensures LanguageEntry("constructor") == None
  {
  }

  /** `getLanguageFromFilename` with an own-key lookup: the table's language
      for the extension, else `text`. */
  function GetLanguageFromFilename(filename: string): (lang: string)
    ensures lang == LanguageOrText(Extension(filename))
  {
    if filename == "" then "text"
    else
      var ext := Extension(filename);
      if ext == "" then "text" else LanguageOrText(ext)
  }

  /** `LANGUAGE_MAP[extension] || 'text'` with an own-key lookup: the
      extension's own entry, else `text`; never empty, since no entry is. */
  function LanguageOrText(ext: string): (lang: string)
    ensures lang != ""
    ensures LanguageEntry(ext).Some? ==> lang == LanguageEntry(ext).value
    ensures LanguageEntry(ext).None? ==> lang == "text"
  {
    match LanguageEntry(ext)
    case Some(l) => l
    case None => "text"
  }

  /** Only `txt` is mapped to plain text. */
  lemma OnlyTxtIsText(ext: string)
    ensures LanguageEntry(ext) == Some("text") <==> ext == "txt"
  {
  }

  /** The written lookup and the own-key lookup agree on every extension that
      is not an inherited member name. */
  lemma AsWrittenAgreesOffPrototype(filename: string)
    requires !IsPrototypeMember(Extension(filename))
    ensures LanguageAsWritten(filename) == Str(GetLanguageFromFilename(filename))
  {
  }

  /** An empty name, or one ending in a dot, is plain text. */
  lemma NoExtensionIsText(filename: string)
    requires filename == "" || filename[|filename| - 1] == '.'
    ensures GetLanguageFromFilename(filename) == "text"
  {
  }

  /** Upper-case extensions are read as lower-case ones: the language of a
      name does not depend on the case of its extension. */
  lemma ExtensionCaseIgnored(name: string, ext: string)
    requires '.' !in ext
    ensures GetLanguageFromFilename(name + "." + ext) == GetLanguageFromFilename(name + "." + ToLower(ext))
  {
    LastSegmentAfter(name, '.', ext);
    var lower := ToLower(ext);
    assert '.' !in lower by {
      forall i | 0 <= i < |lower| ensures lower[i] != '.' {
        assert lower[i] == LowerChar(ext[i]);
      }
    }
    LastSegmentAfter(name, '.', lower);
    assert ToLower(lower) == lower;
  }

  /** `App.TSX` is a TSX file. */
  lemma UpperCaseExtension()
    ensures GetLanguageFromFilename("App.TSX") == "tsx"
  {
    var f := "App.TSX";
    assert f[|f| - 4] == '.';
    var last := LastSegment(f, '.');
    assert last == "TSX";
    assert ToLower("TSX") == "tsx";
  }

  datatype MonacoLanguage = Json | JavaScript | TypeScript | Markdown

  function MonacoName(m: MonacoLanguage): string {
    match m
    case Json => "json"
    case JavaScript => "javascript"
    case TypeScript => "typescript"
    case Markdown => "markdown"
  }

  /** `getMonacoLanguageFromFilename`: every name gets an editor language,
      JavaScript when nothing else applies. */
  function MonacoLanguageFromFilename(filename: string): (m: MonacoLanguage)
    ensures m == TypeScript <==> Extension(filename) in {"ts", "tsx"}
    ensures m == Json <==> Extension(filename) == "json"
    ensures m == Markdown <==> Extension(filename) in {"md", "markdown"}
    ensures m == JavaScript <==> Extension(filename) !in {"ts", "tsx", "json", "md", "markdown"}
  {
    var ext := Extension(filename);
    if ext in {"js", "jsx", "mjs", "cjs"} then JavaScript
    else if ext in {"ts", "tsx"} then TypeScript
    else if ext == "json" then Json
    else if ext in {"md", "markdown"} then Markdown
    else JavaScript
  }

  /** The editor language agrees with the general table where both know the
      extension. */
  lemma MonacoAgreesWithTable(filename: string)
    ensures MonacoLanguageFromFilename(filename) == TypeScript ==> GetLanguageFromFilename(filename) in {"typescript", "tsx"}
    ensures MonacoLanguageFromFilename(filename) == Json ==> GetLanguageFromFilename(filename) == "json"
    ensures MonacoLanguageFromFilename(filename) == Markdown ==> GetLanguageFromFilename(filename) == "markdown"
  {
    EditorExtensionsInTable();
  }

  lemma EditorExtensionsInTable()
    ensures LanguageOrText("ts") == "typescript" && LanguageOrText("tsx") == "tsx"
    ensures LanguageOrText("json") == "json"
    ensures LanguageOrText("md") == "markdown" && LanguageOrText("markdown") == "markdown"
  {
  }

  /** `isSyntaxHighlightSupported`: the extension is in the table and not
      mapped to plain text (so `.txt` is not highlighted). */
  function IsSyntaxHighlightSupported(filename: string): (b: bool)
    ensures b <==> LanguageEntry(Extension(filename)).Some? && Extension(filename) != "txt"
  {
    OnlyTxtIsText(Extension(filename));
    GetLanguageFromFilename(filename) != "text"
  }

  /** The display names of `getLanguageDisplayName`. */
  function DisplayEntry(lang: string): Option<string> {
    match lang
    case "javascript" => Some("JavaScript")
    case "typescript" => Some("TypeScript")
    case "jsx" => Some("React JSX")
    case "tsx" => Some("React TSX")
    case "python" => Some("Python")
    case "java" => Some("Java")
    case "csharp" => Some("C#")
    case "cpp" => Some("C++")
    case "html" => Some("HTML")
    case "css" => Some("CSS")
    case "scss" => Some("SCSS")
    case "sass" => Some("Sass")
    case "markdown" => Some("Markdown")
    case "json" => Some("JSON")
    case "yaml" => Some("YAML")
    case "bash" => Some("Bash")
    case "sql" => Some("SQL")
    case "text" => Some("Text")
    case _ => None
  }

  /** `s.charAt(0).toUpperCase() + s.slice(1)`. */
  function Capitalize(s: string): (r: string)
    ensures |r| == |s| && (s != "" ==> r[0] == UpperChar(s[0]) && r[1..] == s[1..])
  {
    if s == "" then "" else [UpperChar(s[0])] + s[1..]
  }

  /** `getLanguageDisplayName`: the display table's name, else the language
      with its first letter capitalised. */
  function GetLanguageDisplayName(filename: string): (name: string)
    ensures var lang := GetLanguageFromFilename(filename);
      (DisplayEntry(lang).Some? ==> name == DisplayEntry(lang).value)
      && (DisplayEntry(lang).None? ==> name == Capitalize(lang))
    ensures name != ""
  {
    var lang := GetLanguageFromFilename(filename);
    if DisplayEntry(lang).Some? && DisplayEntry(lang).value != "" then DisplayEntry(lang).value else Capitalize(lang)
  }

  /** An unknown extension is shown as `Text`. */
  lemma DisplayNameOfUnknown(filename: string)
    requires LanguageEntry(Extension(filename)).None?
    ensures GetLanguageDisplayName(filename) == "Text"
  {
    assert GetLanguageFromFilename(filename) == "text";
    assert DisplayEntry("text") == Some("Text");
  }

  /** A display name never starts with a small ASCII letter: the table's
      names are capitalised, and any other language is capitalised here. */
  lemma DisplayNameCapitalised(filename: string)
    ensures var name := GetLanguageDisplayName(filename);
      !('a' <= name[0] <= 'z')
  {
    var lang := GetLanguageFromFilename(filename);
    if DisplayEntry(lang).None? {
      assert GetLanguageDisplayName(filename)[0] == UpperChar(lang[0]);
    }
  }
}
