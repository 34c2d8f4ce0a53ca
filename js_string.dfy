/** The few JavaScript string operations the application relies on,
    written out so that their edge cases are explicit: `trim`, ASCII
    `toLowerCase`/`toUpperCase`, `includes`, `startsWith`, `split(sep)`,
    `split(sep).pop()`, `parseInt(s, 10)` and the decimal rendering of an
    integer in a template literal. */
module JsString {
  import opened Wrappers

  /** The code points `String.prototype.trim` removes: WhiteSpace
      (tab, vertical tab, form feed, space, no-break space, BOM and the
      Zs category) and LineTerminator (LF, CR, LS, PS). */
  predicate IsWhitespace(c: char) {
    c == '\t' || c == '\n' || c == '\U{000B}' || c == '\U{000C}' || c == '\r' || c == ' '
    || c == '\U{00A0}' || c == '\U{1680}' || ('\U{2000}' <= c <= '\U{200A}')
    || c == '\U{2028}' || c == '\U{2029}' || c == '\U{202F}' || c == '\U{205F}'
    || c == '\U{3000}' || c == '\U{FEFF}'
  }

  /** `s` with its leading whitespace removed. */
  function TrimStart(s: string): (r: string)
    ensures |r| <= |s| && r == s[|s| - |r|..]
    ensures r == [] || !IsWhitespace(r[0])
    ensures forall i :: 0 <= i < |s| - |r| ==> IsWhitespace(s[i])
  {
    if |s| > 0 && IsWhitespace(s[0]) then TrimStart(s[1..]) else s
  }

  /** `s` with its trailing whitespace removed. */
  function TrimEnd(s: string): (r: string)
    ensures |r| <= |s| && r == s[..|r|]
    ensures r == [] || !IsWhitespace(r[|r| - 1])
    ensures forall i :: |r| <= i < |s| ==> IsWhitespace(s[i])
  {
    if |s| > 0 && IsWhitespace(s[|s| - 1]) then TrimEnd(s[..|s| - 1]) else s
  }

  /** `s.trim()`: a piece of `s` that neither starts nor ends with
      whitespace, with only whitespace cut away on either side
      (`TrimCutsOnlyBlanks`). */
  function Trim(s: string): (r: string)
    ensures |r| <= |s|
    ensures r == [] || (!IsWhitespace(r[0]) && !IsWhitespace(r[|r| - 1]))
    ensures r == [] ==> forall i :: 0 <= i < |s| ==> IsWhitespace(s[i])
  {
    TrimEnd(TrimStart(s))
  }

  /** `trimStart` drops exactly the leading blanks. */
  lemma TrimStartDropsBlanks(s: string)
    ensures TrimStart(s) == s[LeadingBlanks(s)..]
  {
    var t := TrimStart(s);
    var n := LeadingBlanks(s);
    assert n < |s| ==> !IsWhitespace(s[n]);
    assert |t| == |s| - n;
  }

  lemma SliceOfSuffix(s: string, n: nat, k: nat)
    requires n + k <= |s|
    ensures s[n..][..k] == s[n..n + k]
    ensures forall i :: n + k <= i < |s| ==> s[i] == s[n..][i - n]
  {
  }

  /** `trim` removes the leading blanks and a run of trailing blanks and
      nothing else: the result is the piece of `s` that starts right after
      its leading blanks, and everything after that piece is blank. */
  lemma TrimCutsOnlyBlanks(s: string)
    ensures LeadingBlanks(s) + |Trim(s)| <= |s|
    ensures Trim(s) == s[LeadingBlanks(s)..LeadingBlanks(s) + |Trim(s)|]
    ensures forall i :: 0 <= i < LeadingBlanks(s) ==> IsWhitespace(s[i])
    ensures forall i :: LeadingBlanks(s) + |Trim(s)| <= i < |s| ==> IsWhitespace(s[i])
  {
    var n := LeadingBlanks(s);
    TrimStartDropsBlanks(s);
    var t := s[n..];
    var r := TrimEnd(t);
    assert r == t[..|r|];
    SliceOfSuffix(s, n, |r|);
    forall i | n + |r| <= i < |s| ensures IsWhitespace(s[i]) {
      assert IsWhitespace(t[i - n]);
    }
  }

  /** How many whitespace characters `s` starts with. */
  function LeadingBlanks(s: string): (n: nat)
    ensures n <= |s|
    ensures forall i :: 0 <= i < n ==> IsWhitespace(s[i])
    ensures n == |s| || !IsWhitespace(s[n])
  {
    if |s| > 0 && IsWhitespace(s[0]) then 1 + LeadingBlanks(s[1..]) else 0
  }

  /** `s.length`: JavaScript counts UTF-16 code units, so a character
      outside the Basic Multilingual Plane counts twice. */
  function Utf16Len(s: string): (n: nat)
    ensures |s| <= n <= 2 * |s|
    ensures n == 0 <==> s == []
  {
    if s == [] then 0 else Utf16Len(s[..|s| - 1]) + (if s[|s| - 1] as int > 0xFFFF then 2 else 1)
  }

  /** The JavaScript length adds up over concatenation. */
  lemma {:induction false} Utf16LenConcat(a: string, b: string)
    ensures Utf16Len(a + b) == Utf16Len(a) + Utf16Len(b)
    decreases |b|
  {
    if b == [] {
      assert a + b == a;
    } else {
      var c := b[..|b| - 1];
      assert (a + b)[..|a + b| - 1] == a + c;
      Utf16LenConcat(a, c);
    }
  }

  /** On text inside the Basic Multilingual Plane the JavaScript length is
      the number of characters. */
  lemma {:induction false} Utf16LenBmp(s: string)
    requires forall i :: 0 <= i < |s| ==> s[i] as int <= 0xFFFF
    ensures Utf16Len(s) == |s|
  {
    if s != [] {
      Utf16LenBmp(s[..|s| - 1]);
    }
  }

  /** `!s.trim()`: the string is empty or all whitespace (the two readings
      agree by `BlankIffTrimEmpty`). */
  predicate IsBlank(s: string) {
    forall i :: 0 <= i < |s| ==> IsWhitespace(s[i])
  }

  lemma TrimIsInfix(s: string)
    ensures Includes(s, Trim(s))
  {
    var t := TrimStart(s);
    assert OccursAt(s, Trim(s), |s| - |t|);
  }

  /** `!s.trim()` holds exactly for the blank strings. */
  lemma BlankIffTrimEmpty(s: string)
    ensures IsBlank(s) <==> Trim(s) == ""
  {
  }

  lemma {:induction false} TrimIdempotent(s: string)
    ensures Trim(Trim(s)) == Trim(s)
  {
    var t := Trim(s);
    if t != [] {
      assert TrimStart(t) == t;
      assert TrimEnd(t) == t;
    }
  }

  /** A string that neither starts nor ends with whitespace is its own trim. */
  lemma TrimOfTrimmed(s: string)
    requires s == [] || (!IsWhitespace(s[0]) && !IsWhitespace(s[|s| - 1]))
    ensures Trim(s) == s
  {
  }

  function LowerChar(c: char): char {
    if 'A' <= c <= 'Z' then (c as int + 32) as char else c
  }

  function UpperChar(c: char): char {
    if 'a' <= c <= 'z' then (c as int - 32) as char else c
  }

  /** `s.toLowerCase()` on the ASCII letters. */
  function ToLower(s: string): (r: string)
    ensures |r| == |s|
    ensures forall i :: 0 <= i < |s| ==> r[i] == LowerChar(s[i])
  {
    seq(|s|, i requires 0 <= i < |s| => LowerChar(s[i]))
  }

  /** `s.toUpperCase()` on the ASCII letters. */
  function ToUpper(s: string): (r: string)
    ensures |r| == |s|
    ensures forall i :: 0 <= i < |s| ==> r[i] == UpperChar(s[i])
  {
    seq(|s|, i requires 0 <= i < |s| => UpperChar(s[i]))
  }

  predicate StartsWith(s: string, prefix: string) {
    |prefix| <= |s| && s[..|prefix|] == prefix
  }

  predicate OccursAt(s: string, t: string, i: nat) {
    i + |t| <= |s| && s[i..i + |t|] == t
  }

  /** `s.includes(t)`. */
  predicate Includes(s: string, t: string) {
    exists i: nat :: i <= |s| && OccursAt(s, t, i)
  }

  lemma IncludesConcat(a: string, t: string, b: string)
    ensures Includes(a + t + b, t)
  {
    assert OccursAt(a + t + b, t, |a|);
  }

  /** `s.split(sep).pop()`: the text after the last `sep`, or all of `s`. */
  function LastSegment(s: string, sep: char): (r: string)
    ensures |r| <= |s| && r == s[|s| - |r|..]
    ensures sep !in r
    ensures |r| < |s| ==> s[|s| - |r| - 1] == sep
  {
    if s == [] || s[|s| - 1] == sep then [] else LastSegment(s[..|s| - 1], sep) + [s[|s| - 1]]
  }

  /** The last segment of `a + [sep] + e` is `e` when `e` has no separator. */
  lemma LastSegmentAfter(a: string, sep: char, e: string)
    requires sep !in e
    ensures LastSegment(a + [sep] + e, sep) == e
  {
    var s := a + [sep] + e;
    var r := LastSegment(s, sep);
    assert s[|a|] == sep && s[|a| + 1..] == e;
  }

  /** `s.split(sep)`: the pieces between separators, empty ones included. */
  function Split(s: string, sep: char): (r: seq<string>)
    ensures |r| > 0
    ensures forall k :: 0 <= k < |r| ==> sep !in r[k]
  {
    if s == [] then [""]
    else
      var rest := Split(s[1..], sep);
      if s[0] == sep then [""] + rest else [[s[0]] + rest[0]] + rest[1..]
  }

  lemma {:induction false} SplitJoins(s: string, sep: char)
    ensures Join(Split(s, sep), sep) == s
  {
    if s != [] {
      SplitJoins(s[1..], sep);
      var rest := Split(s[1..], sep);
      if s[0] != sep {
        assert Join(rest, sep) == rest[0] + (if |rest| == 1 then [] else [sep] + Join(rest[1..], sep));
      }
    }
  }

  /** A string without the separator is a single piece. */
  lemma {:induction false} SplitNoSep(s: string, sep: char)
    requires sep !in s
    ensures Split(s, sep) == [s]
  {
    if s != [] {
      assert sep !in s[1..] by {
        forall k | 0 <= k < |s[1..]| ensures s[1..][k] != sep { assert s[1..][k] == s[k + 1]; }
      }
      SplitNoSep(s[1..], sep);
      assert [s[0]] + s[1..] == s;
    }
  }

  /** The text before the first separator is the first piece. */
  lemma {:induction false} SplitAt(a: string, b: string, sep: char)
    requires sep !in a
    ensures Split(a + [sep] + b, sep) == [a] + Split(b, sep)
  {
    if a == [] {
      assert a + [sep] + b == [sep] + b;
      assert ([sep] + b)[1..] == b;
    } else {
      SplitAt(a[1..], b, sep);
      assert (a + [sep] + b)[1..] == a[1..] + [sep] + b;
      assert [a[0]] + a[1..] == a;
    }
  }

  /** `parts.join(sep)`; the partner of `Split`. */
  function Join(parts: seq<string>, sep: char): string {
    if parts == [] then ""
    else if |parts| == 1 then parts[0]
    else parts[0] + [sep] + Join(parts[1..], sep)
  }

  function DigitChar(d: nat): char
    requires d < 10
  {
    "0123456789"[d]
  }

  predicate IsDigit(c: char) {
    '0' <= c <= '9'
  }

  /** The decimal digits of `n`, no leading zero. */
  function NatToString(n: nat): (r: string)
    ensures |r| > 0
    ensures forall i :: 0 <= i < |r| ==> IsDigit(r[i])
    ensures r[0] == '0' ==> n == 0
  {
    if n < 10 then [DigitChar(n)] else NatToString(n / 10) + [DigitChar(n % 10)]
  }

  /** `${n}` for an integer JavaScript number. */
  function IntToString(n: int): (r: string)
    ensures |r| > 0 && (IsDigit(r[0]) || r[0] == '-')
    ensures n >= 0 <==> IsDigit(r[0])
  {
    if n < 0 then "-" + NatToString(-n) else NatToString(n)
  }

  function DigitValue(c: char): nat
    requires IsDigit(c)
  {
    c as int - '0' as int
  }

  /** Reading the digits back; the partner of `NatToString`. */
  function DigitsValue(s: string): nat
    requires forall i :: 0 <= i < |s| ==> IsDigit(s[i])
  {
    if s == [] then 0 else 10 * DigitsValue(s[..|s| - 1]) + DigitValue(s[|s| - 1])
  }

  lemma {:induction false} NatToStringRoundTrip(n: nat)
    ensures DigitsValue(NatToString(n)) == n
  {
    if n >= 10 {
      NatToStringRoundTrip(n / 10);
      var s := NatToString(n);
      assert s[..|s| - 1] == NatToString(n / 10);
    }
  }

  lemma NatToStringInjective(m: nat, n: nat)
    requires NatToString(m) == NatToString(n)
    ensures m == n
  {
    NatToStringRoundTrip(m);
    NatToStringRoundTrip(n);
  }

  lemma IntToStringInjective(m: int, n: int)
    requires IntToString(m) == IntToString(n)
    ensures m == n
  {
    if m < 0 && n < 0 {
      assert NatToString(-m) == IntToString(m)[1..];
      NatToStringInjective(-m, -n);
    } else if m >= 0 && n >= 0 {
      NatToStringInjective(m, n);
    }
  }

  /** The index of the first `c` in `s`. */
  function FirstIndex(s: string, c: char): (k: nat)
    requires c in s
    ensures k < |s| && s[k] == c && forall i :: 0 <= i < k ==> s[i] != c
  {
    if s[0] == c then 0
    else
      assert c in s[1..] by {
        var j :| 0 <= j < |s| && s[j] == c;
        assert s[1..][j - 1] == c;
      }
      1 + FirstIndex(s[1..], c)
  }

  /** `s.replace(c, '')` for a one-character string pattern: the first `c`
      removed (`RemovesFirst`). */
  function RemoveFirst(s: string, c: char): (r: string)
    ensures c !in s ==> r == s
    ensures c in s ==> |r| == |s| - 1
  {
    if s == [] then []
    else if s[0] == c then s[1..]
    else [s[0]] + RemoveFirst(s[1..], c)
  }

  /** Only the `c` after a `c`-free head goes. */
  lemma {:induction false} RemoveFirstAfter(a: string, c: char, b: string)
    requires c !in a
    ensures RemoveFirst(a + [c] + b, c) == a + b
    decreases |a|
  {
    var s := a + [c] + b;
    if a == [] {
      assert s[0] == c && s[1..] == b;
    } else {
      var t := a[1..] + [c] + b;
      assert s[0] == a[0] && s[1..] == t;
      assert RemoveFirst(s, c) == [a[0]] + RemoveFirst(t, c);
      assert c !in a[1..] by {
        assert forall i :: 0 <= i < |a| - 1 ==> a[1..][i] == a[i + 1];
      }
      RemoveFirstAfter(a[1..], c, b);
      assert [a[0]] + (a[1..] + b) == a + b;
    }
  }

  /** It is the first `c` of `s` that goes, and nothing else. */
  lemma RemovesFirst(s: string, c: char)
    requires c in s
    ensures RemoveFirst(s, c) == s[..FirstIndex(s, c)] + s[FirstIndex(s, c) + 1..]
  {
    var k := FirstIndex(s, c);
    assert s == s[..k] + [c] + s[k + 1..];
    RemoveFirstAfter(s[..k], c, s[k + 1..]);
  }

  /** The longest prefix of `s` made of decimal digits. */
  function LeadingDigits(s: string): (r: string)
    ensures |r| <= |s| && r == s[..|r|]
    ensures forall i :: 0 <= i < |r| ==> IsDigit(s[i])
    ensures |r| < |s| ==> !IsDigit(s[|r|])
  {
    if s != [] && IsDigit(s[0]) then [s[0]] + LeadingDigits(s[1..]) else []
  }

  lemma {:induction false} LeadingDigitsOfDigits(s: string)
    requires forall i :: 0 <= i < |s| ==> IsDigit(s[i])
    ensures LeadingDigits(s) == s
  {
    if s != [] {
      LeadingDigitsOfDigits(s[1..]);
    }
  }

  /** The value of the longest run of digits at the start of `body`;
      `None` when there is none. */
  function Magnitude(body: string): (m: Option<nat>)
    ensures m.None? <==> body == [] || !IsDigit(body[0])
    ensures m.Some? ==> m.value == DigitsValue(LeadingDigits(body))
  {
    var digits := LeadingDigits(body);
    if digits == [] then None else Some(DigitsValue(digits))
  }

  /** `parseInt` once the leading whitespace is gone: one optional sign,
      then the magnitude. */
  function ParseSigned(t: string): Option<int> {
    if t != [] && t[0] == '-' then
      match Magnitude(t[1..])
      case None => None
      case Some(m) => Some(-(m as int))
    else if t != [] && t[0] == '+' then
      match Magnitude(t[1..])
      case None => None
      case Some(m) => Some(m as int)
    else
      match Magnitude(t)
      case None => None
      case Some(m) => Some(m as int)
  }

  /** `parseInt(s, 10)` on the values it can produce exactly: leading
      whitespace is skipped, one sign is read, then the longest run of
      digits; `None` stands for `NaN`, when that run is empty. */
  function ParseInt(s: string): (r: Option<int>)
    ensures var t := TrimStart(s);
      var body := if t != [] && (t[0] == '-' || t[0] == '+') then t[1..] else t;
      (r.None? <==> body == [] || !IsDigit(body[0]))
      && (r.Some? && !(t != [] && t[0] == '-') ==> r.value >= 0)
      && (r.Some? && t != [] && t[0] == '-' ==> r.value <= 0)
  {
    ParseSigned(TrimStart(s))
  }

  lemma MagnitudeOfDigits(d: string)
    requires d != [] && forall i :: 0 <= i < |d| ==> IsDigit(d[i])
    ensures Magnitude(d) == Some(DigitsValue(d))
  {
    LeadingDigitsOfDigits(d);
  }

  /** The digit run stops at the first character that is not a digit. */
  lemma {:induction false} LeadingDigitsThen(d: string, tail: string)
    requires forall i :: 0 <= i < |d| ==> IsDigit(d[i])
    requires tail == [] || !IsDigit(tail[0])
    ensures LeadingDigits(d + tail) == d
  {
    if d == [] {
      assert d + tail == tail;
    } else {
      assert (d + tail)[0] == d[0] && (d + tail)[1..] == d[1..] + tail;
      LeadingDigitsThen(d[1..], tail);
    }
  }

  /** `parseInt` reads the digits up to the first other character and
      ignores the rest: `parseInt("3x", 10)` is 3. */
  lemma ParseIntStopsAtNonDigit(d: string, tail: string)
    requires d != [] && forall i :: 0 <= i < |d| ==> IsDigit(d[i])
    requires tail == [] || !IsDigit(tail[0])
    ensures ParseInt(d + tail) == Some(DigitsValue(d) as int)
  {
    var s := d + tail;
    MagnitudeThen(d, tail);
    assert Magnitude(s) == Some(DigitsValue(d));
    assert s[0] == d[0];
    ParseIntOfDigitStart(s);
  }

  /** Text that starts with a digit parses as its magnitude. */
  lemma ParseIntOfDigitStart(s: string)
    requires s != [] && IsDigit(s[0])
    ensures Magnitude(s).Some? && ParseInt(s) == Some(Magnitude(s).value as int)
  {
    assert !IsWhitespace(s[0]) && s[0] != '-' && s[0] != '+';
    TrimStartKeeps(s);
    assert ParseInt(s) == ParseSigned(s);
  }

  lemma MagnitudeThen(d: string, tail: string)
    requires d != [] && forall i :: 0 <= i < |d| ==> IsDigit(d[i])
    requires tail == [] || !IsDigit(tail[0])
    ensures Magnitude(d + tail) == Some(DigitsValue(d))
  {
    LeadingDigitsThen(d, tail);
  }

  lemma TrimStartKeeps(s: string)
    requires s == [] || !IsWhitespace(s[0])
    ensures TrimStart(s) == s
  {
  }

  lemma ParseIntOfDigits(s: string)
    requires s != [] && forall i :: 0 <= i < |s| ==> IsDigit(s[i])
    ensures ParseInt(s) == Some(DigitsValue(s) as int)
  {
    assert IsDigit(s[0]);
    assert !IsWhitespace(s[0]) && s[0] != '-' && s[0] != '+';
    TrimStartKeeps(s);
    assert ParseInt(s) == ParseSigned(s);
    MagnitudeOfDigits(s);
  }

  lemma ParseIntOfNat(m: nat)
    ensures ParseInt(NatToString(m)) == Some(m as int)
  {
    ParseIntOfDigits(NatToString(m));
    NatToStringRoundTrip(m);
  }

  lemma ParseSignedNegative(d: string)
    requires d != [] && forall i :: 0 <= i < |d| ==> IsDigit(d[i])
    ensures ParseSigned("-" + d) == Some(-(DigitsValue(d) as int))
  {
    var s := "-" + d;
    assert s != [] && s[0] == '-' && s[1..] == d;
    MagnitudeOfDigits(d);
    assert Magnitude(s[1..]) == Some(DigitsValue(d));
  }

  lemma ParseIntOfSignedDigits(d: string)
    requires d != [] && forall i :: 0 <= i < |d| ==> IsDigit(d[i])
    ensures ParseInt("-" + d) == Some(-(DigitsValue(d) as int))
  {
    var s := "-" + d;
    assert !IsWhitespace(s[0]);
    TrimStartKeeps(s);
    ParseSignedNegative(d);
  }

  lemma ParseIntOfNegative(m: nat)
    ensures ParseInt("-" + NatToString(m)) == Some(-(m as int))
  {
    ParseIntOfSignedDigits(NatToString(m));
    NatToStringRoundTrip(m);
  }

  /** Reading back the rendering of an integer gives the integer. */
  lemma ParseIntRoundTrip(n: int)
    ensures ParseInt(IntToString(n)) == Some(n)
  {
    if n < 0 {
      assert IntToString(n) == "-" + NatToString(-n);
      ParseIntOfNegative(-n);
    } else {
      assert IntToString(n) == NatToString(n);
      ParseIntOfNat(n);
    }
  }
}
