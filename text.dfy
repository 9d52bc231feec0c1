/** The parts of Kotlin's standard library that the codecs are built from,
    on strings as sequences of characters: `split`, `joinToString`,
    `lines`, `trim`, `isBlank`, `toInt`, `toLong`, `toIntOrNull`,
    `toBoolean`, `Int.toString`, `substringAfterLast` and `File.extension`. */
module Text {
  import opened Options

  const MIN_INT: int := -0x8000_0000
  const MAX_INT: int := 0x7FFF_FFFF
  const MIN_LONG: int := -0x8000_0000_0000_0000
  const MAX_LONG: int := 0x7FFF_FFFF_FFFF_FFFF

  /** The values a Kotlin `Int` can hold. */
  predicate IsInt32(n: int) {
    MIN_INT <= n <= MAX_INT
  }

  /** The values a Kotlin `Long` can hold. */
  predicate IsInt64(n: int) {
    MIN_LONG <= n <= MAX_LONG
  }

  // ---------------------------------------------------------------------
  // split / joinToString with a one-character delimiter
  // ---------------------------------------------------------------------

  /** `s.split(sep)`: the pieces between delimiters, empty pieces included;
      splitting the empty string gives one empty piece. */
  function Split(s: string, sep: char): (parts: seq<string>)
    ensures |parts| >= 1
    ensures forall i :: 0 <= i < |parts| ==> sep !in parts[i]
    decreases |s|
  {
    if s == [] then [""]
    else
      var rest := Split(s[1..], sep);
      if s[0] == sep then [""] + rest
      else [[s[0]] + rest[0]] + rest[1..]
  }

  /** `parts.joinToString(sep)`. */
  function Join(parts: seq<string>, sep: char): string
  {
    if |parts| == 0 then ""
    else if |parts| == 1 then parts[0]
    else parts[0] + [sep] + Join(parts[1..], sep)
  }

  /** Splitting undoes joining. */
  lemma {:induction false} JoinOfSplit(s: string, sep: char)
    ensures Join(Split(s, sep), sep) == s
    decreases |s|
  {
    if s != [] {
      JoinOfSplit(s[1..], sep);
      var rest := Split(s[1..], sep);
      if s[0] == sep {
        assert Split(s, sep) == [""] + rest;
        assert ([""] + rest)[1..] == rest;
        assert s == [sep] + s[1..];
      } else if |rest| == 1 {
        assert Split(s, sep) == [[s[0]] + rest[0]];
        assert s == [s[0]] + s[1..];
      } else {
        var parts := Split(s, sep);
        assert parts == [[s[0]] + rest[0]] + rest[1..];
        assert parts[1..] == rest[1..];
        assert Join(rest, sep) == rest[0] + [sep] + Join(rest[1..], sep);
        assert s == [s[0]] + s[1..];
      }
    }
  }

  /** A string without the delimiter is a single piece. */
  lemma {:induction false} SplitWithoutDelimiter(s: string, sep: char)
    requires sep !in s
    ensures Split(s, sep) == [s]
    decreases |s|
  {
    if s != [] {
      SplitWithoutDelimiter(s[1..], sep);
      assert [s[0]] + s[1..] == s;
    }
  }

  /** A delimiter-free first piece is split off at the first delimiter. */
  lemma {:induction false} SplitAtDelimiter(p: string, sep: char, rest: string)
    requires sep !in p
    ensures Split(p + [sep] + rest, sep) == [p] + Split(rest, sep)
    decreases |p|
  {
    var s := p + [sep] + rest;
    if p == [] {
      assert s[1..] == rest;
    } else {
      assert s[1..] == p[1..] + [sep] + rest;
      SplitAtDelimiter(p[1..], sep, rest);
      assert [p[0]] + p[1..] == p;
    }
  }

  /** Joining and then splitting gives back the pieces, provided there is at
      least one piece and none of them contains the delimiter. */
  lemma {:induction false} SplitOfJoin(parts: seq<string>, sep: char)
    requires |parts| >= 1
    requires forall i :: 0 <= i < |parts| ==> sep !in parts[i]
    ensures Split(Join(parts, sep), sep) == parts
    decreases |parts|
  {
    if |parts| == 1 {
      SplitWithoutDelimiter(parts[0], sep);
    } else {
      SplitOfJoin(parts[1..], sep);
      SplitAtDelimiter(parts[0], sep, Join(parts[1..], sep));
      assert [parts[0]] + parts[1..] == parts;
    }
  }

  /** The joined string is at least as long as its first piece. */
  lemma {:induction false} JoinLength(parts: seq<string>, sep: char)
    requires |parts| >= 1
    ensures |Join(parts, sep)| >= |parts[0]|
  {
  }

  // ---------------------------------------------------------------------
  // filter { it.isNotEmpty() }
  // ---------------------------------------------------------------------

  /** `xs.filter { it.isNotEmpty() }`. */
  function NonEmpty(xs: seq<string>): (r: seq<string>)
    ensures forall x :: x in r <==> x in xs && x != ""
    ensures |r| <= |xs|
  {
    if xs == [] then []
    else (if xs[0] == "" then [] else [xs[0]]) + NonEmpty(xs[1..])
  }

  /** The filter keeps a list with no empty token as it is. */
  lemma {:induction false} NonEmptyKeeps(xs: seq<string>)
    requires forall x :: x in xs ==> x != ""
    ensures NonEmpty(xs) == xs
  {
    if xs != [] {
      assert forall x :: x in xs[1..] ==> x in xs;
      assert xs[0] in xs;
      NonEmptyKeeps(xs[1..]);
      assert [xs[0]] + xs[1..] == xs;
    }
  }

  // ---------------------------------------------------------------------
  // lines()
  // ---------------------------------------------------------------------

  predicate IsLineBreak(c: char) {
    c == '\n' || c == '\r'
  }

  predicate NoLineBreak(s: string) {
    '\n' !in s && '\r' !in s
  }

  /** `s.lines()`: the text split at "\r\n", "\n" and "\r" (a "\r\n" pair
      is one break); a trailing break leaves an empty last line. */
  function Lines(s: string): (lines: seq<string>)
    ensures |lines| >= 1
    ensures forall i :: 0 <= i < |lines| ==> NoLineBreak(lines[i])
    decreases |s|
  {
    if s == [] then [""]
    else if s[0] == '\n' then [""] + Lines(s[1..])
    else if s[0] == '\r' then
      if |s| >= 2 && s[1] == '\n' then [""] + Lines(s[2..]) else [""] + Lines(s[1..])
    else
      var rest := Lines(s[1..]);
      [[s[0]] + rest[0]] + rest[1..]
  }

  /** A character the text does not hold is in none of its lines. */
  lemma {:induction false} LinesChars(s: string, c: char)
    requires c !in s
    ensures forall i :: 0 <= i < |Lines(s)| ==> c !in Lines(s)[i]
    decreases |s|
  {
    if s != [] {
      if s[0] == '\r' && |s| >= 2 && s[1] == '\n' {
        assert forall x :: x in s[2..] ==> x in s;
        LinesChars(s[2..], c);
      } else {
        assert forall x :: x in s[1..] ==> x in s;
        LinesChars(s[1..], c);
      }
      var lines := Lines(s);
      if s[0] != '\n' && s[0] != '\r' {
        var rest := Lines(s[1..]);
        forall i | 0 <= i < |lines|
          ensures c !in lines[i]
        {
          if i == 0 {
            assert lines[0] == [s[0]] + rest[0];
          } else {
            assert lines[i] == rest[i];
          }
        }
      }
    }
  }

  /** A line ended by "\n" is read back as one line. */
  lemma {:induction false} LinesAfterLine(l: string, rest: string)
    requires NoLineBreak(l)
    ensures Lines(l + "\n" + rest) == [l] + Lines(rest)
    decreases |l|
  {
    var s := l + "\n" + rest;
    if l == [] {
      assert s[1..] == rest;
    } else {
      assert s[1..] == l[1..] + "\n" + rest;
      LinesAfterLine(l[1..], rest);
      assert [l[0]] + l[1..] == l;
    }
  }

  // ---------------------------------------------------------------------
  // split(sep, limit = 2)
  // ---------------------------------------------------------------------

  /** The position of the first `c` in `s`. */
  function IndexOf(s: string, c: char): (i: nat)
    requires c in s
    ensures i < |s| && s[i] == c
    ensures forall j :: 0 <= j < i ==> s[j] != c
  {
    if s[0] == c then 0 else 1 + IndexOf(s[1..], c)
  }

  /** `s.split(c, limit = 2)` on a string that contains `c`: what precedes
      the first `c`, and everything after it. */
  function SplitAtFirst(s: string, c: char): (string, string)
    requires c in s
  {
    var i := IndexOf(s, c);
    (s[..i], s[i + 1..])
  }

  /** Only the first delimiter splits: the second part may contain more. */
  lemma SplitAtFirstOf(key: string, c: char, value: string)
    requires c !in key
    ensures c in key + [c] + value
    ensures SplitAtFirst(key + [c] + value, c) == (key, value)
  {
    var s := key + [c] + value;
    assert s[|key|] == c;
    var i := IndexOf(s, c);
    assert forall j :: 0 <= j < |key| ==> s[j] == key[j];
    assert i == |key|;
    assert s[..i] == key;
    assert s[i + 1..] == value;
  }

  // ---------------------------------------------------------------------
  // isBlank / trim / startsWith
  // ---------------------------------------------------------------------

  /** Kotlin's `Char.isWhitespace()`: Java's `isWhitespace` or `isSpaceChar`. */
  predicate IsWhitespace(c: char) {
    || c == ' '
    || ('\t' <= c <= '\r')
    || ('\U{1C}' <= c <= '\U{1F}')
    || c == '\U{A0}'
    || c == '\U{1680}'
    || ('\U{2000}' <= c <= '\U{200A}')
    || c == '\U{2028}'
    || c == '\U{2029}'
    || c == '\U{202F}'
    || c == '\U{205F}'
    || c == '\U{3000}'
  }

  /** `s.isBlank()`. */
  predicate IsBlank(s: string) {
    forall i :: 0 <= i < |s| ==> IsWhitespace(s[i])
  }

  function TrimStart(s: string): (r: string)
    ensures r == [] || !IsWhitespace(r[0])
    ensures |r| <= |s| && r == s[|s| - |r|..]
  {
    if s != [] && IsWhitespace(s[0]) then TrimStart(s[1..]) else s
  }

  function TrimEnd(s: string): (r: string)
    ensures r == [] || !IsWhitespace(r[|r| - 1])
    ensures |r| <= |s| && r == s[..|r|]
  {
    if s != [] && IsWhitespace(s[|s| - 1]) then TrimEnd(s[..|s| - 1]) else s
  }

  /** `s.trim()`. */
  function Trim(s: string): string {
    TrimEnd(TrimStart(s))
  }

  /** `s.startsWith(c)` for a one-character prefix. */
  predicate StartsWith(s: string, c: char) {
    |s| > 0 && s[0] == c
  }

  // ---------------------------------------------------------------------
  // Int.toString / toInt / toLong / toIntOrNull / toBoolean
  // ---------------------------------------------------------------------

  predicate IsDigit(c: char) {
    '0' <= c <= '9'
  }

  predicate AllDigits(s: string) {
    forall i :: 0 <= i < |s| ==> IsDigit(s[i])
  }

  function DigitChar(d: nat): (c: char)
    requires d < 10
    ensures IsDigit(c)
  {
    (48 + d) as char
  }

  /** The decimal numeral of a natural number, most significant digit first. */
  function NatToString(n: nat): (s: string)
    ensures |s| >= 1 && AllDigits(s)
    decreases n
  {
    if n < 10 then [DigitChar(n)] else NatToString(n / 10) + [DigitChar(n % 10)]
  }

  /** `n.toString()` for an `Int` or a `Long`. */
  function IntToString(n: int): string {
    if n < 0 then "-" + NatToString(-n) else NatToString(n)
  }

  /** The number a string of decimal digits denotes. */
  function DigitsValue(s: string): nat
    requires AllDigits(s)
  {
    if s == [] then 0 else DigitsValue(s[..|s| - 1]) * 10 + (s[|s| - 1] as int - 48)
  }

  /** The numerals accepted by `Integer.parseInt` and `Long.parseLong`: an
      optional sign and at least one digit; the range check is left to the
      callers below. */
  function ParseInteger(s: string): Option<int> {
    if |s| > 0 && (s[0] == '-' || s[0] == '+') then
      if |s| > 1 && AllDigits(s[1..]) then
        var magnitude: int := DigitsValue(s[1..]);
        Some(if s[0] == '-' then -magnitude else magnitude)
      else None
    else if |s| > 0 && AllDigits(s) then Some(DigitsValue(s))
    else None
  }

  /** `s.toInt()` (None where it throws) and equally `s.toIntOrNull()`. */
  function ToInt(s: string): (r: Option<int>)
    ensures r.Some? ==> IsInt32(r.value)
  {
    match ParseInteger(s)
    case Some(v) => if IsInt32(v) then Some(v) else None
    case None => None
  }

  /** `s.toLong()`, None where it throws. */
  function ToLong(s: string): (r: Option<int>)
    ensures r.Some? ==> IsInt64(r.value)
  {
    match ParseInteger(s)
    case Some(v) => if IsInt64(v) then Some(v) else None
    case None => None
  }

  lemma {:induction false} NatToStringValue(n: nat)
    ensures DigitsValue(NatToString(n)) == n
    decreases n
  {
    var s := NatToString(n);
    if n >= 10 {
      NatToStringValue(n / 10);
      assert s[..|s| - 1] == NatToString(n / 10);
    }
  }

  /** Printing a number and parsing it back gives the number. */
  lemma ParseIntegerOfToString(n: int)
    ensures ParseInteger(IntToString(n)) == Some(n)
    ensures IsInt32(n) ==> ToInt(IntToString(n)) == Some(n)
    ensures IsInt64(n) ==> ToLong(IntToString(n)) == Some(n)
  {
    var s := IntToString(n);
    if n < 0 {
      NatToStringValue(-n);
      assert s[1..] == NatToString(-n);
    } else {
      NatToStringValue(n);
      assert IsDigit(s[0]);
    }
  }

  /** Printed numbers never contain the delimiters the codecs use. */
  lemma IntToStringChars(n: int)
    ensures |IntToString(n)| >= 1
    ensures forall c :: c in IntToString(n) ==> c == '-' || IsDigit(c)
    ensures NoLineBreak(IntToString(n)) && ',' !in IntToString(n)
  {
  }

  function AsciiLower(c: char): char {
    if 'A' <= c <= 'Z' then (c as int + 32) as char else c
  }

  /** `s.toBoolean()`: true exactly for "true" in any letter case. */
  function ToBoolean(s: string): (b: bool)
    ensures b ==> |s| == 4
  {
    |s| == 4 && AsciiLower(s[0]) == 't' && AsciiLower(s[1]) == 'r'
    && AsciiLower(s[2]) == 'u' && AsciiLower(s[3]) == 'e'
  }

  /** `b.toString()`. */
  function BoolToString(b: bool): (s: string)
    ensures ToBoolean(s) == b
    ensures |s| >= 4
  {
    if b then "true" else "false"
  }

  // ---------------------------------------------------------------------
  // substringAfterLast / File.name / File.extension
  // ---------------------------------------------------------------------

  /** What follows the last `c` in `s`, or None when `s` has no `c`. */
  function AfterLast(s: string, c: char): (r: Option<string>)
    ensures r.Some? ==> |r.value| < |s|
  {
    if s == [] then None
    else if s[|s| - 1] == c then Some("")
    else
      match AfterLast(s[..|s| - 1], c)
      case None => None
      case Some(t) => Some(t + [s[|s| - 1]])
  }

  /** There is a last `c` exactly when `s` holds a `c`; what follows it is
      the whole tail of `s` after that `c`, and holds no `c`. */
  lemma {:induction false} AfterLastSplits(s: string, c: char)
    ensures AfterLast(s, c).Some? <==> c in s
    ensures AfterLast(s, c).Some? ==>
      var v := AfterLast(s, c).value;
      s[|s| - |v| - 1] == c && v == s[|s| - |v|..] && c !in v
    decreases |s|
  {
    if s != [] && s[|s| - 1] != c {
      var init := s[..|s| - 1];
      AfterLastSplits(init, c);
      assert s == init + [s[|s| - 1]];
    }
  }

  /** Appending a character other than `c` extends the text after the
      last `c`, if there is one. */
  lemma AfterLastPush(s: string, x: char, c: char)
    requires x != c
    ensures AfterLast(s + [x], c) == if AfterLast(s, c).None? then None else Some(AfterLast(s, c).value + [x])
  {
    var pushed := s + [x];
    assert pushed[..|pushed| - 1] == s;
  }

  /** Appending text without `c` does not move the last `c`. */
  lemma {:induction false} AfterLastAppend(s: string, t: string, c: char)
    requires c !in t
    ensures AfterLast(s, c).None? ==> AfterLast(s + t, c).None?
    ensures AfterLast(s, c).Some? ==> AfterLast(s + t, c) == Some(AfterLast(s, c).value + t)
    decreases |t|
  {
    if t == [] {
      assert s + t == s;
      if AfterLast(s, c).Some? {
        assert AfterLast(s, c).value + t == AfterLast(s, c).value;
      }
    } else {
      var t', x := t[..|t| - 1], t[|t| - 1];
      assert t == t' + [x];
      AfterLastAppend(s, t', c);
      AfterLastPush(s + t', x, c);
      assert s + t == (s + t') + [x];
      match AfterLast(s, c) {
        case None =>
        case Some(u) =>
          assert (u + t') + [x] == u + t;
      }
    }
  }

  /** `File(path).name`: the last path component. */
  function FileName(path: string): string {
    AfterLast(path, '/').GetOr(path)
  }

  /** `File(path).extension`: what follows the last dot of the name, or "". */
  function FileExtension(path: string): string {
    AfterLast(FileName(path), '.').GetOr("")
  }

  /** A name ending in "." and a dot-free suffix has that suffix as the
      text after its last dot. */
  lemma AfterLastDot(name: string, ext: string)
    requires '.' !in ext
    ensures AfterLast(name + ['.'] + ext, '.') == Some(ext)
  {
    var dotted := name + ['.'];
    assert AfterLast(dotted, '.') == Some("");
    AfterLastAppend(dotted, ext, '.');
    assert "" + ext == ext;
  }

  /** Appending text without slashes extends the last path component. */
  lemma FileNameAppend(path: string, suffix: string)
    requires '/' !in suffix
    ensures FileName(path + suffix) == AfterLast(path, '/').GetOr(path) + suffix
  {
    AfterLastAppend(path, suffix, '/');
  }

  /** Appending "." and a suffix without dots or slashes makes that suffix
      the extension, whatever the path before it. */
  lemma ExtensionOfAppended(path: string, ext: string)
    requires '.' !in ext && '/' !in ext
    ensures FileExtension(path + ['.'] + ext) == ext
  {
    var suffix := ['.'] + ext;
    var full := path + ['.'] + ext;
    var q := AfterLast(path, '/').GetOr(path);
    assert FileName(full) == q + ['.'] + ext by {
      assert full == path + suffix;
      FileNameAppend(path, suffix);
      assert q + suffix == q + ['.'] + ext;
    }
    AfterLastDot(q, ext);
  }
}
