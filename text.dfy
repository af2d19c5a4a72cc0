/** Character and string helpers with the meaning Python's str methods give
    them in the player: decimal digits, `strip()`, `split('\n')`,
    `splitlines()`, and decimal rendering of integers. */
module Text {

  // ---------------------------------------------------------------------
  // Decimal digits
  // ---------------------------------------------------------------------

  /** An ASCII decimal digit (the model reads only ASCII digits). */
  predicate IsDigit(c: char) {
    '0' <= c <= '9'
  }

  predicate AllDigits(s: string) {
    forall i :: 0 <= i < |s| ==> IsDigit(s[i])
  }

  /** The value of a decimal digit (0 for any other character, which the
      callers never pass). */
  function DigitValue(c: char): (d: nat)
    ensures d < 10
  {
    if IsDigit(c) then (c as int) - ('0' as int) else 0
  }

  function DigitChar(d: nat): (c: char)
    requires d < 10
    ensures IsDigit(c) && DigitValue(c) == d
  {
    (('0' as int) + d) as char
  }

  /** Value of a decimal digit string, most significant digit first
      (Python's `int(s)` on such a string). */
  function DigitsValue(s: string): nat {
    if |s| == 0 then 0 else DigitsValue(s[..|s| - 1]) * 10 + DigitValue(s[|s| - 1])
  }

  function Pow10(n: nat): (r: nat)
    ensures r >= 1
  {
    if n == 0 then 1 else 10 * Pow10(n - 1)
  }

  /** Value of the digits after a decimal point: "5" is 0.5, "25" is 0.25. */
  function FractionValue(s: string): real {
    (DigitsValue(s) as real) / (Pow10(|s|) as real)
  }

  /** Number of decimal digits at the start of `s`. */
  function LeadingDigits(s: string): (n: nat)
    ensures n <= |s|
    ensures n < |s| ==> !IsDigit(s[n])
  {
    if |s| > 0 && IsDigit(s[0]) then LeadingDigits(s[1..]) + 1 else 0
  }

  lemma {:induction false} LeadingDigitsOfDigitsThen(d: string, rest: string)
    requires AllDigits(d)
    requires rest == [] || !IsDigit(rest[0])
    ensures LeadingDigits(d + rest) == |d|
  {
    if |d| > 0 {
      assert (d + rest)[1..] == d[1..] + rest;
      LeadingDigitsOfDigitsThen(d[1..], rest);
    }
  }

  /** Decimal rendering of a natural number without leading zeros
      (Python's `str(n)` / `f"{n}"`). */
  function NatToString(n: nat): (s: string)
    ensures |s| >= 1 && AllDigits(s)
    ensures DigitsValue(s) == n
    ensures s[0] == '0' ==> n == 0
  {
    if n < 10 then [DigitChar(n)]
    else
      var s := NatToString(n / 10) + [DigitChar(n % 10)];
      assert s[..|s| - 1] == NatToString(n / 10);
      s
  }

  /** Python's `f"{i}"` for any integer. */
  function IntToString(i: int): string {
    if i < 0 then "-" + NatToString(-i) else NatToString(i)
  }

  // ---------------------------------------------------------------------
  // str.strip()
  // ---------------------------------------------------------------------

  /** The characters for which Python's `str.isspace()` holds. */
  predicate IsSpace(c: char) {
    c == ' ' || ('\t' <= c <= '\r') || ('\U{1c}' <= c <= '\U{1f}')
    || c == '\U{85}' || c == '\U{a0}' || c == '\U{1680}'
    || ('\U{2000}' <= c <= '\U{200a}') || c == '\U{2028}' || c == '\U{2029}'
    || c == '\U{202f}' || c == '\U{205f}' || c == '\U{3000}'
  }

  /** Python's `s.lstrip()`. */
  function StripLeft(s: string): (r: string)
    ensures |r| <= |s|
  {
    if |s| > 0 && IsSpace(s[0]) then StripLeft(s[1..]) else s
  }

  /** Python's `s.rstrip()`. */
  function StripRight(s: string): (r: string)
    ensures |r| <= |s|
  {
    if |s| > 0 && IsSpace(s[|s| - 1]) then StripRight(s[..|s| - 1]) else s
  }

  /** Python's `s.strip()`. */
  function Strip(s: string): (r: string)
    ensures |r| <= |s|
  {
    StripRight(StripLeft(s))
  }

  /** `lstrip` removes exactly the leading whitespace. */
  lemma {:induction false} StripLeftRemovesLeadingSpace(s: string)
    ensures StripLeft(s) == s[|s| - |StripLeft(s)|..]
    ensures forall k :: 0 <= k < |s| - |StripLeft(s)| ==> IsSpace(s[k])
    ensures StripLeft(s) != [] ==> !IsSpace(StripLeft(s)[0])
  {
    if |s| > 0 && IsSpace(s[0]) {
      StripLeftRemovesLeadingSpace(s[1..]);
    }
  }

  /** `rstrip` removes exactly the trailing whitespace. */
  lemma {:induction false} StripRightRemovesTrailingSpace(s: string)
    ensures StripRight(s) == s[..|StripRight(s)|]
    ensures forall k :: |StripRight(s)| <= k < |s| ==> IsSpace(s[k])
    ensures StripRight(s) != [] ==> !IsSpace(StripRight(s)[|StripRight(s)| - 1])
  {
    if |s| > 0 && IsSpace(s[|s| - 1]) {
      StripRightRemovesTrailingSpace(s[..|s| - 1]);
    }
  }

  /** `strip` keeps a middle part of `s`: everything before and after it is
      whitespace, and the part itself neither starts nor ends with
      whitespace. */
  lemma StripKeepsMiddle(s: string)
    ensures var i := |s| - |StripLeft(s)|;
      i + |Strip(s)| <= |s| && s[i..i + |Strip(s)|] == Strip(s)
      && (forall k :: 0 <= k < i ==> IsSpace(s[k]))
      && (forall k :: i + |Strip(s)| <= k < |s| ==> IsSpace(s[k]))
    ensures Strip(s) != [] ==> !IsSpace(Strip(s)[0]) && !IsSpace(Strip(s)[|Strip(s)| - 1])
  {
    var l := StripLeft(s);
    var r := Strip(s);
    StripLeftRemovesLeadingSpace(s);
    StripRightRemovesTrailingSpace(l);
    var i := |s| - |l|;
    assert s[i..i + |r|] == l[..|r|];
    if r != [] {
      assert r[0] == l[0];
    }
    forall k | i + |r| <= k < |s| ensures IsSpace(s[k]) {
      var j := k - i;
      assert |r| <= j < |l| && l[j] == s[k];
    }
  }

  /** A string that neither starts nor ends with whitespace is its own strip. */
  lemma StripTrimmed(s: string)
    requires s == [] || (!IsSpace(s[0]) && !IsSpace(s[|s| - 1]))
    ensures Strip(s) == s
  {
  }

  // ---------------------------------------------------------------------
  // Searching and splitting
  // ---------------------------------------------------------------------

  /** Position of the first `c` in `s` (Python's `s.index(c)`). */
  function IndexOf(s: string, c: char): (i: nat)
    requires c in s
    ensures i < |s| && s[i] == c && c !in s[..i]
  {
    if s[0] == c then 0
    else
      var k := IndexOf(s[1..], c);
      assert s[..k + 1] == [s[0]] + s[1..][..k];
      k + 1
  }

  /** Python's `s.split(sep)` for a one-character separator. */
  function Split(s: string, sep: char): (parts: seq<string>)
    ensures |parts| >= 1
    ensures forall p :: p in parts ==> sep !in p
  {
    if |s| == 0 then [""]
    else
      var rest := Split(s[1..], sep);
      if s[0] == sep then [""] + rest
      else
        assert rest[0] in rest;
        [[s[0]] + rest[0]] + rest[1..]
  }

  /** A text without the separator is one part. */
  lemma {:induction false} SplitNone(line: string, sep: char)
    requires sep !in line
    ensures Split(line, sep) == [line]
  {
    if line != [] {
      assert forall c :: c in line[1..] ==> c in line;
      SplitNone(line[1..], sep);
      assert [line[0]] + line[1..] == line;
    }
  }

  /** A part without the separator, the separator and the rest: the part
      comes first and the rest is split on its own. */
  lemma {:induction false} SplitCons(line: string, sep: char, rest: string)
    requires sep !in line
    ensures Split(line + [sep] + rest, sep) == [line] + Split(rest, sep)
  {
    var s := line + [sep] + rest;
    if line == [] {
      assert s == [sep] + rest && s[1..] == rest;
    } else {
      assert s[1..] == line[1..] + [sep] + rest;
      assert forall c :: c in line[1..] ==> c in line;
      SplitCons(line[1..], sep, rest);
      assert [line[0]] + line[1..] == line;
    }
  }

  /** Python's `sep.join(parts)`. */
  function Join(parts: seq<string>, sep: char): string
    requires |parts| >= 1
  {
    if |parts| == 1 then parts[0] else parts[0] + [sep] + Join(parts[1..], sep)
  }

  /** Splitting and joining again gives back the text: `split` loses nothing. */
  lemma {:induction false} JoinSplit(s: string, sep: char)
    ensures Join(Split(s, sep), sep) == s
  {
    if |s| > 0 {
      var rest := Split(s[1..], sep);
      JoinSplit(s[1..], sep);
      if s[0] != sep {
        var parts := Split(s, sep);
        assert parts[1..] == rest[1..];
        if |rest| == 1 {
          assert Join(parts, sep) == [s[0]] + rest[0];
        } else {
          assert Join(rest, sep) == rest[0] + [sep] + Join(rest[1..], sep);
          assert Join(parts, sep) == [s[0]] + rest[0] + [sep] + Join(rest[1..], sep);
        }
      }
    }
  }

  /** The line boundaries of Python's `str.splitlines()`. */
  predicate IsLineBreak(c: char) {
    c == '\n' || c == '\r' || c == '\U{0b}' || c == '\U{0c}'
    || ('\U{1c}' <= c <= '\U{1e}') || c == '\U{85}' || c == '\U{2028}' || c == '\U{2029}'
  }

  /** Position of the first line boundary in `s`, or `|s|`. */
  function FirstBreak(s: string): (k: nat)
    ensures k <= |s| && (k < |s| ==> IsLineBreak(s[k]))
    ensures forall j :: 0 <= j < k ==> !IsLineBreak(s[j])
  {
    if |s| == 0 || IsLineBreak(s[0]) then 0 else FirstBreak(s[1..]) + 1
  }

  /** Python's `s.splitlines()`: "\r\n" is one boundary, and a boundary at
      the very end does not open an empty last line. */
  function SplitLines(s: string): (lines: seq<string>)
    ensures forall l, j :: l in lines && 0 <= j < |l| ==> !IsLineBreak(l[j])
    decreases |s|
  {
    if |s| == 0 then []
    else
      var k := FirstBreak(s);
      if k == |s| then [s]
      else
        var next := if s[k] == '\r' && k + 1 < |s| && s[k + 1] == '\n' then k + 2 else k + 1;
        [s[..k]] + SplitLines(s[next..])
  }

  /** The first boundary of a line followed by a boundary (or nothing) is
      right after the line. */
  lemma {:induction false} FirstBreakAfter(line: string, rest: string)
    requires forall j :: 0 <= j < |line| ==> !IsLineBreak(line[j])
    requires rest == [] || IsLineBreak(rest[0])
    ensures FirstBreak(line + rest) == |line|
  {
    if |line| > 0 {
      assert (line + rest)[1..] == line[1..] + rest;
      FirstBreakAfter(line[1..], rest);
    }
  }

  /** A non-empty text without a boundary is one line. */
  lemma OneLine(line: string)
    requires line != [] && forall j :: 0 <= j < |line| ==> !IsLineBreak(line[j])
    ensures SplitLines(line) == [line]
  {
    FirstBreakAfter(line, []);
    assert line + [] == line;
  }

  /** `splitlines()` on a text written as a line, a boundary and the rest:
      the line comes first and the rest is split on its own. The boundary
      is one character, or the two characters "\r\n". */
  lemma SplitLinesCons(line: string, brk: string, rest: string)
    requires forall j :: 0 <= j < |line| ==> !IsLineBreak(line[j])
    requires (|brk| == 1 && IsLineBreak(brk[0]) && !(brk[0] == '\r' && rest != [] && rest[0] == '\n'))
          || brk == "\r\n"
    ensures SplitLines(line + brk + rest) == [line] + SplitLines(rest)
  {
    var s := line + brk + rest;
    FirstBreakAfter(line, brk + rest);
    assert s == line + (brk + rest);
    var k := |line|;
    assert s[..k] == line;
    assert s[k + |brk|..] == rest;
  }

  // ---------------------------------------------------------------------
  // Text-mode files
  // ---------------------------------------------------------------------

  /** What `open(path, 'w').write(text)` puts on disk on Windows: each
      "\n" is written as "\r\n". */
  function WriteText(text: string): (disk: string)
    ensures disk != [] ==> disk[0] != '\n'
  {
    if text == [] then []
    else (if text[0] == '\n' then "\r\n" else [text[0]]) + WriteText(text[1..])
  }

  /** What `open(path, 'r').read()` returns for the contents on disk: with
      universal newlines, "\r\n" and every other "\r" read as "\n". */
  function ReadText(disk: string): (text: string)
    ensures '\r' !in text
    decreases |disk|
  {
    if disk == [] then []
    else if disk[0] == '\r' then
      if |disk| > 1 && disk[1] == '\n' then "\n" + ReadText(disk[2..]) else "\n" + ReadText(disk[1..])
    else [disk[0]] + ReadText(disk[1..])
  }

  /** The text with each "\r" replaced by "\n". */
  function CrToLf(text: string): string {
    if text == [] then []
    else [if text[0] == '\r' then '\n' else text[0]] + CrToLf(text[1..])
  }

  lemma {:induction false} CrToLfAppend(a: string, b: string)
    ensures CrToLf(a + b) == CrToLf(a) + CrToLf(b)
  {
    if a != [] {
      assert (a + b)[1..] == a[1..] + b;
      CrToLfAppend(a[1..], b);
    } else {
      assert a + b == b;
    }
  }

  /** A text written and read back in text mode comes back with each "\r"
      turned into "\n" and is otherwise unchanged. */
  lemma {:induction false} TextModeRoundTrip(text: string)
    ensures ReadText(WriteText(text)) == CrToLf(text)
  {
    if text != [] {
      var w := WriteText(text[1..]);
      var r := ReadText(w);
      TextModeRoundTrip(text[1..]);
      assert CrToLf(text) == [if text[0] == '\r' then '\n' else text[0]] + r;
      if text[0] == '\n' {
        var d := "\r\n" + w;
        assert WriteText(text) == d;
        assert d[0] == '\r' && |d| > 1 && d[1] == '\n' && d[2..] == w;
        assert ReadText(d) == "\n" + r;
      } else if text[0] == '\r' {
        var d := "\r" + w;
        assert WriteText(text) == d;
        assert d[0] == '\r' && d[1..] == w && !(|d| > 1 && d[1] == '\n');
        assert ReadText(d) == "\n" + r;
      } else {
        var d := [text[0]] + w;
        assert WriteText(text) == d;
        assert d[0] != '\r' && d[1..] == w;
        assert ReadText(d) == [text[0]] + r;
      }
    }
  }

  /** A text without "\r" is unchanged by the round trip. */
  lemma {:induction false} CrToLfKeeps(text: string)
    requires '\r' !in text
    ensures CrToLf(text) == text
  {
    if text != [] {
      assert text[0] in text;
      assert forall c :: c in text[1..] ==> c in text;
      CrToLfKeeps(text[1..]);
      assert [text[0]] + text[1..] == text;
    }
  }

  // ---------------------------------------------------------------------
  // Case-insensitive suffix
  // ---------------------------------------------------------------------

  /** Lower-casing of ASCII letters; other characters are left alone. */
  function AsciiLower(c: char): (d: char)
    ensures 'A' <= c <= 'Z' ==> d as int == c as int + 32
    ensures !('A' <= c <= 'Z') ==> d == c
  {
    if 'A' <= c <= 'Z' then (c as int + 32) as char else c
  }

  predicate EndsWith(s: string, suffix: string) {
    |suffix| <= |s| && s[|s| - |suffix|..] == suffix
  }

  /** `s.lower().endswith(suffix)` for a lower-case ASCII suffix. */
  predicate EndsWithIgnoringCase(s: string, suffix: string) {
    |suffix| <= |s| && forall k :: 0 <= k < |suffix| ==> AsciiLower(s[|s| - |suffix| + k]) == suffix[k]
  }
}
