/** The lenient LRC parser used for lyrics that come with the audio file
    (`parse_lrc_content` in metadata.py).

    Every `[m:s]` / `[m:s.f]` tag anywhere in a line counts (minutes and
    seconds of any number of digits), the text of the line is what remains
    once every bracketed run is removed, stripped, and a line with at least
    one tag and some text yields one entry per tag, all sharing that text.
    Lines are those of `str.splitlines()`. */
module LooseLrc {
  import opened Wrappers
  import opened Text
  import opened Sorting
  import opened LyricIndex
  import StrictLrc

  // ---------------------------------------------------------------------
  // re.findall(r'\[(\d+):(\d+\.?\d*)\]', line)
  // ---------------------------------------------------------------------

  /** A time tag by its digit groups: minutes, whole seconds and the
      fraction of a second (empty when the tag has none). */
  datatype Stamp = Stamp(mm: string, ss: string, ff: string)

  /** Minutes and seconds are non-empty digit strings; the fraction is a
      (possibly empty) digit string. */
  predicate WellFormed(st: Stamp) {
    |st.mm| >= 1 && |st.ss| >= 1 && AllDigits(st.mm) && AllDigits(st.ss) && AllDigits(st.ff)
  }

  /** The tag written as `[mm:ss.ff]`. */
  function TagText(st: Stamp): string {
    StrictLrc.Tag(st.mm, st.ss, st.ff)
  }

  /** The time a tag denotes: `mm * 60 + ss.ff` seconds. */
  function StampValue(st: Stamp): real {
    (DigitsValue(st.mm) * 60 + DigitsValue(st.ss)) as real + FractionValue(st.ff)
  }

  /** The match of `(\d+\.?\d*)\]` at the start of `s`: whole seconds,
      the fraction (empty when there is no point or no digit after it) and
      the length of the match. */
  function MatchSeconds(s: string): (m: Option<(string, string, nat)>)
    ensures m.Some? ==> 2 <= m.value.2 <= |s|
  {
    var b := LeadingDigits(s);
    if b == 0 || b >= |s| then None
    else if s[b] == ']' then Some((s[..b], "", b + 1))
    else if s[b] == '.' then
      var c := LeadingDigits(s[b + 1..]);
      if b + 1 + c < |s| && s[b + 1 + c] == ']' then Some((s[..b], s[b + 1..][..c], b + 2 + c))
      else None
    else None
  }

  /** The match of `\[(\d+):(\d+\.?\d*)\]` at the very start of `s`: the
      tag's digit groups and the length of the match. */
  function MatchStamp(s: string): (m: Option<(Stamp, nat)>)
    ensures m.Some? ==> 5 <= m.value.1 <= |s|
  {
    if |s| == 0 || s[0] != '[' then None
    else
      var a := LeadingDigits(s[1..]);
      if a == 0 || 1 + a >= |s| || s[1 + a] != ':' then None
      else
        match MatchSeconds(s[2 + a..])
        case Some((ss, ff, n)) => Some((Stamp(s[1..][..a], ss, ff), 2 + a + n))
        case None => None
  }

  /** The times `int(minutes) * 60 + float(seconds)` of all non-overlapping
      matches, left to right. */
  function FindStamps(s: string): seq<real>
    decreases |s|
  {
    if s == [] then []
    else
      match MatchStamp(s)
      case Some((st, n)) => [StampValue(st)] + FindStamps(s[n..])
      case None => FindStamps(s[1..])
  }

  // ---------------------------------------------------------------------
  // re.sub(r'\[.*?\]', '', line)
  // ---------------------------------------------------------------------

  /** `s` with every `[` … first following `]` run removed; a `[` with no
      `]` after it stays. */
  function RemoveTags(s: string): string
    decreases |s|
  {
    if s == [] then []
    else if s[0] == '[' && ']' in s[1..] then RemoveTags(s[1..][IndexOf(s[1..], ']') + 1..])
    else [s[0]] + RemoveTags(s[1..])
  }

  // ---------------------------------------------------------------------
  // The parser
  // ---------------------------------------------------------------------

  /** One entry per timestamp, all with the same text. */
  function Tagged(ts: seq<real>, text: string): (es: seq<Entry>)
    ensures |es| == |ts|
    ensures forall i :: 0 <= i < |ts| ==> es[i] == (ts[i], text)
  {
    seq(|ts|, i requires 0 <= i < |ts| => (ts[i], text))
  }

  lemma TaggedCons(t: real, ts: seq<real>, text: string)
    ensures Tagged([t] + ts, text) == [(t, text)] + Tagged(ts, text)
  {
  }

  /** The entries one line contributes: one per tag when the line has a tag
      and its text is not empty, none otherwise. */
  function LineEntries(line: string): seq<Entry> {
    var stamps := FindStamps(line);
    var text := Strip(RemoveTags(line));
    if stamps != [] && text != [] then Tagged(stamps, text) else []
  }

  lemma TaggedStep(before: seq<Entry>, ts: seq<real>, j: nat, text: string)
    requires j < |ts|
    ensures MapOf(before + Tagged(ts[..j + 1], text)) == MapOf(before + Tagged(ts[..j], text))[ts[j] := text]
    ensures Stamps(before + Tagged(ts[..j + 1], text)) == Stamps(before + Tagged(ts[..j], text)) + [ts[j]]
  {
    assert Tagged(ts[..j + 1], text) == Tagged(ts[..j], text) + [(ts[j], text)];
    assert before + Tagged(ts[..j + 1], text) == before + Tagged(ts[..j], text) + [(ts[j], text)];
    CollectOne(before + Tagged(ts[..j], text), (ts[j], text));
  }

  /** What `parse_lrc_content(text)` returns. */
  function Parse(text: string): Lyrics {
    Build(Collect(LineEntries, SplitLines(text)))
  }

  /** `parse_lrc_content`: for each line, store every tag's timestamp with
      the line's text, then sort the list of timestamps. */
  method ParseLrcContent(lrcText: string) returns (result: Lyrics)
    ensures result == Parse(lrcText)
  {
    var lyrics: map<real, string> := map[];
    var times: seq<real> := [];
    var lines := SplitLines(lrcText);
    for i := 0 to |lines|
      invariant lyrics == MapOf(Collect(LineEntries, lines[..i]))
      invariant times == Stamps(Collect(LineEntries, lines[..i]))
    {
      CollectStep(LineEntries, lines, i);
      var matches := FindStamps(lines[i]);
      var text := Strip(RemoveTags(lines[i]));
      if matches != [] && text != [] {
        ghost var before := Collect(LineEntries, lines[..i]);
        assert before + Tagged(matches[..0], text) == before;
        for j := 0 to |matches|
          invariant lyrics == MapOf(before + Tagged(matches[..j], text))
          invariant times == Stamps(before + Tagged(matches[..j], text))
        {
          var timeKey := matches[j];
          TaggedStep(before, matches, j, text);
          lyrics := lyrics[timeKey := text];
          times := times + [timeKey];
        }
        assert matches[..|matches|] == matches;
        assert LineEntries(lines[i]) == Tagged(matches, text);
      }
    }
    assert lines[..|lines|] == lines;
    result := Lyrics(lyrics, Sort(times));
  }

  /** The index `parse_lrc_content` returns: the timestamps ascending, each
      of them a key of the dictionary and no other key; and no lyrics at all
      exactly when no line has both a tag and some text. */
  lemma ParseIndex(text: string)
    ensures Sorted(Parse(text).times)
    ensures Parse(text).lines.Keys == set t | t in Parse(text).times
    ensures Parse(text).lines == map[] <==> forall line :: line in SplitLines(text) ==> LineEntries(line) == []
  {
    var lines := SplitLines(text);
    var es := Collect(LineEntries, lines);
    BuildIndex(es);
    CollectEmpty(LineEntries, lines);
    assert Parse(text) == Build(es);
  }

  // ---------------------------------------------------------------------
  // Lines written with tags
  // ---------------------------------------------------------------------

  /** The layout of a written tag: `[`, minutes, `:`, seconds, `.`,
      fraction, `]`. */
  lemma TagLayout(st: Stamp, rest: string)
    ensures var s := TagText(st) + rest;
      var a := |st.mm|;
      var p := 2 + a + |st.ss|;
      var q := p + 1 + |st.ff|;
      |s| == q + 1 + |rest| && s[0] == '[' && s[1..1 + a] == st.mm && s[1 + a] == ':'
      && s[2 + a..p] == st.ss && s[p] == '.' && s[p + 1..q] == st.ff && s[q] == ']' && s[q + 1..] == rest
  {
  }

  /** A run of digits `d` at position `i` of `s`, followed by a non-digit,
      is the whole run of leading digits there. */
  lemma DigitRunAt(s: string, i: nat, d: string)
    requires AllDigits(d) && i + |d| < |s| && s[i..i + |d|] == d && !IsDigit(s[i + |d|])
    ensures LeadingDigits(s[i..]) == |d| && s[i..][..|d|] == d
  {
    assert s[i..] == d + s[i + |d|..];
    LeadingDigitsOfDigitsThen(d, s[i + |d|..]);
  }

  /** `MatchSeconds` on a string laid out as `ss.ff]` followed by
      anything. */
  lemma SecondsLaidOut(s: string, ss: string, ff: string)
    requires |ss| >= 1 && AllDigits(ss) && AllDigits(ff)
    requires |ss| + 1 + |ff| < |s| && s[..|ss|] == ss && s[|ss|] == '.'
    requires s[|ss| + 1..|ss| + 1 + |ff|] == ff && s[|ss| + 1 + |ff|] == ']'
    ensures MatchSeconds(s) == Some((ss, ff, |ss| + |ff| + 2))
  {
    DigitRunAt(s, 0, ss);
    assert s[0..] == s;
    DigitRunAt(s, |ss| + 1, ff);
  }

  /** How `MatchStamp` goes on once the minutes and the colon are read. */
  lemma MatchFromSeconds(s: string, st: Stamp, n: nat, len: nat)
    requires 1 <= |st.mm| && 1 + |st.mm| < |s| && s[0] == '[' && s[1 + |st.mm|] == ':'
    requires LeadingDigits(s[1..]) == |st.mm| && s[1..][..|st.mm|] == st.mm
    requires MatchSeconds(s[2 + |st.mm|..]) == Some((st.ss, st.ff, n))
    requires len == 2 + |st.mm| + n
    ensures MatchStamp(s) == Some((st, len))
  {
  }

  /** The seconds part of a string laid out as the tag of `st`, seen from
      the position after the colon. */
  lemma SecondsPart(s: string, st: Stamp)
    requires var a := |st.mm|;
      var p := 2 + a + |st.ss|;
      var q := p + 1 + |st.ff|;
      q < |s| && s[2 + a..p] == st.ss && s[p] == '.' && s[p + 1..q] == st.ff && s[q] == ']'
    ensures var t := s[2 + |st.mm|..];
      |st.ss| + 1 + |st.ff| < |t| && t[..|st.ss|] == st.ss && t[|st.ss|] == '.'
      && t[|st.ss| + 1..|st.ss| + 1 + |st.ff|] == st.ff && t[|st.ss| + 1 + |st.ff|] == ']'
  {
    var a := |st.mm|;
    var t := s[2 + a..];
    var p := 2 + a + |st.ss|;
    assert t[..|st.ss|] == s[2 + a..p];
    assert t[|st.ss| + 1..|st.ss| + 1 + |st.ff|] == s[p + 1..p + 1 + |st.ff|];
  }

  /** The pieces `MatchStamp` reads from a string laid out as the tag of
      `st` followed by anything: the run of minute digits and what
      `MatchSeconds` makes of the part after the colon. */
  lemma StampPieces(s: string, st: Stamp)
    requires WellFormed(st)
    requires var a := |st.mm|;
      var p := 2 + a + |st.ss|;
      var q := p + 1 + |st.ff|;
      q < |s| && s[0] == '[' && s[1..1 + a] == st.mm && s[1 + a] == ':'
      && s[2 + a..p] == st.ss && s[p] == '.' && s[p + 1..q] == st.ff && s[q] == ']'
    ensures LeadingDigits(s[1..]) == |st.mm| && s[1..][..|st.mm|] == st.mm
    ensures MatchSeconds(s[2 + |st.mm|..]) == Some((st.ss, st.ff, |st.ss| + |st.ff| + 2))
  {
    DigitRunAt(s, 1, st.mm);
    SecondsPart(s, st);
    SecondsLaidOut(s[2 + |st.mm|..], st.ss, st.ff);
  }

  /** What `MatchStamp` reads from a line that starts with a written tag. */
  lemma TagPieces(st: Stamp, rest: string)
    requires WellFormed(st)
    ensures var s := TagText(st) + rest;
      1 + |st.mm| < |s| && s[0] == '[' && s[1 + |st.mm|] == ':'
      && |TagText(st)| == 4 + |st.mm| + |st.ss| + |st.ff|
      && LeadingDigits(s[1..]) == |st.mm| && s[1..][..|st.mm|] == st.mm
      && MatchSeconds(s[2 + |st.mm|..]) == Some((st.ss, st.ff, |st.ss| + |st.ff| + 2))
  {
    TagLayout(st, rest);
    StampPieces(TagText(st) + rest, st);
  }

  /** A well-formed tag at the start of a line is matched whole, with the
      time it denotes. */
  lemma MatchTagged(st: Stamp, rest: string)
    requires WellFormed(st)
    ensures MatchStamp(TagText(st) + rest) == Some((st, |TagText(st)|))
  {
    TagPieces(st, rest);
    MatchFromSeconds(TagText(st) + rest, st, |st.ss| + |st.ff| + 2, |TagText(st)|);
  }

  /** The first `]` after a written tag's `[` is the one that closes it. */
  lemma RemoveTagged(st: Stamp, rest: string)
    requires WellFormed(st)
    ensures RemoveTags(TagText(st) + rest) == RemoveTags(rest)
  {
    var s := TagText(st) + rest;
    var q := 3 + |st.mm| + |st.ss| + |st.ff|;
    TagLayout(st, rest);
    var t := s[1..];
    assert t[q - 1] == ']';
    assert ']' !in t[..q - 1] by {
      forall k | 0 <= k < q - 1 ensures t[k] != ']' {
        assert t[k] == s[k + 1];
        if k + 1 <= |st.mm| {
          assert s[k + 1] == st.mm[k];
        } else if k + 1 == |st.mm| + 1 {
        } else if k + 1 < 2 + |st.mm| + |st.ss| {
          assert s[k + 1] == st.ss[k - 1 - |st.mm|];
        } else if k + 1 == 2 + |st.mm| + |st.ss| {
        } else {
          assert s[k + 1] == st.ff[k - 2 - |st.mm| - |st.ss|];
        }
      }
    }
    var i := IndexOf(t, ']');
    assert i == q - 1;
    assert t[i + 1..] == rest;
  }

  /** Text without `[` holds neither a tag nor anything to remove. */
  lemma {:induction false} PlainText(text: string)
    requires '[' !in text
    ensures FindStamps(text) == []
    ensures RemoveTags(text) == text
  {
    if text != [] {
      assert text[1..] == text[|text| - |text[1..]|..];
      assert '[' !in text[1..];
      PlainText(text[1..]);
    }
  }

  /** A well-formed tag at the start is found, and the search goes on
      right after it. */
  lemma FindTagged(st: Stamp, rest: string)
    requires WellFormed(st)
    ensures FindStamps(TagText(st) + rest) == [StampValue(st)] + FindStamps(rest)
  {
    MatchTagged(st, rest);
    assert (TagText(st) + rest)[|TagText(st)|..] == rest;
  }

  /** Text without `[` in front of anything is passed over: `findall`
      finds the same tags as in what follows it. */
  lemma {:induction false} SkipPlain(p: string, s: string)
    requires '[' !in p
    ensures FindStamps(p + s) == FindStamps(s)
    decreases |p|
  {
    if p != [] {
      var ps := p + s;
      assert ps[0] == p[0] && p[0] in p;
      assert MatchStamp(ps) == None;
      assert FindStamps(ps) == FindStamps(ps[1..]);
      assert ps[1..] == p[1..] + s;
      assert forall c :: c in p[1..] ==> c in p;
      SkipPlain(p[1..], s);
    } else {
      assert p + s == s;
    }
  }

  /** A well-formed tag after text that has no `[` is found as well, and
      the search goes on right after it: tags in the middle or at the end
      of a line count like tags at its start. */
  lemma FindTaggedAfter(p: string, st: Stamp, rest: string)
    requires '[' !in p && WellFormed(st)
    ensures FindStamps(p + TagText(st) + rest) == [StampValue(st)] + FindStamps(rest)
  {
    assert p + TagText(st) + rest == p + (TagText(st) + rest);
    SkipPlain(p, TagText(st) + rest);
    FindTagged(st, rest);
  }

  /** A bracketed run that is not a time tag, such as `[ar:name]` (its
      content does not start with a digit and holds no `[` or `]`), yields
      no time and is removed from the text, and the search goes on after
      it. */
  lemma SkipOtherBracket(u: string, rest: string)
    requires '[' !in u && ']' !in u && (u == [] || !IsDigit(u[0]))
    ensures FindStamps("[" + u + "]" + rest) == FindStamps(rest)
    ensures RemoveTags("[" + u + "]" + rest) == RemoveTags(rest)
  {
    var s := "[" + u + "]" + rest;
    assert MatchStamp(s) == None by {
      assert s[1..] == u + "]" + rest;
      if u == [] {
        assert s[1] == ']';
      } else {
        assert s[1] == u[0];
      }
    }
    assert s[1..] == (u + "]") + rest;
    assert '[' !in u + "]";
    SkipPlain(u + "]", rest);
    var t := s[1..];
    assert t[|u|] == ']' && t[..|u|] == u;
    var i := IndexOf(t, ']');
    assert i == |u|;
    assert t[i + 1..] == rest;
  }

  /** A line without `[` yields nothing. */
  lemma PlainLine(line: string)
    requires '[' !in line
    ensures LineEntries(line) == []
  {
    PlainText(line);
  }

  /** Writing a tag in front of a line that has text adds one entry, with
      the tag's time and the line's text, before the line's own entries;
      so a line `[t1][t2]…[tn]text` yields one entry per tag, in the order
      written, all with the text. */
  lemma PrependTag(st: Stamp, line: string)
    requires WellFormed(st) && Strip(RemoveTags(line)) != []
    ensures LineEntries(TagText(st) + line) == [(StampValue(st), Strip(RemoveTags(line)))] + LineEntries(line)
  {
    FindTagged(st, line);
    RemoveTagged(st, line);
    OneMoreStamp(TagText(st) + line, StampValue(st), line);
  }

  /** A line whose stamps are those of another line with one more in front,
      and whose text is the same, has one more entry in front. */
  lemma OneMoreStamp(s: string, t: real, line: string)
    requires FindStamps(s) == [t] + FindStamps(line) && RemoveTags(s) == RemoveTags(line)
    requires Strip(RemoveTags(line)) != []
    ensures LineEntries(s) == [(t, Strip(RemoveTags(line)))] + LineEntries(line)
  {
    TaggedCons(t, FindStamps(line), Strip(RemoveTags(line)));
  }

  // ---------------------------------------------------------------------
  // The two parsers compared
  // ---------------------------------------------------------------------

  /** On a tag of the strict form `[mm:ss.ff]` / `[mm:ss.fff]` the two
      parsers agree on the time exactly when the fraction has three digits
      or is zero: the strict one divides a two-digit fraction by 1000. */
  lemma ParsersAgreeOnTime(st: Stamp)
    requires |st.mm| == 2 && |st.ss| == 2 && (|st.ff| == 2 || |st.ff| == 3) && WellFormed(st)
    ensures StrictLrc.TagTime(st.mm, st.ss, st.ff) == StampValue(st) <==> |st.ff| == 3 || DigitsValue(st.ff) == 0
  {
    assert Pow10(2) == 100 && Pow10(3) == 1000;
  }

  /** The value of a two-digit string. */
  lemma TwoDigits(d: string)
    requires |d| == 2 && AllDigits(d)
    ensures DigitsValue(d) == 10 * DigitValue(d[0]) + DigitValue(d[1])
  {
    assert d[..1][..0] == [] && d[..1][0] == d[0];
    assert DigitsValue(d[..1]) == DigitValue(d[0]);
  }

  /** The tag `[00:01.50]` denotes 1.5 s. */
  lemma ExampleStamp()
    ensures WellFormed(Stamp("00", "01", "50"))
    ensures StampValue(Stamp("00", "01", "50")) == 1.5
  {
    TwoDigits("00");
    TwoDigits("01");
    TwoDigits("50");
  }

  lemma ExampleLine()
    ensures TagText(Stamp("00", "01", "50")) + "la" == "[00:01.50]la"
    ensures RemoveTags("la") == "la" && Strip("la") == "la"
  {
    PlainText("la");
  }

  /** The line `[00:01.50]la`: the lenient parser reads 1.5 s, the strict
      one 1.05 s. */
  lemma ParsersDisagree()
    ensures LineEntries("[00:01.50]la") == [(1.5, "la")]
    ensures StrictLrc.LineEntries("[00:01.50]la") == [(1.05, "la")]
  {
    var st := Stamp("00", "01", "50");
    ExampleStamp();
    ExampleLine();
    PrependTag(st, "la");
    PlainLine("la");
    StrictLrc.TwoDigitFractionIsMilliseconds();
  }
}
