/** The strict LRC parser of the online fetcher (`OnlineFetcher._parse_lrc`),
    which the player repeats verbatim when it reads its own lyric cache
    (`MusicPlayer._load_lyrics_from_sinf`).

    A line is used only when it STARTS with `[mm:ss.ff]` or `[mm:ss.fff]`
    (exactly two digits of minutes and of seconds); only that first tag is
    consumed, and the stripped remainder of the line is the text. The
    timestamp is `mm*60 + ss + fraction/1000` whether the fraction has two
    or three digits, so `.50` is read as 50 milliseconds. */
module StrictLrc {
  import opened Wrappers
  import opened Text
  import opened Sorting
  import opened LyricIndex

  /** The timestamp the parser computes from the three digit groups. */
  function TagTime(mm: string, ss: string, ff: string): real {
    (DigitsValue(mm) * 60 + DigitsValue(ss)) as real + (DigitsValue(ff) as real) / 1000.0
  }

  /** The tag `[mm:ss.ff]` as it is written in a lyric file. */
  function Tag(mm: string, ss: string, ff: string): string {
    "[" + mm + ":" + ss + "." + ff + "]"
  }

  /** `re.match(r'\[(\d{2}):(\d{2})\.(\d{2,3})\](.*)', line)`: the timestamp
      of the leading tag and the rest of the line (group 4), or None when
      the line does not start with such a tag. The fraction takes three
      digits when a `]` follows them, otherwise two. */
  function MatchTag(line: string): Option<(real, string)> {
    if |line| >= 10 && line[0] == '[' && IsDigit(line[1]) && IsDigit(line[2]) && line[3] == ':'
       && IsDigit(line[4]) && IsDigit(line[5]) && line[6] == '.' && IsDigit(line[7]) && IsDigit(line[8])
    then
      if line[9] == ']' then
        Some((TagTime(line[1..3], line[4..6], line[7..9]), line[10..]))
      else if |line| >= 11 && IsDigit(line[9]) && line[10] == ']' then
        Some((TagTime(line[1..3], line[4..6], line[7..10]), line[11..]))
      else None
    else None
  }

  /** The entry one line contributes: a matching tag and a non-empty
      stripped text, or nothing. */
  function LineEntries(line: string): seq<Entry> {
    match MatchTag(line)
    case Some((t, rest)) => if Strip(rest) == [] then [] else [(t, Strip(rest))]
    case None => []
  }

  /** What `_parse_lrc(text)` returns. */
  function Parse(text: string): Lyrics {
    Build(Collect(LineEntries, Split(text, '\n')))
  }

  /** `_parse_lrc`: fill the dictionary and the list line by line, then sort
      the list. */
  method ParseLrc(lrcText: string) returns (result: Lyrics)
    ensures result == Parse(lrcText)
  {
    var lyricsMap: map<real, string> := map[];
    var timePoints: seq<real> := [];
    var lines := Split(lrcText, '\n');
    for i := 0 to |lines|
      invariant lyricsMap == MapOf(Collect(LineEntries, lines[..i]))
      invariant timePoints == Stamps(Collect(LineEntries, lines[..i]))
    {
      CollectStep(LineEntries, lines, i);
      var m := MatchTag(lines[i]);
      if m.Some? {
        var text := Strip(m.value.1);
        if text != [] {
          assert LineEntries(lines[i]) == [(m.value.0, text)];
          CollectOne(Collect(LineEntries, lines[..i]), (m.value.0, text));
          lyricsMap := lyricsMap[m.value.0 := text];
          timePoints := timePoints + [m.value.0];
        }
      }
    }
    assert lines[..|lines|] == lines;
    result := Lyrics(lyricsMap, Sort(timePoints));
  }

  /** A line made of a well-formed tag and a remainder yields the tag's
      timestamp with the stripped remainder, or nothing when that is empty;
      whatever the remainder holds (later tags included) stays in the text. */
  lemma TaggedLine(mm: string, ss: string, ff: string, rest: string)
    requires |mm| == 2 && |ss| == 2 && (|ff| == 2 || |ff| == 3)
    requires AllDigits(mm) && AllDigits(ss) && AllDigits(ff)
    ensures LineEntries(Tag(mm, ss, ff) + rest)
         == if Strip(rest) == [] then [] else [(TagTime(mm, ss, ff), Strip(rest))]
  {
    var line := Tag(mm, ss, ff) + rest;
    var n := 7 + |ff|;
    assert line[1..3] == mm && line[4..6] == ss && line[7..7 + |ff|] == ff;
    assert line[n] == ']' && line[n + 1..] == rest;
    assert forall k :: 7 <= k < 7 + |ff| ==> line[k] == ff[k - 7];
  }

  /** Only lines that start with a tag are used: a line that yields an entry
      begins with `[`, two digits, `:`, two digits, `.`, two or three digits
      and `]`, and the entry is that tag's timestamp with the stripped rest. */
  lemma OnlyTaggedLines(line: string)
    requires LineEntries(line) != []
    ensures AllDigits(line[1..3]) && AllDigits(line[4..6])
    ensures exists n :: ((n == 9 || n == 10) && n < |line| && AllDigits(line[7..n])
      && line[..n + 1] == Tag(line[1..3], line[4..6], line[7..n])
      && LineEntries(line) == [(TagTime(line[1..3], line[4..6], line[7..n]), Strip(line[n + 1..]))])
  {
    var n := if line[9] == ']' then 9 else 10;
    assert AllDigits(line[7..n]);
    assert line[..n + 1] == Tag(line[1..3], line[4..6], line[7..n]);
  }

  /** The index `_parse_lrc` returns: the timestamps ascending, each of
      them a key of the dictionary and no other key; and no lyrics at all
      exactly when no line of the text starts with a tag followed by text. */
  lemma ParseIndex(text: string)
    ensures Sorted(Parse(text).times)
    ensures Parse(text).lines.Keys == set t | t in Parse(text).times
    ensures Parse(text).lines == map[] <==> forall line :: line in Split(text, '\n') ==> LineEntries(line) == []
  {
    var lines := Split(text, '\n');
    var es := Collect(LineEntries, lines);
    BuildIndex(es);
    CollectEmpty(LineEntries, lines);
    assert Parse(text) == Build(es);
  }

  /** A two-digit fraction is read as milliseconds: `[00:01.50]` is 1.05 s,
      not 1.5 s. */
  lemma TwoDigitFractionIsMilliseconds()
    ensures LineEntries("[00:01.50]la") == [(1.05, "la")]
  {
    TaggedLine("00", "01", "50", "la");
    assert Tag("00", "01", "50") + "la" == "[00:01.50]la";
    assert DigitsValue("00") == 0 && DigitsValue("01") == 1 && DigitsValue("50") == 50 by {
      assert "00"[..1] == "0" && "01"[..1] == "0" && "50"[..1] == "5";
    }
    assert Strip("la") == "la";
  }
}
