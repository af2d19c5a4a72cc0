/** The two formatting helpers of utils.py: the `M:SS` clock text
    (`fmt_time`) and the darkened average colour as `#rrggbb`
    (`get_avg_color`). */
module Utils {
  import opened Wrappers
  import opened Text

  // ---------------------------------------------------------------------
  // fmt_time
  // ---------------------------------------------------------------------

  /** `int(sec // 60)`: whole minutes, rounded down. */
  function Minutes(sec: real): int {
    (sec / 60.0).Floor
  }

  /** `int(sec % 60)`: Python's float remainder lies in [0, 60), and `int`
      drops its fraction. */
  function Seconds(sec: real): (s: nat)
    ensures s < 60
  {
    var r := sec - 60.0 * (Minutes(sec) as real);
    assert 0.0 <= r < 60.0;
    r.Floor
  }

  /** `f"{n:02}"` for a number of seconds below 60. */
  function TwoDigits(n: nat): (s: string)
    requires n < 60
    ensures |s| == 2 && AllDigits(s)
  {
    [DigitChar(n / 10), DigitChar(n % 10)]
  }

  /** `fmt_time(sec)`. */
  function FmtTime(sec: real): string {
    IntToString(Minutes(sec)) + ":" + TwoDigits(Seconds(sec))
  }

  /** Reads a clock text back as a number of seconds. */
  function ParseClock(s: string): Option<int> {
    if ':' in s then
      var k := IndexOf(s, ':');
      Some(DigitsValue(s[..k]) * 60 + DigitsValue(s[k + 1..]))
    else None
  }

  lemma TwoDigitsValue(n: nat)
    requires n < 60
    ensures DigitsValue(TwoDigits(n)) == n
  {
    var s := TwoDigits(n);
    assert s[..1][..0] == [];
    assert DigitsValue(s[..1]) == n / 10;
  }

  /** For a non-negative time the text is the whole minutes, a colon and
      the two-digit seconds of the minute, and it reads back as the time
      rounded down to whole seconds: the clock loses only the fraction. */
  lemma FmtTimeRoundTrip(sec: real)
    requires sec >= 0.0
    ensures Minutes(sec) >= 0
    ensures FmtTime(sec) == NatToString(Minutes(sec)) + ":" + TwoDigits(Seconds(sec))
    ensures ParseClock(FmtTime(sec)) == Some(sec.Floor)
  {
    var m := Minutes(sec);
    var mm := NatToString(m);
    var s := FmtTime(sec);
    assert s == mm + ":" + TwoDigits(Seconds(sec));
    assert ':' !in mm by {
      forall i | 0 <= i < |mm| ensures mm[i] != ':' {
        assert IsDigit(mm[i]);
      }
    }
    assert s[|mm|] == ':' && s[..|mm|] == mm;
    var k := IndexOf(s, ':');
    assert k == |mm|;
    assert s[k + 1..] == TwoDigits(Seconds(sec));
    TwoDigitsValue(Seconds(sec));
    assert DigitsValue(mm) == m;
    ClockSplit(sec);
  }

  /** Whole minutes and the seconds of the minute make up the whole
      seconds of a non-negative time. */
  lemma ClockSplit(sec: real)
    requires sec >= 0.0
    ensures Minutes(sec) * 60 + Seconds(sec) == sec.Floor
  {
  }

  /** A whole number of seconds reads back unchanged: `60*M + SS == sec`. */
  lemma FmtTimeWholeSeconds(sec: nat)
    ensures ParseClock(FmtTime(sec as real)) == Some(sec)
  {
    FmtTimeRoundTrip(sec as real);
  }

  // ---------------------------------------------------------------------
  // get_avg_color
  // ---------------------------------------------------------------------

  /** The colour used when the pixel cannot be read. */
  const FallbackColor: string := "#1a1a1a"

  predicate IsHexDigit(c: char) {
    '0' <= c <= '9' || 'a' <= c <= 'f'
  }

  function HexDigit(d: nat): (c: char)
    requires d < 16
    ensures IsHexDigit(c)
  {
    if d < 10 then ('0' as int + d) as char else ('a' as int + d - 10) as char
  }

  function HexValue(c: char): nat {
    if '0' <= c <= '9' then c as int - '0' as int
    else if 'a' <= c <= 'f' then c as int - 'a' as int + 10
    else 0
  }

  /** `f"{n:02x}"` for a channel value below 256. */
  function Hex2(n: nat): (s: string)
    requires n < 256
    ensures |s| == 2 && IsHexDigit(s[0]) && IsHexDigit(s[1])
    ensures HexValue(s[0]) * 16 + HexValue(s[1]) == n
  {
    [HexDigit(n / 16), HexDigit(n % 16)]
  }

  /** `int(c * 0.5)` for a channel value: exact halving, rounded down. */
  function Darken(c: nat): nat {
    c / 2
  }

  /** `get_avg_color` given the 1x1 resized pixel: `None` when reading it
      fails; a pixel with fewer than three channels raises as well. */
  function AvgColor(pixel: Option<seq<nat>>): string
    requires pixel.Some? ==> forall i :: 0 <= i < |pixel.value| ==> pixel.value[i] < 256
  {
    match pixel
    case None => FallbackColor
    case Some(p) =>
      if |p| < 3 then FallbackColor
      else "#" + Hex2(Darken(p[0])) + Hex2(Darken(p[1])) + Hex2(Darken(p[2]))
  }

  /** Reads `#rrggbb` back into its three channels. */
  function ParseHexColor(s: string): Option<(nat, nat, nat)> {
    if |s| == 7 && s[0] == '#' && forall i :: 1 <= i < 7 ==> IsHexDigit(s[i]) then
      Some((HexValue(s[1]) * 16 + HexValue(s[2]),
            HexValue(s[3]) * 16 + HexValue(s[4]),
            HexValue(s[5]) * 16 + HexValue(s[6])))
    else None
  }

  /** A readable pixel gives `#` and six lower-case hex digits, which read
      back as the halved channels, each at most 0x7f; an unreadable one
      gives `#1a1a1a`. */
  lemma AvgColorRoundTrip(pixel: Option<seq<nat>>)
    requires pixel.Some? ==> forall i :: 0 <= i < |pixel.value| ==> pixel.value[i] < 256
    ensures pixel.None? || |pixel.value| < 3 ==> AvgColor(pixel) == FallbackColor
    ensures pixel.Some? && |pixel.value| >= 3 ==>
      var p := pixel.value;
      ParseHexColor(AvgColor(pixel)) == Some((p[0] / 2, p[1] / 2, p[2] / 2))
      && p[0] / 2 <= 0x7f && p[1] / 2 <= 0x7f && p[2] / 2 <= 0x7f
  {
    if pixel.Some? && |pixel.value| >= 3 {
      var p := pixel.value;
      var s := AvgColor(pixel);
      var r, g, b := Hex2(p[0] / 2), Hex2(p[1] / 2), Hex2(p[2] / 2);
      assert s == "#" + r + g + b;
      assert s[1] == r[0] && s[2] == r[1] && s[3] == g[0] && s[4] == g[1] && s[5] == b[0] && s[6] == b[1];
    }
  }
}
