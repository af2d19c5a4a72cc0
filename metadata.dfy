/** What the player reads from an audio file (metadata.py): the title,
    artist, duration and cover `get_track_info` reports, with their
    defaults and the duration estimate for large files, and the lyric text
    `get_lyrics` chooses between the embedded tag and a sidecar `.lrc`
    file. The tag libraries themselves are not modelled: what they read
    is given as an `AudioFile` value. Paths follow Windows conventions
    (`ntpath`): both `/` and `\` separate directories. */
module Metadata {
  import opened Wrappers
  import opened Text
  import opened LyricIndex
  import opened Sorting
  import LooseLrc

  /** A cover picture: the generated 800x800 `#222222` default, or a
      decoded picture, identified by a number. */
  datatype Image = DefaultCover | Picture(id: nat)

  /** The fields the tag reader returns; `""` and `0.0` stand for a value
      that is missing or otherwise false in Python's sense. */
  datatype Tags = Tags(title: string, artist: string, duration: real)

  /** What the libraries read from one audio file: the tags (None when the
      tag reader is missing or raises), the size in bytes, the embedded
      picture (None when there is none or it cannot be decoded) and the
      embedded lyric text (None when there is none or reading raises). */
  datatype AudioFile = AudioFile(tags: Option<Tags>, size: nat, picture: Option<nat>, lyrics: Option<string>)

  /** The `(title, artist, duration, cover)` tuple of `get_track_info`. */
  datatype TrackInfo = TrackInfo(title: string, artist: string, duration: real, cover: Image)

  const UnknownArtist: string := "Unknown"

  /** Files above this size (1 MiB) with a short reported duration get an
      estimated one. */
  const LargeFile: nat := 1048576

  /** Bytes per second assumed by the estimate (16 KiB, i.e. 128 kbit/s). */
  const BytesPerSecond: nat := 16384

  /** Reported durations below this many seconds are not trusted for large
      files. */
  const ShortDuration: real := 15.0

  // ---------------------------------------------------------------------
  // Paths (ntpath)
  // ---------------------------------------------------------------------

  predicate IsSep(c: char) {
    c == '/' || c == '\\'
  }

  /** `s` holds no separator. */
  predicate NoSep(s: string) {
    forall j :: 0 <= j < |s| ==> !IsSep(s[j])
  }

  /** Index just past the last separator of `p`, or 0 when there is none. */
  function AfterLastSep(p: string): (k: nat)
    ensures k <= |p|
    ensures forall j :: k <= j < |p| ==> !IsSep(p[j])
    ensures k > 0 ==> IsSep(p[k - 1])
  {
    if p == [] then 0
    else if IsSep(p[|p| - 1]) then |p|
    else AfterLastSep(p[..|p| - 1])
  }

  /** `p` without a leading drive such as `C:`. */
  function DropDrive(p: string): string {
    if |p| >= 2 && !IsSep(p[0]) && p[1] == ':' then p[2..] else p
  }

  /** `os.path.basename(p)`: what follows the drive and the last separator. */
  function Basename(p: string): (b: string)
    ensures NoSep(b)
  {
    var q := DropDrive(p);
    q[AfterLastSep(q)..]
  }

  /** The separator search stops at a separator followed by none. */
  lemma LastSepAt(p: string, k: nat)
    requires k <= |p| && (k == 0 || IsSep(p[k - 1])) && NoSep(p[k..])
    ensures AfterLastSep(p) == k
  {
    var a := AfterLastSep(p);
    assert k <= a by {
      if k > 0 {
        assert IsSep(p[k - 1]);
      }
    }
    forall j | k <= j < |p|
      ensures !IsSep(p[j])
    {
      assert p[j] == p[k..][j - k];
    }
  }

  /** The separator search finds the end of a directory part. */
  lemma AfterDirectory(dir: string, name: string)
    requires dir == [] || IsSep(dir[|dir| - 1])
    requires NoSep(name)
    ensures AfterLastSep(dir + name) == |dir|
  {
    assert (dir + name)[|dir|..] == name;
    LastSepAt(dir + name, |dir|);
  }

  /** The base name of `dir\name` is `name`, drive or no drive. */
  lemma BasenameOfPath(dir: string, sep: char, name: string)
    requires IsSep(sep)
    requires NoSep(name)
    ensures Basename(dir + [sep] + name) == name
  {
    var p := dir + [sep] + name;
    var q := DropDrive(p);
    if |p| >= 2 && !IsSep(p[0]) && p[1] == ':' {
      assert |dir| >= 2;
      assert q == dir[2..] + [sep] + name;
      AfterDirectory(dir[2..] + [sep], name);
    } else {
      assert p == (dir + [sep]) + name;
      AfterDirectory(dir + [sep], name);
    }
  }

  /** Position of the last `.` of `s`. */
  function LastDot(s: string): (d: Option<nat>)
    ensures d.Some? ==> d.value < |s| && s[d.value] == '.' && forall j :: d.value < j < |s| ==> s[j] != '.'
    ensures d.None? ==> forall j :: 0 <= j < |s| ==> s[j] != '.'
  {
    if s == [] then None
    else if s[|s| - 1] == '.' then Some(|s| - 1)
    else LastDot(s[..|s| - 1])
  }

  predicate AllDots(s: string) {
    forall j :: 0 <= j < |s| ==> s[j] == '.'
  }

  /** `os.path.splitext(p)[0]`: the path without the extension that starts
      at the last `.` of the base name, unless only dots precede that `.`
      in the base name (a name such as `.lrc` has no extension). The drive
      is not looked at. */
  function StripExtension(p: string): string {
    var k := AfterLastSep(p);
    var name := p[k..];
    match LastDot(name)
    case Some(d) => if AllDots(name[..d]) then p else p[..k + d]
    case None => p
  }

  /** The sidecar lyric file `get_lyrics` looks for. */
  function SidecarPath(audioPath: string): string {
    StripExtension(audioPath) + ".lrc"
  }

  /** A base name (from index `k`) whose last dot, at `k + d`, follows
      some other character has that dot and what follows it replaced:
      `dir\stem.mp3` has its sidecar at `dir\stem.lrc`. */
  lemma SidecarOfAudio(p: string, k: nat, d: nat)
    requires k <= |p| && (k == 0 || IsSep(p[k - 1])) && NoSep(p[k..])
    requires k + d < |p| && p[k + d] == '.' && '.' !in p[k + d + 1..]
    requires !AllDots(p[k..k + d])
    ensures SidecarPath(p) == p[..k + d] + ".lrc"
  {
    LastSepAt(p, k);
    var name := p[k..];
    forall j | d < j < |name|
      ensures name[j] != '.'
    {
      assert name[j] == p[k + d + 1..][j - d - 1];
    }
    LastDotAt(name, d);
    assert name[..d] == p[k..k + d];
  }

  /** The last dot is the one with no dot after it. */
  lemma LastDotAt(s: string, i: nat)
    requires i < |s| && s[i] == '.'
    requires forall j :: i < j < |s| ==> s[j] != '.'
    ensures LastDot(s) == Some(i)
  {
  }

  /** A base name whose dots, if any, all lead it has no extension: the
      sidecar is the path with `.lrc` appended (`.hidden` gives
      `.hidden.lrc`). */
  lemma SidecarWithoutExtension(p: string, k: nat)
    requires k <= |p| && (k == 0 || IsSep(p[k - 1])) && NoSep(p[k..])
    requires forall j :: k <= j < |p| && p[j] == '.' ==> AllDots(p[k..j])
    ensures SidecarPath(p) == p + ".lrc"
  {
    LastSepAt(p, k);
    var name := p[k..];
    var d := LastDot(name);
    if d.Some? {
      assert name[d.value] == p[k + d.value];
      assert name[..d.value] == p[k..k + d.value];
    }
  }

  // ---------------------------------------------------------------------
  // get_track_info
  // ---------------------------------------------------------------------

  /** The duration after the large-file estimate. */
  function EstimatedDuration(duration: real, size: nat): real {
    if duration < ShortDuration && size > LargeFile then (size as real) / (BytesPerSecond as real) else duration
  }

  /** A large file never reports less than 15 seconds: a short reported
      duration is replaced by the size at 16 KiB per second, which exceeds
      64 seconds; any other duration is kept. */
  lemma DurationHeuristic(duration: real, size: nat)
    ensures size > LargeFile ==> EstimatedDuration(duration, size) >= ShortDuration
    ensures duration < ShortDuration && size > LargeFile ==>
      EstimatedDuration(duration, size) > 64.0
      && EstimatedDuration(duration, size) * (BytesPerSecond as real) == size as real
    ensures !(duration < ShortDuration && size > LargeFile) ==> EstimatedDuration(duration, size) == duration
  {
  }

  /** `get_track_info(path)`: the base name, `"Unknown"`, 0 and the default
      cover, each replaced by the tag value when that is present and true,
      then the duration estimate and the embedded picture. */
  function GetTrackInfo(path: string, f: AudioFile): TrackInfo {
    var title := if f.tags.Some? && f.tags.value.title != "" then f.tags.value.title else Basename(path);
    var artist := if f.tags.Some? && f.tags.value.artist != "" then f.tags.value.artist else UnknownArtist;
    var duration := if f.tags.Some? then f.tags.value.duration else 0.0;
    var cover := if f.picture.Some? then Picture(f.picture.value) else DefaultCover;
    TrackInfo(title, artist, EstimatedDuration(duration, f.size), cover)
  }

  /** Defaults and overrides: a title or artist tag replaces the default
      only when it is non-empty; a tag's duration replaces 0 (a zero tag
      leaves 0, as `if t.duration:` does) and is kept unless the file is
      above 1 MiB and the duration below 15 seconds, when the size at
      16 KiB per second is used instead; the cover is the default exactly
      when the file has no readable picture. */
  lemma TrackInfoDefaults(path: string, f: AudioFile)
    ensures var info := GetTrackInfo(path, f);
      (f.tags.Some? && f.tags.value.title != "" ==> info.title == f.tags.value.title)
      && (f.tags.None? || f.tags.value.title == "" ==> info.title == Basename(path))
      && (f.tags.Some? && f.tags.value.artist != "" ==> info.artist == f.tags.value.artist)
      && (f.tags.None? || f.tags.value.artist == "" ==> info.artist == UnknownArtist)
      && (f.tags.None? && f.size <= LargeFile ==> info.duration == 0.0)
      && (f.tags.None? && f.size > LargeFile ==> info.duration * (BytesPerSecond as real) == f.size as real)
      && (f.tags.Some? && (f.size <= LargeFile || f.tags.value.duration >= ShortDuration) ==>
            info.duration == f.tags.value.duration)
      && (f.tags.Some? && f.size > LargeFile && f.tags.value.duration < ShortDuration ==>
            info.duration * (BytesPerSecond as real) == f.size as real)
      && (info.cover == DefaultCover <==> f.picture.None?)
      && (f.size > LargeFile ==> info.duration >= ShortDuration)
  {
    var duration := if f.tags.Some? then f.tags.value.duration else 0.0;
    DurationHeuristic(duration, f.size);
  }

  // ---------------------------------------------------------------------
  // get_lyrics
  // ---------------------------------------------------------------------

  /** `get_lyrics(path)` given the embedded lyric text and the readable
      text files on disk (path to contents): the embedded text when it is
      not empty, otherwise the sidecar file's text, parsed by
      `parse_lrc_content`; no lyrics when neither gives any text. */
  function GetLyrics(path: string, embedded: Option<string>, files: map<string, string>): Lyrics {
    if embedded.Some? && embedded.value != "" then LooseLrc.Parse(embedded.value)
    else
      var side := SidecarPath(path);
      if side in files && files[side] != "" then LooseLrc.Parse(files[side]) else NoLyrics
  }

  /** Embedded text wins and then the sidecar is never read; an empty
      embedded text counts as none; without either the result is
      `({}, [])`. */
  lemma GetLyricsPrecedence(path: string, text: string, files: map<string, string>, other: map<string, string>)
    ensures text != "" ==>
      GetLyrics(path, Some(text), files) == GetLyrics(path, Some(text), other) == LooseLrc.Parse(text)
    ensures GetLyrics(path, Some(""), files) == GetLyrics(path, None, files)
    ensures SidecarPath(path) in files && files[SidecarPath(path)] != "" ==>
      GetLyrics(path, None, files) == LooseLrc.Parse(files[SidecarPath(path)])
    ensures SidecarPath(path) !in files ==> GetLyrics(path, None, files) == NoLyrics
  {
  }

  /** Whatever the source, the lyrics come as an index: the time points
      ascending, each a key of the dictionary, and no other keys. */
  lemma GetLyricsIndex(path: string, embedded: Option<string>, files: map<string, string>)
    ensures Sorted(GetLyrics(path, embedded, files).times)
    ensures GetLyrics(path, embedded, files).lines.Keys == set t | t in GetLyrics(path, embedded, files).times
  {
    if embedded.Some? && embedded.value != "" {
      LooseLrc.ParseIndex(embedded.value);
    } else if SidecarPath(path) in files && files[SidecarPath(path)] != "" {
      LooseLrc.ParseIndex(files[SidecarPath(path)]);
    }
  }
}
