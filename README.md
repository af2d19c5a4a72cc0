# Music player core in Dafny

A model of the bookkeeping behind a small desktop music player written in
Python. The player keeps a playlist and plays it with pygame. It shows
time-synchronised LRC lyrics and a cover, and it fetches missing lyrics and
covers from a music server into a local `sinf` cache folder. The model covers
what the player decides and computes. It does not cover what the player draws
or how it talks to the audio, image and HTTP libraries.

- **Lyric parsing.** There are two LRC parsers. `StrictLrc` is the strict one
  of the online fetcher, `_parse_lrc`, which the player repeats verbatim when
  it reads its own cache. `LooseLrc` is the lenient `parse_lrc_content` used
  for lyrics found with the audio file.
  - Both build the same kind of index, modelled in `LyricIndex`: a dictionary
    from timestamp to text, and the ascending list of collected timestamps.
    The sort is `Sorting`.
  - `LyricIndex` also holds the monitor's "which line is active" scan.
  - Timestamps are exact `real` seconds.
- **Cache keys.** `SafeName` models `_get_safe_filename`.
- **Fetcher and cache.** `Fetcher` holds the `OnlineFetcher` class over the
  cache directory:
  - the cache-hit rule;
  - the "cache, then network, then write back" precedence of `fetch_lyrics`
    and `fetch_cover`;
  - the loop that picks a lyric among the first three search results.
- **Audio file metadata.** `Metadata` models the defaults, overrides and
  duration estimate of `get_track_info`, and the embedded-then-sidecar
  precedence of `get_lyrics`, with Windows path handling for the sidecar
  name.
- **Formatting helpers.** `Utils` models `fmt_time` and the colour formatting
  of `get_avg_color`.
- **Animation frames.** `Easing` models one frame each of the lyric scroll,
  the playlist drop-down and the background drift.
- **Player state.** `PlayerState` describes `MusicPlayer` as values:
  - a `Snapshot` of its fields;
  - one function per event (load, drop, remove, next, previous, toggle, seek
    click and release, monitor tick, animation frames);
  - the invariant `Consistent` that every event keeps, whatever the outside
    world answers at each event (`Run` pairs every event with its own
    answers).
- **The player class.** `Player.MusicPlayer` is the class itself. Its fields
  are updated in place, one method per event. Each method is proved to leave
  the fields in the state the matching `PlayerState` function gives.

What the libraries would answer is passed in as values: an `Env` holding the
audio files and their tags, the text files on disk, the server's replies, and
whether pygame and the background renderer succeed. A cache write may fail,
which the source ignores; that is a `saveOk` flag.

## Behaviour of the source worth knowing

These are modelled as written, with lemmas that exhibit them:

- **Removing the current track.** `remove_from_playlist` does not play the
  next track, although its comment says it does (main.py:427-432):
  - Removing the current entry `i` of a longer list, when it is not the last
    entry, makes `i - 1` current.
  - For `i = 0` the index becomes `-1`, and `play_index(-1)` plays the last
    track through Python's negative indexing.
  - Lemmas: `PlayerState.RemoveCurrent` and `PlayerState.RemoveFirstPlaysLast`.
- **Two-digit fractions.** The strict parser divides the fraction by 1000
  whether it has two or three digits, so `[00:01.50]` is 1.05 s
  (online_fetcher.py:264). The lenient parser reads the same tag as 1.5 s.
  - Lemmas: `StrictLrc.TwoDigitFractionIsMilliseconds`,
    `LooseLrc.ParsersAgreeOnTime` and `LooseLrc.ParsersDisagree`.
  - The fraction is not read as hundredths, and only the first tag of a line
    counts; the model follows the code on both.
- **Carriage returns in cached lyrics.** The strict parser splits on `\n`
  only (online_fetcher.py:255). The cache file is written and read in text
  mode (online_fetcher.py:291, online_fetcher.py:325), which turns a lone
  `\r` into a line break. So a text from the server with lines joined by
  `\r` parses to fewer entries on the first fetch than when it is read
  back from the cache.
  - Lemmas: `Fetcher.FetchLyricsTwice`, `Fetcher.CarriageReturnInCache`,
    `Fetcher.ServerLineKeepsCarriageReturn` and
    `Fetcher.CachedLinesBothTagged`.
- **Failing background render.** `process_background` is defined with three
  parameters (utils.py:66) but called with five (main.py:517, main.py:952),
  so every call raises `TypeError`. In the source as written `renderOk` is
  therefore always false at `play_index`: its `update_visuals` call always
  raises before the audio starts, and a stopped player stays stopped. The
  model keeps the render's success an input, `renderOk`, so that it also
  describes the player once the call is fixed. Lemma:
  `PlayerState.PlayIndexNeedsRender`.

## Model

| member | source | states |
|---|---|---|
| `Text.NatToString` | utils.py:53 | `f"{n}"` gives at least one decimal digit, only digits, no leading zero (except for 0 itself), and reads back as `n` |
| `Text.StripKeepsMiddle` | online_fetcher.py:262 | `strip()` keeps a middle slice of the text; everything before and after it is whitespace, and a non-empty result neither starts nor ends with whitespace |
| `Text.StripTrimmed` | metadata.py:60 | a text with no leading or trailing whitespace is its own `strip()` |
| `Text.JoinSplit` | online_fetcher.py:256 | `split('\n')` loses nothing: joining the parts with the separator gives back the text; no part contains the separator |
| `Text.SplitLines` | metadata.py:57 | no line from `splitlines()` contains a line boundary |
| `Text.OneLine` | metadata.py:57 | a non-empty text without a boundary is one line |
| `Text.SplitLinesCons` | metadata.py:57 | a line, one boundary (a single boundary character, or `\r\n`) and a rest split into that line followed by the lines of the rest |
| `Text.SplitNone` | online_fetcher.py:255 | `split('\n')` of a text without `\n` is the text alone |
| `Text.SplitCons` | online_fetcher.py:255 | a part without the separator, the separator and a rest split into that part followed by the parts of the rest |
| `Text.TextModeRoundTrip` | online_fetcher.py:291-292 | a text written in text mode (each `\n` stored as `\r\n`) and read back with universal newlines (`\r\n` and a lone `\r` read as `\n`) comes back with each `\r` turned into `\n` and is otherwise unchanged |
| `Text.CrToLfKeeps` | online_fetcher.py:325-326 | a text without `\r` comes back from the cache unchanged |
| `Text.AsciiLower` | main.py:661 | `lower()` maps A-Z to a-z and leaves every other ASCII character alone |
| `Sorting.Sort` | online_fetcher.py:270 | `list.sort()` gives an ascending sequence with the same elements, counted with multiplicity |
| `Sorting.SortedUnique` | metadata.py:67 | two ascending sequences with the same elements are equal, so the sorted list does not depend on the sort algorithm |
| `SafeName.SafeFilename` | online_fetcher.py:273-281 | the result has length `min(len, 200)`; position `i` holds `_` if the title's character is one of `<>:"/\|?*`, and the title's character otherwise; no forbidden character remains |
| `SafeName.GetSafeFilename` | online_fetcher.py:275-281 | the loop of one `replace` per forbidden character, then the 200-character cut, computes `SafeFilename` |
| `SafeName.SafeFilenameIdempotent` | online_fetcher.py:273-281 | applying the function twice changes nothing more |
| `SafeName.SharedCacheFile` | online_fetcher.py:277-280 | titles that differ only in forbidden characters, or only after position 200, get the same cache file |
| `SafeName.ColonAndQuestionMarkCollide` | online_fetcher.py:275-278 | `a:b` and `a?b` are both stored as `a_b` |
| `LyricIndex.CollectOne` | online_fetcher.py:267-268 | collecting one entry sets (or overwrites) its timestamp in the dictionary and appends the timestamp to the list |
| `LyricIndex.CollectEmpty` | online_fetcher.py:256-268 | nothing is collected exactly when no line contributes an entry |
| `LyricIndex.MapOfKeys` | online_fetcher.py:267 | the dictionary's keys are exactly the collected timestamps |
| `LyricIndex.MapOfLastWins` | online_fetcher.py:267 | a timestamp collected more than once keeps the text of its last entry |
| `LyricIndex.BuildIndex` | online_fetcher.py:266-271 | `time_points` is ascending and holds each collected timestamp as often as it was collected; the dictionary's keys are exactly the time points; the dictionary is empty iff nothing was collected |
| `LyricIndex.ActiveLineCharacterized` | main.py:1003-1006 | the scan's result is `i` iff every time point up to `i` is at most the position and the next one, if any, is later |
| `LyricIndex.ActiveLineSorted` | main.py:1003-1006 | on ascending time points the scan gives the greatest index whose time is at most the position, or -1 |
| `LyricIndex.ActiveLineMonotone` | main.py:1003-1006 | as the position moves forward, the active line never moves back |
| `LyricIndex.ActiveLineEnds` | main.py:1003-1006 | before the first time point no line is active; from the last one on, the last line is active |
| `LyricIndex.ScanActiveLine` | main.py:1003-1006 | the `for ... break` scan computes `ActiveLine` |
| `StrictLrc.ParseLrc` | online_fetcher.py:248-271 | the line loop plus the final sort returns `Parse(text)`, the index of the collected entries |
| `StrictLrc.TaggedLine` | online_fetcher.py:254-268 | a line `[mm:ss.ff]rest` or `[mm:ss.fff]rest` yields `mm*60 + ss + fff/1000` with the stripped rest; an empty stripped rest yields nothing; later tags stay in the text |
| `StrictLrc.OnlyTaggedLines` | online_fetcher.py:254-258 | a line yields an entry only if it starts with `[`, two digits, `:`, two digits, `.`, two or three digits and `]` |
| `StrictLrc.ParseIndex` | online_fetcher.py:256-271 | time points ascending; the keys are exactly the time points; empty lyrics iff no line starts with a tag followed by text |
| `StrictLrc.TwoDigitFractionIsMilliseconds` | online_fetcher.py:261-264 | `[00:01.50]la` is read as 1.05 s |
| `LooseLrc.Tagged` | metadata.py:62-66 | one entry per timestamp, in order, all with the line's text |
| `LooseLrc.ParseLrcContent` | metadata.py:54-68 | the nested loops plus the final sort return `Parse(text)` |
| `LooseLrc.ParseIndex` | metadata.py:57-68 | time points ascending; the keys are exactly the time points; empty lyrics iff no line has both a tag and text |
| `LooseLrc.MatchTagged` | metadata.py:59 | `\[(\d+):(\d+\.?\d*)\]` matches a well-formed tag at the start of a line as a whole |
| `LooseLrc.FindTagged` | metadata.py:59 | `findall` finds a leading tag with its value `mm*60 + ss.ff` and continues right after it |
| `LooseLrc.RemoveTagged` | metadata.py:60 | `re.sub(r'\[.*?\]', '')` removes a leading tag entirely |
| `LooseLrc.PlainText` | metadata.py:59-60 | a text without `[` holds no tag and nothing to remove |
| `LooseLrc.SkipPlain` | metadata.py:59 | `findall` passes over text without `[`: the tags found are those of what follows |
| `LooseLrc.FindTaggedAfter` | metadata.py:59 | a well-formed tag after any text without `[` is found with its value, and the search goes on right after it |
| `LooseLrc.SkipOtherBracket` | metadata.py:59-60 | a bracketed run that is not a time tag (such as `[ar:name]`) yields no time and is removed from the text |
| `LooseLrc.PlainLine` | metadata.py:61 | a line with no tag yields no entry |
| `LooseLrc.PrependTag` | metadata.py:59-66 | a tag written in front of a line that has text adds one entry before the line's own, so `[t1]...[tn]text` yields one entry per tag in order, all with the text |
| `LooseLrc.ParsersAgreeOnTime` | metadata.py:63-64 | on a strict-form tag the two parsers give the same time iff the fraction has three digits or is zero |
| `LooseLrc.ExampleStamp` | metadata.py:63-64 | `[00:01.50]` is read as 1.5 s |
| `LooseLrc.ParsersDisagree` | metadata.py:59-66 | on the line `[00:01.50]la` the lenient parser gives 1.5 s and the strict one 1.05 s |
| `Metadata.BasenameOfPath` | metadata.py:18 | `os.path.basename` of `dir` + separator + `name` (drive or not, `/` or `\`) is `name` |
| `Metadata.SidecarOfAudio` | metadata.py:84-85 | for `dir\stem.ext` the sidecar is `dir\stem.lrc`: everything from the base name's last dot is replaced |
| `Metadata.SidecarWithoutExtension` | metadata.py:84-85 | a base name with no dot, or only leading dots, has `.lrc` appended |
| `Metadata.DurationHeuristic` | metadata.py:31-33 | a file over 1 MiB with a duration below 15 s gets `size / 16384` s, which exceeds 64 s; any other duration is unchanged |
| `Metadata.TrackInfoDefaults` | metadata.py:17-52 | title and artist default to the base name and `"Unknown"` and a tag overrides them only when non-empty; a tag's duration replaces 0 and is kept unless the file is over 1 MiB and the duration below 15 s, when it is `size / 16384`; with no tags and a file over 1 MiB it is `size / 16384`, otherwise 0; the cover is the default iff the file has no readable picture |
| `Metadata.GetLyricsPrecedence` | metadata.py:70-94 | non-empty embedded text wins and the sidecar is then never read; empty embedded text counts as none; otherwise the sidecar text; with neither, `({}, [])` |
| `Metadata.GetLyricsIndex` | metadata.py:92-94 | whatever the source, the lyrics have ascending time points, and the keys are exactly those time points |
| `Fetcher.Candidates` | online_fetcher.py:116 | `songs[:3]`: at most three results, a prefix of the search results |
| `Fetcher.FetchFromNetease` | online_fetcher.py:91-160 | the search, then the loop over the first three songs with `continue` and early returns, computes `NeteaseLyrics` |
| `Fetcher.FirstUsableAt` | online_fetcher.py:116-150 | when the loop stops at a reply, it returns that reply's parse and raw text |
| `Fetcher.FirstUsableWitness` | online_fetcher.py:116-150 | a lyric is returned only when some reply is usable and every earlier one was skipped |
| `Fetcher.FirstUsableChoice` | online_fetcher.py:116-150 | a lyric is returned iff some reply is usable (status 200, non-empty text, non-empty parse) with all earlier replies skipped, and the result is that reply's parse and text |
| `Fetcher.OnlyFirstThree` | online_fetcher.py:116 | search results after the third never influence the result |
| `Fetcher.NeteaseLyricsFound` | online_fetcher.py:136-143 | a lyric found online is the non-empty parse of a non-empty text, with ascending time points |
| `Fetcher.CacheHitRule` | online_fetcher.py:318-335 | a cache file counts as a hit iff it exists under the safe name and its text-mode read parses to something, and the hit is that parse; an empty parse is a miss, `({}, [])` |
| `Fetcher.FetchLyricsHit` | online_fetcher.py:52-55 | on a cache hit the result does not depend on the network, and the cache is unchanged |
| `Fetcher.FetchLyricsMiss` | online_fetcher.py:57-65 | on a miss the result is the network's lyric or `({}, [])`; only the title's own cache file may change, and it gets the raw text found as a text-mode write stores it |
| `Fetcher.FetchLyricsTwice` | online_fetcher.py:45-65 | after a lyric is fetched and saved, a second fetch of the title returns, without the network, the parse of the raw text with each `\r` read back as `\n` (when that parse is not empty); for a text without `\r` that is exactly the first fetch's lyrics |
| `Fetcher.CarriageReturnInCache` | online_fetcher.py:255 | two lines joined by a lone `\r` are one line for the strict parser as fetched, and two lines once written to the cache and read back |
| `Fetcher.ServerLineKeepsCarriageReturn` | online_fetcher.py:255-268 | the fetched line `[00:01.00]a\r[00:02.00]b` is one entry at 1 s whose text keeps the `\r` and the second tag |
| `Fetcher.CachedLinesBothTagged` | online_fetcher.py:255-268 | read back from the cache, its two lines give entries at 1 s and 2 s |
| `Fetcher.FetchLyricsSorted` | online_fetcher.py:45-65 | fetched lyrics always have ascending time points |
| `Fetcher.FetchCoverPrecedence` | online_fetcher.py:67-87 | a cached cover is returned as is; otherwise the online cover is returned and saved under the safe name, or None is returned and nothing is saved |
| `Fetcher.FetchCoverTwice` | online_fetcher.py:67-87 | a cover fetched and saved is served from the cache next time |
| `Fetcher.OnlineFetcher.constructor` | online_fetcher.py:20-41 | the fetcher opens over an existing cache directory |
| `Fetcher.OnlineFetcher.LoadLyricsFromCache` | online_fetcher.py:318-335 | returns `CachedLyrics`: the parse of the cached file read in text mode, or `({}, [])` when it is missing or parses to nothing |
| `Fetcher.OnlineFetcher.LoadCoverFromCache` | online_fetcher.py:337-350 | returns the cover stored under the safe name, or None |
| `Fetcher.OnlineFetcher.SaveLyrics` | online_fetcher.py:285-296 | the text is written in text mode under the safe name unless the write fails; covers are untouched |
| `Fetcher.OnlineFetcher.SaveCover` | online_fetcher.py:298-316 | the cover is stored under the safe name unless the write fails; lyrics are untouched |
| `Fetcher.OnlineFetcher.FetchLyrics` | online_fetcher.py:45-65 | the result and the new lyric cache are those of `FetchLyricsOf` |
| `Fetcher.OnlineFetcher.FetchCover` | online_fetcher.py:67-87 | the result and the new cover cache are those of `FetchCoverOf` |
| `Utils.Seconds` | utils.py:53 | `int(sec % 60)` is below 60 |
| `Utils.TwoDigits` | utils.py:53 | `:02` gives exactly two digits |
| `Utils.TwoDigitsValue` | utils.py:53 | the two digits read back as the number |
| `Utils.FmtTimeRoundTrip` | utils.py:52-53 | for `sec >= 0` the text is `M:SS` with `M = floor(sec/60)`; it reads back as `floor(sec)` |
| `Utils.ClockSplit` | utils.py:53 | whole minutes times 60 plus the seconds of the minute is `floor(sec)` |
| `Utils.FmtTimeWholeSeconds` | utils.py:52-53 | a whole number of seconds reads back unchanged: `60*M + SS == sec` |
| `Utils.Hex2` | utils.py:62 | `:02x` gives two lower-case hex digits that read back as the value |
| `Utils.AvgColorRoundTrip` | utils.py:55-64 | a readable pixel gives `#` and six lower-case hex digits, which read back as each channel halved and rounded down (each at most 0x7f); otherwise `#1a1a1a` |
| `Easing.ScrollStepApproaches` | main.py:590-594 | for a smoothing factor in (0,1] a lyric frame never overshoots and leaves the fraction `1 - smoothing` of the distance; within 0.5 px nothing moves |
| `Easing.ScrollRunAtRest` | main.py:593 | once within 0.5 px of the target, the scroll stays put over any number of frames |
| `Easing.ScrollRunConverges` | main.py:587-598 | after `k` frames the scroll is within 0.5 px of the target, or has only `(1 - smoothing)^k` of the distance left |
| `Easing.DropdownStepApproaches` | main.py:257-268 | a drop-down frame never overshoots; a gap over 1 px shrinks to 70%, and a smaller one closes exactly |
| `Easing.DropdownSettles` | main.py:250-270 | from a gap of at most `(10/7)^n` px the drop-down sits exactly on its target after `n + 1` frames |
| `Easing.DropdownRunAtTarget` | main.py:266-268 | a drop-down at its target stays there |
| `Easing.PhaseStepInRange` | main.py:919-921 | the drift phase stays in [0, 4) |
| `Easing.BgOffsetPath` | main.py:924-946 | both offsets stay in [-1, 1]; the path passes the four corners at phases 0, 1, 2 and 3; the end of a cycle meets its start |
| `Easing.BgOffsetContinuous` | main.py:924-946 | each offset moves by at most twice the phase difference, so the drift has no jumps |
| `PlayerState.Initial` | main.py:53-121 | the start state: empty playlist, index -1, neither playing nor dragging, no lyrics, and the invariant holds |
| `PlayerState.SinfAgreesWithCache` | main.py:798-847 | the player's own cache reader and the fetcher's agree on a hit and on its contents |
| `PlayerState.PyIndex` | main.py:698 | `playlist[index]` reads position `index`, or `n + index` for a negative index |
| `PlayerState.BgFrame` | main.py:912-962 | a background frame changes only the phase and the timer flag, and unschedules itself when the player is stopped |
| `PlayerState.StartBackground` | main.py:901-904 | starting the drift changes only the phase and the timer flag |
| `PlayerState.StartPlayback` | main.py:760-768 | the end of `play_index` changes only the playing flag, the timer and the phase; the player then plays iff it already did, or the render and the audio load both succeeded |
| `PlayerState.LoadTrackResets` | main.py:700-760 | loading a track keeps the playlist, the index and the transport flags; it sets the track's duration and resets the position, active line, scroll and phase; the cover becomes the background |
| `PlayerState.StartPlaybackFlags` | main.py:760-768 | `StartPlayback`'s frame and playing-flag rule, with the phase kept in [0, 4) |
| `PlayerState.LyricsForSorted` | main.py:709-730 | the lyrics `play_index` settles on have ascending time points |
| `PlayerState.LyricsPrecedence` | main.py:707-730 | embedded lyrics win when non-empty (or when online fetching is off); then the sinf cache; then the network, whose text is written back in text mode; only the title's cache file may change |
| `PlayerState.CoverPrecedence` | main.py:739-758 | the file's own picture wins; otherwise the cached cover, then the online cover (which is saved), else the default cover |
| `PlayerState.PlayIndexKeeps` | main.py:693-698 | on a non-empty playlist, `play_index` stores the given index and keeps the playlist and the drag flag, whatever fails later |
| `PlayerState.PlayIndexResets` | main.py:693-768 | for a readable track: the track's duration, position 0, no active line, both scroll offsets 0, the cover as background, and playing iff already playing or render and audio succeed |
| `PlayerState.PlayIndexNeedsRender` | main.py:760-768 | a stopped player stays stopped when the background render fails |
| `PlayerState.LoadTrackConsistent` | main.py:700-760 | loading a track keeps the invariant |
| `PlayerState.StartPlaybackConsistent` | main.py:760-768 | starting playback keeps the invariant |
| `PlayerState.PlayIndexConsistent` | main.py:693-768 | `play_index` with -1 or an in-range index keeps the invariant |
| `PlayerState.RemoveAt` | main.py:443 | `del playlist[index]`: one element shorter; elements before `index` stay and later ones shift down by one |
| `PlayerState.RemoveOther` | main.py:419-446 | out-of-range index: no change. Removing a non-current entry makes the playlist `RemoveAt` of the old one (that entry deleted, the rest in order) and changes nothing else; the index drops by one iff the entry lay before it, so the same track stays current |
| `PlayerState.RemoveOnly` | main.py:433-437 | removing the only entry, when current, empties the list, sets the index to -1 and stops playing |
| `PlayerState.RemoveCurrent` | main.py:428-432 | removing current entry `i` of a longer list: the last entry gives index 0 (the first track); any other `i` gives `i - 1`, so the previous track plays; `i = 0` plays the last track |
| `PlayerState.RemoveFirstPlaysLast` | main.py:427-432 | with three tracks and the first playing, removing it plays the third |
| `PlayerState.RemoveConsistent` | main.py:417-450 | `remove_from_playlist` keeps the invariant |
| `PlayerState.AppendLaysOut` | main.py:663-670 | the playlist becomes old ++ new, in order; index 0 becomes current if nothing was current or the list was empty, otherwise the index is kept; appending nothing changes nothing |
| `PlayerState.AppendConsistent` | main.py:676-687 | appending keeps the invariant |
| `PlayerState.AudioOnly` | main.py:661 | keeps exactly the names ending, ignoring case, in `.mp3`, `.wav`, `.flac` or `.m4a`, each as many times as it was dropped and no other name; empty iff there are none |
| `PlayerState.AudioOnlyAppend` | main.py:661 | the filter keeps the dropped order: filtering two batches in turn is filtering them together |
| `PlayerState.DropKeepsAudio` | main.py:653-670 | a drop appends exactly the audio names, and a drop with none changes nothing |
| `PlayerState.Wrap` | main.py:967-976 | `(i ± 1) % n` lies in [0, n): the last entry is followed by the first, the first is preceded by the last, and -1 is preceded by `n - 2` when `n >= 2` (by 0 when `n = 1`) |
| `PlayerState.NextPrevWrap` | main.py:964-980 | on a non-empty list, next and previous move the index by ±1 modulo the length and keep the playlist; on an empty list they change nothing |
| `PlayerState.NextPrevConsistent` | main.py:964-980 | next and previous keep the invariant |
| `PlayerState.TogglePlayFlips` | main.py:892-899 | on a non-empty list the playing flag flips and two toggles restore it; pausing stops the drift; an empty list is left alone |
| `PlayerState.TogglePlayConsistent` | main.py:892-899 | toggling keeps the invariant |
| `PlayerState.BgFrameConsistent` | main.py:912-921 | a background frame keeps the phase in [0, 4) |
| `PlayerState.ProgClick` | main.py:628-630 | pressing on the bar starts a drag |
| `PlayerState.Clamp01` | main.py:639 | `max(0, min(1, ratio))` lies in [0, 1] and leaves a ratio already in [0, 1] unchanged |
| `PlayerState.ProgReleaseSeeks` | main.py:635-646 | dragging always ends; a seek lands in [0, total duration], at 0 left of the bar and at the end right of it; the playlist is untouched |
| `PlayerState.PositionClamped` | main.py:985-989 | the position lies in [0, total duration]; a raw -1 reads as 0; inside the bounds it is `raw/1000 + seek_offset` |
| `PlayerState.FollowConsistent` | main.py:1002-1012 | following the active line keeps the invariant |
| `PlayerState.MonitorFollowsLyrics` | main.py:982-1012 | a tick does nothing while paused or dragging; otherwise, short of the end, it changes only the active line and the scroll; a change picks the last time point at or before the position, never -1, and sets the scroll to 32 and the target to 0 |
| `PlayerState.MonitorAdvances` | main.py:1014-1015 | with the engine idle within a second of the end, the tick moves to the next entry, wrapping around |
| `PlayerState.MonitorConsistent` | main.py:982-1017 | a tick keeps the invariant |
| `PlayerState.AnimateLyricsApproaches` | main.py:587-598 | a lyric frame changes only the scroll offset and never passes the target |
| `PlayerState.AnimateDropdownApproaches` | main.py:250-270 | a drop-down frame changes only the height and never passes the target |
| `PlayerState.ToggleDropdownFlips` | main.py:205-248 | toggling flips visibility, and two toggles restore it; closing heads for height 0, opening for the height below the cover |
| `PlayerState.StepConsistent` | main.py:136-148 | every user or timer event keeps the invariant |
| `PlayerState.RunConsistent` | main.py:136-154 | any sequence of events, each with its own answers from the outside world, keeps the invariant |
| `PlayerState.ReachableConsistent` | main.py:53-154 | every state reachable from the start, through any events and answers, satisfies the invariant |
| `Player.MusicPlayer.constructor` | main.py:53-121 | the fields start as `Initial` describes, and the invariant holds |
| `Player.MusicPlayer.LoadLyricsFromSinf` | main.py:798-847 | returns the strict parse of the cached file under the safe name, read in text mode, or `({}, [])` without one |
| `Player.MusicPlayer.LoadCoverFromSinf` | main.py:849-874 | returns the cached cover under the safe name, or None |
| `Player.MusicPlayer.AnimateBackground` | main.py:912-962 | the fields after one frame are those of `BgFrame`, and a frame from a state with the invariant keeps it |
| `Player.MusicPlayer.StartBackgroundAnimation` | main.py:901-904 | the fields become those of `StartBackground` |
| `Player.MusicPlayer.StopBackgroundAnimation` | main.py:906-910 | only the timer flag is cleared |
| `Player.MusicPlayer.ChooseLyrics` | main.py:707-730 | the chosen lyrics and the new lyric cache are those of `LyricsFor`; the cover cache is untouched |
| `Player.MusicPlayer.ChooseCover` | main.py:739-758 | the chosen cover and the new cover cache are those of `CoverFor`; the lyric cache is untouched |
| `Player.MusicPlayer.ShowLyrics` | main.py:704-736 | sets the duration and the lyrics, and resets the position, active line and scroll |
| `Player.MusicPlayer.SetDuration` | main.py:704-705 | sets the duration and restarts the position at 0 |
| `Player.MusicPlayer.SetLyrics` | main.py:709-728 | sets the chosen lyrics |
| `Player.MusicPlayer.ResetLyricScroll` | main.py:732-736 | no active line, both scroll offsets 0 |
| `Player.MusicPlayer.ShowCover` | main.py:503-514 | the cover becomes the cover and the background image, and the phase restarts |
| `Player.MusicPlayer.LoadTrack` | main.py:700-760 | the fields after loading are those of `PlayerState.LoadTrack` |
| `Player.MusicPlayer.StartPlayback` | main.py:760-768 | the fields become those of `PlayerState.StartPlayback` |
| `Player.MusicPlayer.PlayIndex` | main.py:693-768 | the fields become those of `PlayerState.PlayIndex` |
| `Player.MusicPlayer.RemoveCurrentAndPlayOn` | main.py:428-432 | deletes the entry, stores `IndexAfterRemoval` and plays it |
| `Player.MusicPlayer.RemoveFromPlaylist` | main.py:417-450 | the fields become those of `Remove`, and the invariant is kept |
| `Player.MusicPlayer.ClearPlaylist` | main.py:433-437 | empty playlist, index -1, not playing |
| `Player.MusicPlayer.RemoveOtherEntry` | main.py:441-446 | deletes the entry and lowers the index iff the entry lay before it |
| `Player.MusicPlayer.AppendFiles` | main.py:663-670 | the fields become those of `Append`, and the invariant is kept |
| `Player.MusicPlayer.ExtendPlaylist` | main.py:666 | the new files go after the old entries |
| `Player.MusicPlayer.LoadFiles` | main.py:676-691 | the fields become those of `Append` with the chosen files |
| `Player.MusicPlayer.OnDrop` | main.py:653-674 | the fields become those of `Drop`: only audio names are appended |
| `Player.MusicPlayer.NextSong` | main.py:973-980 | the fields become those of `Next`, and the invariant is kept |
| `Player.MusicPlayer.PrevSong` | main.py:964-971 | the fields become those of `Prev`, and the invariant is kept |
| `Player.MusicPlayer.TogglePlay` | main.py:892-899 | the fields become those of `PlayerState.TogglePlay` |
| `Player.MusicPlayer.OnProgClick` | main.py:628-630 | the fields become those of `ProgClick` |
| `Player.MusicPlayer.OnProgRelease` | main.py:635-646 | the fields become those of `ProgRelease` |
| `Player.MusicPlayer.Monitor` | main.py:982-1017 | the fields become those of `PlayerState.Monitor`, and the invariant is kept |
| `Player.MusicPlayer.CurrentPosition` | main.py:985-989 | computes `Position(raw, seek_offset, total_duration)` |
| `Player.MusicPlayer.FollowActiveLine` | main.py:1002-1012 | the scan and the update give the fields of `Follow` |
| `Player.MusicPlayer.AnimateLyrics` | main.py:587-598 | the fields become those of `PlayerState.AnimateLyrics` |
| `Player.MusicPlayer.AnimateDropdown` | main.py:250-270 | the fields become those of `PlayerState.AnimateDropdown` |
| `Player.MusicPlayer.TogglePlaylistDropdown` | main.py:205-248 | the fields become those of `ToggleDropdown` |

## Left out

- **Not modelled: UI and platform code.**
  - All Tk/customtkinter drawing and layout: canvas items, the drop-down
    widget and its highlight, lyric drawing positions, button images and the
    resize handler.
  - `play_from_playlist`, which is `play_index` plus a highlight update.
  - The loading text.
  - The splash screen, icon rasterisation, and font loading via Windows GDI.
- **Not modelled: libraries and I/O.** These are inputs (`Env`, `AudioFile`,
  `SearchReply`, flags):
  - pygame (`load`, `play`, `pause`, `unpause`, `get_pos`, `get_busy`);
  - the HTTP requests and JSON decoding;
  - mutagen/tinytag tag reading, PIL image decoding, resizing and blurring,
    and `process_background`;
  - file existence checks and reads.
- **Not modelled: timers and concurrency.** The `after`/`after_cancel` timer
  loops are not modelled; each event is one step. The fetches run
  synchronously inside `play_index`, but the handlers can still interleave:
  `_show_loading_text` calls `canvas.update()` (main.py:796), which runs
  pending Tk timer and user events inside the handler that called it.
- `PlayerState.Step`, `PlayerState.RunConsistent` and
  `PlayerState.ReachableConsistent` treat each event as atomic. In the source,
  `play_index` reaches `canvas.update()` through `_show_loading_text`
  (main.py:720, main.py:749), so other handlers can run in the middle of it:
  - before main.py:720 `time_points` is already `[]` while
    `active_lyric_index` still points into the old lyrics, so a handler run
    there sees a state where `Consistent` does not hold;
  - at main.py:749 a monitor tick can fire, so `PlayerState.PlayIndexResets`
    describes `play_index` run alone, not the program under such a tick;
  - a nested `next_song` or `remove_from_playlist` can have its playlist
    position overwritten when the outer `play_index` resumes.
- **Not modelled: floating point.** Timestamps, positions, offsets and
  phases are exact reals. Float rounding, including the 0.01 phase
  accumulation, is left out.
- **Simplified: case folding.** Text is `seq<char>`. Case folding for the
  drop filter is ASCII only.
- `Text.IsDigit`, `StrictLrc` and `LooseLrc` read only the ASCII digits 0-9.
  Python's `\d`, `int()` and `float()` also accept other Unicode decimal
  digits, so a tag such as `[０１:０２.５０]` is an entry in the source
  (62.5 s lenient, 62.05 s strict) and none in the model.
- **Simplified: text files.** Cache files are written and read in text
  mode as on Windows (`Text.WriteText`, `Text.ReadText`). Elsewhere a line
  break read as `\r\n` would become `\n` rather than a blank line; the
  strict parser skips blank lines either way. Sidecar `.lrc` files and
  embedded lyrics are given as the text a read returns.
- `Fetcher.FetchLyricsTwice` keys the cache by the exact safe name. On
  Windows, file names that differ only in letter case name the same file,
  so one title can hit the cache file of another. This is not modelled.
- **Simplified: covers.** A cover is the default image or a picture
  identified by a number:
  - "no embedded cover" stands for the `c == get_default_cover()` image
    comparison;
  - the RGB/JPEG conversion when a cover is saved is not modelled.
- **Simplified: the drop filter.** `on_drop` takes the list of dropped paths
  that exist. Splitting the raw drop text with braces and `\S+` is not
  modelled.
- **Simplified: the lyric smoothing factor.** `config.LYRIC_SMOOTHING` and
  `LYRIC_REFRESH_RATE` do not exist in config.py, so `animate_lyrics` raises
  `AttributeError` on every call: at main.py:598 when it reschedules itself,
  and already at main.py:594 on any frame that moves the lyrics. The model
  gives the lyric frame the smoothing factor as a parameter and leaves the
  refresh rate out (it only times the frame loop); it describes the frame
  the code evidently intends.
- **Simplified: the background render.** The window-width condition of the
  background frame (main.py:951) is not modelled separately: rendering is one
  `renderOk` flag.
- **Simplified: playback start.** The trailing `monitor()` call at the end of
  `play_index` (main.py:767) is a separate tick event.
- **Simplified: drag.** `on_prog_drag` (main.py:632-633) only moves the
  drawn bar, so it is not an event.
- **Simplified: the fetcher singleton.** The fetcher singleton `get_fetcher`
  (online_fetcher.py:357-362) is the player's `fetcher` object, over the same
  `sinf` directory.
- `Player.MusicPlayer.constructor` and `PlayerState.Initial` assume
  `__init__` completes. In the source it does not: its call to
  `animate_lyrics` (main.py:151) raises `AttributeError` at main.py:598,
  because `config.LYRIC_REFRESH_RATE` does not exist, before
  `update_visuals` (main.py:153) is reached. That call would fail too: it
  reaches the background render at main.py:517 and the `process_background`
  mismatch. The fields `update_visuals` sets before the render
  (main.py:507-514) are the ones the model gives.
- `Player.MusicPlayer.TogglePlay` assumes pygame's `pause` and `unpause` do
  not raise. The source does not catch exceptions there (main.py:895,
  main.py:898).
- `PlayerState.MonitorFollowsLyrics` does not model the progress bar and time
  labels that the tick redraws (main.py:991-999). They are drawing only.
- `Fetcher.FetchFromNetease` takes the server's answers as given. The request
  parameters (`limit: 5`, the song ids) and the artist field of a search are
  not modelled.
- `StrictLrc.ParseIndex` and `LooseLrc.ParseIndex` do not restate the
  multiset of time points. `LyricIndex.BuildIndex` states it for the
  collected entries.
