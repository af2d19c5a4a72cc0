/** The bookkeeping of `MusicPlayer` (main.py) as values: a snapshot of the
    fields the player's events read and write, and one function per event
    giving the snapshot afterwards. The class in player.dfy is proved to
    follow these functions; the properties of the events are proved here.

    What the outside world answers (the audio files and their tags, the
    text files next to them, the lyric server, the cover download, whether
    the audio engine and the background renderer succeed) is an `Env`. */
module PlayerState {
  import opened Wrappers
  import opened Text
  import opened Sorting
  import opened LyricIndex
  import opened Metadata
  import StrictLrc
  import SafeName
  import Fetcher
  import Easing

  /** `config.LYRIC_LINE_HEIGHT`: the scroll offset a new active line
      starts from, in pixels. */
  const LyricLineHeight: real := 32.0

  /** `total_duration` before any track is loaded. */
  const InitialDuration: real := 1.0

  /** Seconds before the end at which a finished track gives way to the
      next. */
  const EndMargin: real := 1.0

  /** The fields of `MusicPlayer` that the model follows. `lyricFiles` and
      `coverFiles` are the `sinf` cache directory, shared with the online
      fetcher. `bgRunning` says whether a background frame is scheduled
      (`bg_animation_timer is not None`). */
  datatype Snapshot = Snapshot(
    playlist: seq<string>,
    currentIndex: int,
    isPlaying: bool,
    isDragging: bool,
    totalDuration: real,
    seekOffset: real,
    lyrics: Lyrics,
    activeLyric: int,
    scrollOffset: real,
    targetScroll: real,
    cover: Image,
    bgImage: Option<Image>,
    bgPhase: real,
    bgRunning: bool,
    dropdownVisible: bool,
    dropdownTarget: real,
    dropdownHeight: real,
    onlineFetch: bool,
    lyricFiles: map<string, string>,
    coverFiles: map<string, Image>)

  /** What the player cannot see into: the readable audio files by path,
      the text files by path (sidecar `.lrc`), the lyric search for the
      track and the cover found online, whether cache writes succeed,
      whether `utils.process_background` accepts the player's call, and
      whether pygame loads and plays the file. */
  datatype Env = Env(
    disk: map<string, AudioFile>,
    texts: map<string, string>,
    search: Fetcher.SearchReply,
    onlineCover: Option<Image>,
    saveOk: bool,
    renderOk: bool,
    audioOk: bool)

  /** The invariant every event keeps: the current index is -1 or names an
      entry, the active line is -1 or names a time point, the time points
      are ascending, and the background phase lies in [0, 4). */
  predicate Consistent(s: Snapshot) {
    -1 <= s.currentIndex < |s.playlist|
    && -1 <= s.activeLyric < |s.lyrics.times|
    && Sorted(s.lyrics.times)
    && 0.0 <= s.bgPhase < Easing.PhaseCycle
  }

  /** The state after `__init__` (main.py:53-121), whose closing
      `update_visuals` call (main.py:153) also makes the default cover the
      background image, over an existing cache directory. */
  function Initial(lyricFiles: map<string, string>, coverFiles: map<string, Image>): (s: Snapshot)
    ensures Consistent(s)
    ensures s.playlist == [] && s.currentIndex == -1 && !s.isPlaying && !s.isDragging
    ensures s.lyrics == NoLyrics && s.activeLyric == -1 && s.onlineFetch
  {
    Snapshot([], -1, false, false, InitialDuration, 0.0, NoLyrics, -1, 0.0, 0.0,
             DefaultCover, Some(DefaultCover), 0.0, false, false, 0.0, 0.0, true,
             lyricFiles, coverFiles)
  }

  // ---------------------------------------------------------------------
  // The sinf cache as the player reads it
  // ---------------------------------------------------------------------

  /** `_load_lyrics_from_sinf(title)`: the parse of the cached file read in
      text mode, empty or not, or `({}, [])` without a file. */
  function SinfLyrics(lyricFiles: map<string, string>, title: string): Lyrics {
    var key := SafeName.SafeFilename(title);
    if key in lyricFiles then StrictLrc.Parse(Text.ReadText(lyricFiles[key])) else NoLyrics
  }

  /** The player's own cache reader and the fetcher's agree on what counts:
      the player uses its result only when it is not empty, and then it is
      the fetcher's cache hit. */
  lemma SinfAgreesWithCache(lyricFiles: map<string, string>, title: string)
    ensures SinfLyrics(lyricFiles, title).lines != map[] <==> Fetcher.CachedLyrics(lyricFiles, title).lines != map[]
    ensures SinfLyrics(lyricFiles, title).lines != map[] ==>
      SinfLyrics(lyricFiles, title) == Fetcher.CachedLyrics(lyricFiles, title)
  {
    Fetcher.CacheHitRule(lyricFiles, title);
  }

  // ---------------------------------------------------------------------
  // play_index
  // ---------------------------------------------------------------------

  /** Python's `-n <= index < n` for `list[index]`. */
  predicate InRange(n: nat, index: int) {
    -(n as int) <= index < n
  }

  /** The position `list[index]` reads, negative indices counting from the
      end. */
  function PyIndex(n: nat, index: int): (k: int)
    requires InRange(n, index)
    ensures 0 <= k < n
    ensures index >= 0 ==> k == index
    ensures index < 0 ==> k == n + index
  {
    if index < 0 then n + index else index
  }

  /** `list[index]` for an index Python accepts. */
  function EntryAt(pl: seq<string>, index: int): string
    requires InRange(|pl|, index)
  {
    pl[PyIndex(|pl|, index)]
  }

  /** The track `current_index` selects, if it selects one. */
  function CurrentTrack(s: Snapshot): Option<string> {
    if InRange(|s.playlist|, s.currentIndex) then Some(EntryAt(s.playlist, s.currentIndex)) else None
  }

  /** `play_index(index)` gets past reading the entry and its file: the
      index selects an entry and the file is on disk. */
  predicate Playable(s: Snapshot, index: int, env: Env) {
    InRange(|s.playlist|, index) && EntryAt(s.playlist, index) in env.disk
  }

  /** The lyric choice of `play_index` (main.py:709-730): the file's own
      lyrics; if they are empty and online fetching is on, the sinf cache;
      if that is empty too, the online fetch, kept only when not empty. The
      result and the lyric cache afterwards. */
  function LyricsFor(embedded: Lyrics, title: string, onlineFetch: bool, lyricFiles: map<string, string>,
                     search: Fetcher.SearchReply, saveOk: bool): (Lyrics, map<string, string>)
  {
    if embedded.lines != map[] || !onlineFetch then (embedded, lyricFiles)
    else
      var cached := SinfLyrics(lyricFiles, title);
      if cached.lines != map[] then (cached, lyricFiles)
      else
        var (online, after) := Fetcher.FetchLyricsOf(lyricFiles, title, search, saveOk);
        (if online.lines != map[] then online else embedded, after)
  }

  /** The cover choice of `play_index` (main.py:739-758): the file's own
      picture; without one and with online fetching on, the sinf cache,
      then the online fetch. The result and the cover cache afterwards. */
  function CoverFor(embedded: Image, title: string, onlineFetch: bool, coverFiles: map<string, Image>,
                    online: Option<Image>, saveOk: bool): (Image, map<string, Image>)
  {
    if !onlineFetch || embedded != DefaultCover then (embedded, coverFiles)
    else
      var cached := Fetcher.CachedCover(coverFiles, title);
      if cached.Some? then (cached.value, coverFiles)
      else
        var (fetched, after) := Fetcher.FetchCoverOf(coverFiles, title, online, saveOk);
        (if fetched.Some? then fetched.value else embedded, after)
  }

  /** One `_animate_background` frame (main.py:912-962): with the player
      stopped or no image it unschedules itself; otherwise the phase
      advances and the next frame is scheduled, unless rendering raised,
      which leaves the timer field as it was. */
  function BgFrame(s: Snapshot, renderOk: bool): (r: Snapshot)
    ensures r == s.(bgPhase := r.bgPhase, bgRunning := r.bgRunning)
    ensures !s.isPlaying ==> !r.bgRunning
  {
    if !s.isPlaying || s.bgImage.None? then s.(bgRunning := false)
    else s.(bgPhase := Easing.PhaseStep(s.bgPhase), bgRunning := renderOk || s.bgRunning)
  }

  /** `start_background_animation` (main.py:901-905). */
  function StartBackground(s: Snapshot, renderOk: bool): (r: Snapshot)
    ensures r == s.(bgPhase := r.bgPhase, bgRunning := r.bgRunning)
  {
    if !s.bgRunning && s.bgImage.Some? then BgFrame(s, renderOk) else s
  }

  /** `stop_background_animation` (main.py:907-910). */
  function StopBackground(s: Snapshot): Snapshot {
    s.(bgRunning := false)
  }

  /** The loading part of `play_index` for a readable track
      (main.py:700-760): the track's duration, the position reset, the
      lyrics and the cover by their precedence, the active line and scroll
      reset, and `update_visuals` storing the cover as the background image
      with the phase restarted (main.py:503-515). */
  function LoadTrack(s: Snapshot, path: string, f: AudioFile, env: Env): Snapshot {
    var info := GetTrackInfo(path, f);
    var lc := LyricsFor(GetLyrics(path, f.lyrics, env.texts), info.title, s.onlineFetch, s.lyricFiles, env.search, env.saveOk);
    var cc := CoverFor(info.cover, info.title, s.onlineFetch, s.coverFiles, env.onlineCover, env.saveOk);
    Loaded(s, info.duration, lc.0, lc.1, cc.0, cc.1)
  }

  /** The fields `play_index` sets for a loaded track with the chosen
      lyrics and cover. */
  function Loaded(s: Snapshot, duration: real, lyrics: Lyrics, lyricFiles: map<string, string>,
                  cover: Image, coverFiles: map<string, Image>): Snapshot
  {
    WithCover(WithLyrics(s.(lyricFiles := lyricFiles, coverFiles := coverFiles), duration, lyrics), cover)
  }

  /** The new track's duration and lyrics, with the position, the active
      line and the scroll back at the start. */
  function WithLyrics(s: Snapshot, duration: real, lyrics: Lyrics): Snapshot
  {
    s.(totalDuration := duration, seekOffset := 0.0, lyrics := lyrics,
       activeLyric := -1, scrollOffset := 0.0, targetScroll := 0.0)
  }

  /** The new track's cover, also as the background image, with the drift
      phase back at 0. */
  function WithCover(s: Snapshot, cover: Image): Snapshot
  {
    s.(cover := cover, bgImage := Some(cover), bgPhase := 0.0)
  }

  /** The end of `play_index` once the track is loaded: the background
      render (main.py:517) raises when `process_background` rejects the
      call, which ends `play_index`; otherwise a running player starts the
      background drift (main.py:521-523) and a successful load and play
      marks it playing (main.py:762-768). */
  function StartPlayback(s: Snapshot, env: Env): (r: Snapshot)
    ensures r == s.(isPlaying := r.isPlaying, bgRunning := r.bgRunning, bgPhase := r.bgPhase)
    ensures r.isPlaying == (s.isPlaying || (env.renderOk && env.audioOk))
  {
    if !env.renderOk then s
    else MarkPlaying(if s.isPlaying then StartBackground(s, true) else s, env.audioOk)
  }

  /** The player is marked playing once the audio loads and plays. */
  function MarkPlaying(s: Snapshot, audioOk: bool): Snapshot {
    if audioOk then s.(isPlaying := true) else s
  }

  /** `play_index(index)` (main.py:693-768). Nothing happens on an empty
      playlist. The index is stored first; an index outside the list
      (IndexError) or a file that cannot be read (`os.path.getsize`)
      ends the call there. Otherwise the track is loaded and playback
      starts. The trailing `monitor()` tick is a separate event. */
  function PlayIndex(s: Snapshot, index: int, env: Env): Snapshot {
    if s.playlist == [] then s
    else if !Playable(s, index, env) then
      s.(currentIndex := index)
    else
      var path := EntryAt(s.playlist, index);
      StartPlayback(LoadTrack(s.(currentIndex := index), path, env.disk[path], env), env)
  }

  /** Loading a track changes only the track's own fields and the caches:
      the playlist, the index, the transport flags and the drop-down stay;
      the position, active line, scroll and phase are reset. */
  lemma LoadTrackResets(s: Snapshot, path: string, f: AudioFile, env: Env)
    ensures var r := LoadTrack(s, path, f, env);
      r.playlist == s.playlist && r.currentIndex == s.currentIndex
      && r.isPlaying == s.isPlaying && r.isDragging == s.isDragging && r.bgRunning == s.bgRunning
      && r.totalDuration == GetTrackInfo(path, f).duration
      && r.seekOffset == 0.0 && r.activeLyric == -1 && r.scrollOffset == 0.0 && r.targetScroll == 0.0
      && r.bgPhase == 0.0 && r.bgImage == Some(r.cover)
  {
  }

  /** Starting playback changes at most the playing flag, the background
      timer and the phase (by one frame), and the player ends up playing
      exactly when it was already or both the render and the load succeed. */
  lemma StartPlaybackFlags(s: Snapshot, env: Env)
    requires 0.0 <= s.bgPhase < Easing.PhaseCycle
    ensures var r := StartPlayback(s, env);
      r == s.(isPlaying := r.isPlaying, bgRunning := r.bgRunning, bgPhase := r.bgPhase)
      && r.isPlaying == (s.isPlaying || (env.renderOk && env.audioOk))
      && 0.0 <= r.bgPhase < Easing.PhaseCycle
  {
    Easing.PhaseStepInRange(s.bgPhase);
  }

  /** The lyrics `play_index` settles on are ascending, and so are any it
      could have chosen. */
  lemma LyricsForSorted(embedded: Lyrics, title: string, onlineFetch: bool, lyricFiles: map<string, string>,
                        search: Fetcher.SearchReply, saveOk: bool)
    requires Sorted(embedded.times)
    ensures Sorted(LyricsFor(embedded, title, onlineFetch, lyricFiles, search, saveOk).0.times)
  {
    SinfAgreesWithCache(lyricFiles, title);
    Fetcher.CacheHitRule(lyricFiles, title);
    Fetcher.FetchLyricsSorted(lyricFiles, title, search, saveOk);
  }

  /** The lyric precedence of `play_index`: the file's own lyrics win when
      not empty, leaving the cache alone and the network unasked; then the
      cache; then what the network finds, which is written back in text
      mode; with
      online fetching off the file's lyrics stand, empty or not. */
  lemma LyricsPrecedence(embedded: Lyrics, title: string, onlineFetch: bool, lyricFiles: map<string, string>,
                         search: Fetcher.SearchReply, saveOk: bool)
    ensures var (l, after) := LyricsFor(embedded, title, onlineFetch, lyricFiles, search, saveOk);
      (embedded.lines != map[] || !onlineFetch ==> l == embedded && after == lyricFiles)
      && (embedded.lines == map[] && onlineFetch && Fetcher.CachedLyrics(lyricFiles, title).lines != map[] ==>
            l == Fetcher.CachedLyrics(lyricFiles, title) && after == lyricFiles)
      && (embedded.lines == map[] && onlineFetch && Fetcher.CachedLyrics(lyricFiles, title).lines == map[] ==>
            (l.lines != map[] <==> Fetcher.NeteaseLyrics(search).Some?)
            && (Fetcher.NeteaseLyrics(search).Some? ==> l == Fetcher.NeteaseLyrics(search).value.0)
            && (Fetcher.NeteaseLyrics(search).Some? && saveOk ==>
                  after[SafeName.SafeFilename(title)] == WriteText(Fetcher.NeteaseLyrics(search).value.1))
            && after - {SafeName.SafeFilename(title)} == lyricFiles - {SafeName.SafeFilename(title)})
  {
    SinfAgreesWithCache(lyricFiles, title);
    if embedded.lines == map[] && onlineFetch && Fetcher.CachedLyrics(lyricFiles, title).lines == map[] {
      Fetcher.FetchLyricsMiss(lyricFiles, title, search, saveOk);
    }
  }

  /** The cover precedence of `play_index`: a picture in the file wins;
      without one the cached cover; then the one found online, which is
      saved; otherwise the default cover. With online fetching off the
      file's cover stands. */
  lemma CoverPrecedence(embedded: Image, title: string, onlineFetch: bool, coverFiles: map<string, Image>,
                        online: Option<Image>, saveOk: bool)
    ensures var (c, after) := CoverFor(embedded, title, onlineFetch, coverFiles, online, saveOk);
      (embedded != DefaultCover || !onlineFetch ==> c == embedded && after == coverFiles)
      && (embedded == DefaultCover && onlineFetch ==>
            c == (if SafeName.SafeFilename(title) in coverFiles then coverFiles[SafeName.SafeFilename(title)]
                  else if online.Some? then online.value else DefaultCover)
            && after == (if SafeName.SafeFilename(title) !in coverFiles && online.Some? && saveOk
                         then coverFiles[SafeName.SafeFilename(title) := online.value] else coverFiles))
  {
    Fetcher.FetchCoverPrecedence(coverFiles, title, online, saveOk);
  }

  /** `play_index` keeps the playlist, the drag flag and stores the index
      it was given, whatever else fails. */
  lemma PlayIndexKeeps(s: Snapshot, index: int, env: Env)
    requires s.playlist != []
    ensures PlayIndex(s, index, env).playlist == s.playlist
    ensures PlayIndex(s, index, env).currentIndex == index
    ensures PlayIndex(s, index, env).isDragging == s.isDragging
  {
    if Playable(s, index, env) {
      var path := EntryAt(s.playlist, index);
      LoadTrackResets(s.(currentIndex := index), path, env.disk[path], env);
    }
  }

  /** For a readable track `play_index` loads the track's duration, resets
      the position, the active line and both scroll offsets, shows the
      cover as the background, and ends up playing exactly when it was
      playing or the render and the audio load both succeed. */
  lemma PlayIndexResets(s: Snapshot, index: int, env: Env)
    requires s.playlist != [] && Playable(s, index, env)
    ensures var path := EntryAt(s.playlist, index);
      var r := PlayIndex(s, index, env);
      r.totalDuration == GetTrackInfo(path, env.disk[path]).duration
      && r.seekOffset == 0.0 && r.activeLyric == -1 && r.scrollOffset == 0.0 && r.targetScroll == 0.0
      && r.bgImage == Some(r.cover)
      && r.isPlaying == (s.isPlaying || (env.renderOk && env.audioOk))
  {
    var path := EntryAt(s.playlist, index);
    var loaded := LoadTrack(s.(currentIndex := index), path, env.disk[path], env);
    StartPlaybackFlags(loaded, env);
  }

  /** With the player stopped, a track that loads fine still does not
      play when the background render fails: `update_visuals` raises
      before the audio is started. */
  lemma PlayIndexNeedsRender(s: Snapshot, index: int, env: Env)
    requires s.playlist != [] && Playable(s, index, env)
    requires !s.isPlaying && !env.renderOk
    ensures !PlayIndex(s, index, env).isPlaying
  {
    PlayIndexResets(s, index, env);
  }

  /** Loading a track keeps the invariant: the new lyrics are ascending
      and the active line and phase are reset. */
  lemma LoadTrackConsistent(s: Snapshot, path: string, f: AudioFile, env: Env)
    requires Consistent(s)
    ensures Consistent(LoadTrack(s, path, f, env))
  {
    var info := GetTrackInfo(path, f);
    GetLyricsIndex(path, f.lyrics, env.texts);
    LyricsForSorted(GetLyrics(path, f.lyrics, env.texts), info.title, s.onlineFetch, s.lyricFiles, env.search, env.saveOk);
  }

  /** Starting playback keeps the invariant. */
  lemma StartPlaybackConsistent(s: Snapshot, env: Env)
    requires Consistent(s)
    ensures Consistent(StartPlayback(s, env))
  {
    StartPlaybackFlags(s, env);
  }

  /** `play_index` keeps the invariant when the index is -1 or names an
      entry. */
  lemma PlayIndexConsistent(s: Snapshot, index: int, env: Env)
    requires Consistent(s)
    requires s.playlist == [] || -1 <= index < |s.playlist|
    ensures Consistent(PlayIndex(s, index, env))
  {
    if s.playlist != [] && Playable(s, index, env) {
      var path := EntryAt(s.playlist, index);
      var s1 := s.(currentIndex := index);
      LoadTrackConsistent(s1, path, env.disk[path], env);
      StartPlaybackConsistent(LoadTrack(s1, path, env.disk[path], env), env);
    }
  }

  // ---------------------------------------------------------------------
  // Playlist operations
  // ---------------------------------------------------------------------

  /** `del playlist[index]`. */
  function RemoveAt(pl: seq<string>, index: int): (r: seq<string>)
    requires 0 <= index < |pl|
    ensures |r| == |pl| - 1
    ensures forall j :: 0 <= j < index ==> r[j] == pl[j]
    ensures forall j :: index <= j < |r| ==> r[j] == pl[j + 1]
  {
    pl[..index] + pl[index + 1..]
  }

  /** The index `remove_from_playlist` stores and plays after removing
      the current entry `index` of a list of `n > 1` (main.py:428-432):
      `next_index` is `index`, or 0 for the last entry, and then one is
      subtracted unless `next_index < index`. */
  function IndexAfterRemoval(index: int, n: int): int {
    var nextIndex := if index < n - 1 then index else 0;
    if nextIndex < index then nextIndex else nextIndex - 1
  }

  /** `remove_from_playlist(index)` (main.py:417-450), as written. */
  function Remove(s: Snapshot, index: int, env: Env): Snapshot {
    var n := |s.playlist|;
    if !(0 <= index < n) then s
    else if index == s.currentIndex then
      if n > 1 then
        var cur := IndexAfterRemoval(index, n);
        PlayIndex(s.(playlist := RemoveAt(s.playlist, index), currentIndex := cur), cur, env)
      else s.(playlist := [], currentIndex := -1, isPlaying := false)
    else
      s.(playlist := RemoveAt(s.playlist, index),
         currentIndex := if index < s.currentIndex then s.currentIndex - 1 else s.currentIndex)
  }

  /** Removing an entry that is not current deletes exactly that entry,
      keeps the others in order and changes nothing else; the index drops
      by one exactly when the removed entry lay before it, so the same
      track stays current. An index outside the list changes nothing.
      (`RemoveAt` states the order: earlier entries stay where they are and
      later ones move down by one.) */
  lemma RemoveOther(s: Snapshot, index: int, env: Env)
    ensures !(0 <= index < |s.playlist|) ==> Remove(s, index, env) == s
    ensures 0 <= index < |s.playlist| && index != s.currentIndex ==>
      var r := Remove(s, index, env);
      r == s.(playlist := r.playlist, currentIndex := r.currentIndex)
      && r.playlist == RemoveAt(s.playlist, index)
      && (forall j :: 0 <= j < |s.playlist| && j != index ==> s.playlist[j] in r.playlist)
      && (r.currentIndex == s.currentIndex - 1 <==> index < s.currentIndex)
      && (r.currentIndex != s.currentIndex - 1 ==> r.currentIndex == s.currentIndex)
      && (0 <= s.currentIndex < |s.playlist| ==> CurrentTrack(r) == CurrentTrack(s))
  {
    if 0 <= index < |s.playlist| && index != s.currentIndex {
      var r := Remove(s, index, env);
      forall j | 0 <= j < |s.playlist| && j != index
        ensures s.playlist[j] in r.playlist
      {
        if j < index {
          assert r.playlist[j] == s.playlist[j];
        } else {
          assert r.playlist[j - 1] == s.playlist[j];
        }
      }
      if 0 <= s.currentIndex < |s.playlist| {
        if index < s.currentIndex {
          assert r.playlist[s.currentIndex - 1] == s.playlist[s.currentIndex];
        } else {
          assert r.playlist[s.currentIndex] == s.playlist[s.currentIndex];
        }
      }
    }
  }

  /** Removing the only entry while it is current empties the playlist,
      clears the index and stops the player. */
  lemma RemoveOnly(s: Snapshot, env: Env)
    requires |s.playlist| == 1 && s.currentIndex == 0
    ensures Remove(s, 0, env).playlist == []
    ensures Remove(s, 0, env).currentIndex == -1
    ensures !Remove(s, 0, env).isPlaying
  {
  }

  /** Removing the current entry of a longer list: removing the last
      entry plays the first, but removing any other entry plays the one
      BEFORE it rather than the next one the code's comment announces, and
      removing the first plays the last (index -1). */
  lemma RemoveCurrent(s: Snapshot, index: int, env: Env)
    requires 0 <= index < |s.playlist| && |s.playlist| > 1 && index == s.currentIndex
    ensures var r := Remove(s, index, env);
      r.playlist == RemoveAt(s.playlist, index)
      && (index == |s.playlist| - 1 ==> r.currentIndex == 0 && CurrentTrack(r) == Some(s.playlist[0]))
      && (index < |s.playlist| - 1 ==> r.currentIndex == index - 1)
      && (0 < index < |s.playlist| - 1 ==> CurrentTrack(r) == Some(s.playlist[index - 1]))
      && (index == 0 ==> CurrentTrack(r) == Some(s.playlist[|s.playlist| - 1]))
  {
    var n := |s.playlist|;
    var cur := IndexAfterRemoval(index, n);
    var rest := RemoveAt(s.playlist, index);
    var s1 := s.(playlist := rest, currentIndex := cur);
    PlayIndexKeeps(s1, cur, env);
    var r := Remove(s, index, env);
    assert r == PlayIndex(s1, cur, env);
    assert r.playlist == rest && r.currentIndex == cur;
    if index == n - 1 {
      assert cur == 0 && rest[0] == s.playlist[0];
    } else if index == 0 {
      assert cur == -1 && rest[n - 2] == s.playlist[n - 1];
    } else {
      assert cur == index - 1 && rest[index - 1] == s.playlist[index - 1];
    }
  }

  /** For example, with three tracks and the first one playing, removing
      it plays the third track, not the second. */
  lemma RemoveFirstPlaysLast(s: Snapshot, env: Env)
    requires s.playlist == ["a.mp3", "b.mp3", "c.mp3"] && s.currentIndex == 0
    ensures Remove(s, 0, env).currentIndex == -1
    ensures CurrentTrack(Remove(s, 0, env)) == Some("c.mp3")
  {
    RemoveCurrent(s, 0, env);
  }

  /** `remove_from_playlist` keeps the invariant. */
  lemma RemoveConsistent(s: Snapshot, index: int, env: Env)
    requires Consistent(s)
    ensures Consistent(Remove(s, index, env))
  {
    var n := |s.playlist|;
    if 0 <= index < n && index == s.currentIndex && n > 1 {
      var cur := IndexAfterRemoval(index, n);
      var s1 := s.(playlist := RemoveAt(s.playlist, index), currentIndex := cur);
      assert Consistent(s1);
      PlayIndexConsistent(s1, cur, env);
    }
  }

  /** The shared tail of `on_drop` and `load_files` (main.py:663-670,
      680-687): append the files; play the first entry if nothing was
      current or the list holds only the new files. */
  function Append(s: Snapshot, files: seq<string>, env: Env): Snapshot {
    if files == [] then s
    else
      var s1 := s.(playlist := s.playlist + files);
      if s.currentIndex == -1 || |s1.playlist| == |files| then PlayIndex(s1.(currentIndex := 0), 0, env)
      else s1
  }

  /** Appending keeps the old entries and adds the new ones after them, in
      order; the first entry becomes current when nothing was current or
      the list was empty, otherwise the current index is kept. Appending
      nothing changes nothing. */
  lemma AppendLaysOut(s: Snapshot, files: seq<string>, env: Env)
    ensures files == [] ==> Append(s, files, env) == s
    ensures files != [] ==>
      Append(s, files, env).playlist == s.playlist + files
      && Append(s, files, env).currentIndex == (if s.currentIndex == -1 || s.playlist == [] then 0 else s.currentIndex)
  {
    if files != [] {
      var s1 := s.(playlist := s.playlist + files);
      if s.currentIndex == -1 || |s1.playlist| == |files| {
        PlayIndexKeeps(s1.(currentIndex := 0), 0, env);
      }
    }
  }

  lemma AppendConsistent(s: Snapshot, files: seq<string>, env: Env)
    requires Consistent(s)
    ensures Consistent(Append(s, files, env))
  {
    if files != [] {
      var s1 := s.(playlist := s.playlist + files);
      if s.currentIndex == -1 || |s1.playlist| == |files| {
        PlayIndexConsistent(s1.(currentIndex := 0), 0, env);
      }
    }
  }

  /** The extensions `on_drop` accepts, compared ignoring case. */
  predicate IsAudioName(f: string) {
    EndsWithIgnoringCase(f, ".mp3") || EndsWithIgnoringCase(f, ".wav")
    || EndsWithIgnoringCase(f, ".flac") || EndsWithIgnoringCase(f, ".m4a")
  }

  /** The filter of `on_drop` (main.py:661): the audio names, in order. */
  function AudioOnly(files: seq<string>): (r: seq<string>)
    ensures |r| <= |files|
    ensures forall f :: f in r <==> f in files && IsAudioName(f)
    ensures r == [] <==> forall f :: f in files ==> !IsAudioName(f)
    ensures forall f :: multiset(r)[f] == if IsAudioName(f) then multiset(files)[f] else 0
  {
    if files == [] then []
    else
      assert files == [files[0]] + files[1..];
      if IsAudioName(files[0]) then [files[0]] + AudioOnly(files[1..])
    else AudioOnly(files[1..])
  }

  /** The filter keeps the order of the paths: filtering two batches one
      after the other is filtering them together. */
  lemma {:induction false} AudioOnlyAppend(a: seq<string>, b: seq<string>)
    ensures AudioOnly(a + b) == AudioOnly(a) + AudioOnly(b)
    decreases |a|
  {
    if a == [] {
      assert a + b == b;
    } else {
      assert (a + b)[0] == a[0];
      assert (a + b)[1..] == a[1..] + b;
      AudioOnlyAppend(a[1..], b);
    }
  }

  /** `on_drop` on the dropped paths that exist. */
  function Drop(s: Snapshot, dropped: seq<string>, env: Env): Snapshot {
    Append(s, AudioOnly(dropped), env)
  }

  /** Dropping only non-audio files changes nothing; otherwise exactly the
      audio names are appended. */
  lemma DropKeepsAudio(s: Snapshot, dropped: seq<string>, env: Env)
    ensures (forall f :: f in dropped ==> !IsAudioName(f)) ==> Drop(s, dropped, env) == s
    ensures Drop(s, dropped, env).playlist == s.playlist + AudioOnly(dropped)
  {
    AppendLaysOut(s, AudioOnly(dropped), env);
  }

  /** `(i + 1) % n`: Python's `%` with a positive divisor never gives a
      negative result, and neither does Dafny's. */
  function NextIndex(i: int, n: nat): int
    requires n > 0
  {
    (i + 1) % n
  }

  /** `(i - 1) % n`. */
  function PrevIndex(i: int, n: nat): int
    requires n > 0
  {
    (i - 1) % n
  }

  /** From an index in [-1, n) the next index is one more, wrapping from
      the last entry to the first, and the previous index is one less,
      wrapping from the first entry to the last and from -1 (which plays
      the last entry) to the one before the last. */
  lemma Wrap(i: int, n: nat)
    requires n > 0 && -1 <= i < n
    ensures 0 <= NextIndex(i, n) < n && 0 <= PrevIndex(i, n) < n
    ensures NextIndex(i, n) == if i == n - 1 then 0 else i + 1
    ensures PrevIndex(i, n) == if i >= 1 then i - 1 else if n + i >= 1 then n + i - 1 else 0
  {
    if i == n - 1 {
      assert i + 1 == n * 1 + 0;
    }
    if i <= 0 && n + i >= 1 {
      assert i - 1 == n * -1 + (n + i - 1);
    }
  }

  /** `next_song` (main.py:973-980). */
  function Next(s: Snapshot, env: Env): Snapshot {
    if s.playlist == [] then s else PlayIndex(s, NextIndex(s.currentIndex, |s.playlist|), env)
  }

  /** `prev_song` (main.py:964-971). */
  function Prev(s: Snapshot, env: Env): Snapshot {
    if s.playlist == [] then s else PlayIndex(s, PrevIndex(s.currentIndex, |s.playlist|), env)
  }

  /** Next and previous wrap around: on a non-empty list the new index is
      the old one plus or minus one, taken modulo the length into
      [0, length), so the last entry is followed by the first and the first
      preceded by the last; the playlist is kept; on an empty list nothing
      changes. */
  lemma NextPrevWrap(s: Snapshot, env: Env)
    requires -1 <= s.currentIndex < |s.playlist|
    ensures s.playlist == [] ==> Next(s, env) == s && Prev(s, env) == s
    ensures s.playlist != [] ==>
      var n := |s.playlist|;
      Next(s, env).currentIndex == (if s.currentIndex == n - 1 then 0 else s.currentIndex + 1)
      && Prev(s, env).currentIndex ==
           (if s.currentIndex >= 1 then s.currentIndex - 1 else if n + s.currentIndex >= 1 then n + s.currentIndex - 1 else 0)
      && Next(s, env).playlist == s.playlist && Prev(s, env).playlist == s.playlist
  {
    if s.playlist != [] {
      Wrap(s.currentIndex, |s.playlist|);
      PlayIndexKeeps(s, NextIndex(s.currentIndex, |s.playlist|), env);
      PlayIndexKeeps(s, PrevIndex(s.currentIndex, |s.playlist|), env);
    }
  }

  lemma NextPrevConsistent(s: Snapshot, env: Env)
    requires Consistent(s)
    ensures Consistent(Next(s, env)) && Consistent(Prev(s, env))
  {
    if s.playlist != [] {
      Wrap(s.currentIndex, |s.playlist|);
      PlayIndexConsistent(s, NextIndex(s.currentIndex, |s.playlist|), env);
      PlayIndexConsistent(s, PrevIndex(s.currentIndex, |s.playlist|), env);
    }
  }

  // ---------------------------------------------------------------------
  // Transport
  // ---------------------------------------------------------------------

  /** `toggle_play` (main.py:892-899). */
  function TogglePlay(s: Snapshot, renderOk: bool): Snapshot {
    if s.playlist == [] then s
    else if s.isPlaying then StopBackground(s.(isPlaying := false))
    else StartBackground(s.(isPlaying := true), renderOk)
  }

  /** Toggling flips the playing flag on a non-empty list and does nothing
      on an empty one; pausing stops the background drift; toggling
      twice from playing gives the playing flag back. */
  lemma TogglePlayFlips(s: Snapshot, renderOk: bool)
    ensures s.playlist == [] ==> TogglePlay(s, renderOk) == s
    ensures s.playlist != [] ==> TogglePlay(s, renderOk).isPlaying == !s.isPlaying
    ensures s.playlist != [] && s.isPlaying ==> !TogglePlay(s, renderOk).bgRunning
    ensures TogglePlay(s, renderOk).playlist == s.playlist && TogglePlay(s, renderOk).currentIndex == s.currentIndex
    ensures TogglePlay(TogglePlay(s, renderOk), renderOk).isPlaying == s.isPlaying
  {
  }

  lemma TogglePlayConsistent(s: Snapshot, renderOk: bool)
    requires Consistent(s)
    ensures Consistent(TogglePlay(s, renderOk))
  {
    Easing.PhaseStepInRange(s.bgPhase);
  }

  /** One background frame keeps the phase in [0, 4). */
  lemma BgFrameConsistent(s: Snapshot, renderOk: bool)
    requires Consistent(s)
    ensures Consistent(BgFrame(s, renderOk))
    ensures !s.isPlaying ==> !BgFrame(s, renderOk).bgRunning
  {
    Easing.PhaseStepInRange(s.bgPhase);
  }

  /** `on_prog_click` (main.py:628-630). */
  function ProgClick(s: Snapshot): (r: Snapshot)
    ensures r.isDragging
  {
    s.(isDragging := true)
  }

  /** `max(0, min(1, ratio))`. */
  function Clamp01(x: real): (r: real)
    ensures 0.0 <= r <= 1.0
    ensures 0.0 <= x <= 1.0 ==> r == x
  {
    if x < 0.0 then 0.0 else if x > 1.0 then 1.0 else x
  }

  /** The seek target of a release at `x` on a bar starting at `progStart`
      of width `progWidth`. */
  function SeekTarget(x: real, progStart: real, progWidth: real, total: real): real
    requires progWidth != 0.0
  {
    Clamp01((x - progStart) / progWidth) * total
  }

  /** `on_prog_release` (main.py:635-646): with tracks and a positive
      duration, seek to the point released on and mark the player playing;
      a zero-width bar (ZeroDivisionError) or a failing pygame call skips
      that. Dragging ends in every case. */
  function ProgRelease(s: Snapshot, x: real, progStart: real, progWidth: real, audioOk: bool): Snapshot {
    if s.playlist != [] && s.totalDuration > 0.0 && progWidth != 0.0 && audioOk then
      s.(seekOffset := SeekTarget(x, progStart, progWidth, s.totalDuration), isPlaying := true, isDragging := false)
    else s.(isDragging := false)
  }

  /** After a release the player is never dragging; a seek lands in
      [0, total_duration], at the start for a release left of the bar and
      at the end for one right of it. */
  lemma ProgReleaseSeeks(s: Snapshot, x: real, progStart: real, progWidth: real, audioOk: bool)
    ensures !ProgRelease(s, x, progStart, progWidth, audioOk).isDragging
    ensures ProgRelease(s, x, progStart, progWidth, audioOk).seekOffset != s.seekOffset ==>
      0.0 <= ProgRelease(s, x, progStart, progWidth, audioOk).seekOffset <= s.totalDuration
    ensures s.playlist != [] && s.totalDuration > 0.0 && progWidth > 0.0 && audioOk ==>
      (x <= progStart ==> ProgRelease(s, x, progStart, progWidth, audioOk).seekOffset == 0.0)
      && (x >= progStart + progWidth ==> ProgRelease(s, x, progStart, progWidth, audioOk).seekOffset == s.totalDuration)
    ensures ProgRelease(s, x, progStart, progWidth, audioOk).playlist == s.playlist
  {
    if s.playlist != [] && s.totalDuration > 0.0 && progWidth != 0.0 && audioOk {
      var ratio := Clamp01((x - progStart) / progWidth);
      assert 0.0 <= ratio * s.totalDuration <= s.totalDuration;
      if progWidth > 0.0 && x >= progStart + progWidth {
        assert (x - progStart) / progWidth >= 1.0;
      }
    }
  }

  // ---------------------------------------------------------------------
  // The monitor tick
  // ---------------------------------------------------------------------

  /** `curr` of `monitor`: the engine's position in milliseconds (-1,
      "not playing", counting as 0) in seconds, plus the seek offset, then
      raised to 0 and lowered to the duration, in that order. */
  function Position(raw: int, seekOffset: real, total: real): real {
    var r := if raw == -1 then 0 else raw;
    var curr := r as real / 1000.0 + seekOffset;
    var c := if curr < 0.0 then 0.0 else curr;
    if c > total then total else c
  }

  /** For a non-negative duration the position lies in [0, duration], and
      a raw position of -1 reads like 0. */
  lemma PositionClamped(raw: int, seekOffset: real, total: real)
    requires total >= 0.0
    ensures 0.0 <= Position(raw, seekOffset, total) <= total
    ensures Position(-1, seekOffset, total) == Position(0, seekOffset, total)
    ensures raw != -1 && 0.0 <= raw as real / 1000.0 + seekOffset <= total ==>
      Position(raw, seekOffset, total) == raw as real / 1000.0 + seekOffset
  {
  }

  /** The active-line update of `monitor` for the scan result `idx`. */
  function FollowLine(s: Snapshot, idx: int): Snapshot {
    if idx != -1 && idx != s.activeLyric then
      s.(activeLyric := idx, scrollOffset := LyricLineHeight, targetScroll := 0.0)
    else s
  }

  /** The lyric part of `monitor` at position `curr` (main.py:1002-1012):
      with time points, scan for the active line and follow it. */
  function Follow(s: Snapshot, curr: real): Snapshot {
    if s.lyrics.times != [] then FollowLine(s, ActiveLine(s.lyrics.times, curr)) else s
  }

  lemma FollowConsistent(s: Snapshot, curr: real)
    requires Consistent(s)
    ensures Consistent(Follow(s, curr))
  {
  }

  /** `monitor()` (main.py:982-1017), given the engine's position and
      whether it is still busy: nothing unless playing and not dragging;
      otherwise follow the active line and, when the engine is idle within
      a second of the end, go to the next track. */
  function Monitor(s: Snapshot, raw: int, busy: bool, env: Env): Snapshot {
    if !s.isPlaying || s.isDragging then s
    else
      var curr := Position(raw, s.seekOffset, s.totalDuration);
      var s1 := Follow(s, curr);
      if !busy && s.totalDuration - curr < EndMargin then Next(s1, env) else s1
  }

  /** A tick does nothing while paused or dragging. While the track goes
      on, it changes only the active line and the scroll: the new active
      line is the last time point at or before the position, it is never
      reset to -1, and a change restarts the scroll at one line height. */
  lemma MonitorFollowsLyrics(s: Snapshot, raw: int, busy: bool, env: Env)
    requires Consistent(s)
    ensures !s.isPlaying || s.isDragging ==> Monitor(s, raw, busy, env) == s
    ensures s.isPlaying && !s.isDragging && (busy || s.totalDuration - Position(raw, s.seekOffset, s.totalDuration) >= EndMargin) ==>
      var r := Monitor(s, raw, busy, env);
      var curr := Position(raw, s.seekOffset, s.totalDuration);
      r == s.(activeLyric := r.activeLyric, scrollOffset := r.scrollOffset, targetScroll := r.targetScroll)
      && (s.activeLyric != -1 ==> r.activeLyric != -1)
      && (r.activeLyric != s.activeLyric ==>
            r.activeLyric != -1 && s.lyrics.times[r.activeLyric] <= curr
            && (forall j :: r.activeLyric < j < |s.lyrics.times| ==> curr < s.lyrics.times[j])
            && r.scrollOffset == LyricLineHeight && r.targetScroll == 0.0)
  {
    if s.isPlaying && !s.isDragging {
      var curr := Position(raw, s.seekOffset, s.totalDuration);
      ActiveLineSorted(s.lyrics.times, curr);
    }
  }

  /** At the end of a track with the engine idle the tick moves to the next
      entry, wrapping around. */
  lemma MonitorAdvances(s: Snapshot, raw: int, env: Env)
    requires Consistent(s) && s.isPlaying && !s.isDragging && s.playlist != []
    requires s.totalDuration - Position(raw, s.seekOffset, s.totalDuration) < EndMargin
    ensures Monitor(s, raw, false, env).currentIndex == (if s.currentIndex == |s.playlist| - 1 then 0 else s.currentIndex + 1)
  {
    var curr := Position(raw, s.seekOffset, s.totalDuration);
    var s1 := Follow(s, curr);
    assert s1.playlist == s.playlist && s1.currentIndex == s.currentIndex;
    assert Monitor(s, raw, false, env) == Next(s1, env);
    NextPrevWrap(s1, env);
  }

  lemma MonitorConsistent(s: Snapshot, raw: int, busy: bool, env: Env)
    requires Consistent(s)
    ensures Consistent(Monitor(s, raw, busy, env))
  {
    if s.isPlaying && !s.isDragging {
      var curr := Position(raw, s.seekOffset, s.totalDuration);
      FollowConsistent(s, curr);
      NextPrevConsistent(Follow(s, curr), env);
    }
  }

  // ---------------------------------------------------------------------
  // Animation frames
  // ---------------------------------------------------------------------

  /** One `animate_lyrics` frame (main.py:587-598) with the smoothing
      factor `config.LYRIC_SMOOTHING`. */
  function AnimateLyrics(s: Snapshot, smoothing: real): Snapshot {
    s.(scrollOffset := Easing.ScrollStep(s.scrollOffset, s.targetScroll, smoothing))
  }

  /** One `animate_dropdown` frame (main.py:250-270). */
  function AnimateDropdown(s: Snapshot): Snapshot {
    s.(dropdownHeight := Easing.DropdownStep(s.dropdownHeight, s.dropdownTarget))
  }

  /** `toggle_playlist_dropdown` (main.py:205-248): open towards the
      height below the cover, or close towards 0, and run one frame. */
  function ToggleDropdown(s: Snapshot, openHeight: real): Snapshot {
    if s.dropdownVisible then AnimateDropdown(s.(dropdownVisible := false, dropdownTarget := 0.0))
    else AnimateDropdown(s.(dropdownVisible := true, dropdownTarget := openHeight))
  }

  /** A lyric frame moves only the scroll offset, towards the target
      without passing it. */
  lemma AnimateLyricsApproaches(s: Snapshot, smoothing: real)
    requires 0.0 < smoothing <= 1.0
    ensures AnimateLyrics(s, smoothing) == s.(scrollOffset := AnimateLyrics(s, smoothing).scrollOffset)
    ensures Easing.Between(s.scrollOffset, AnimateLyrics(s, smoothing).scrollOffset, s.targetScroll)
  {
    Easing.ScrollStepApproaches(s.scrollOffset, s.targetScroll, smoothing);
  }

  /** A drop-down frame moves only the height, towards the target without
      passing it. */
  lemma AnimateDropdownApproaches(s: Snapshot)
    ensures AnimateDropdown(s) == s.(dropdownHeight := AnimateDropdown(s).dropdownHeight)
    ensures Easing.Between(s.dropdownHeight, AnimateDropdown(s).dropdownHeight, s.dropdownTarget)
  {
    Easing.DropdownStepApproaches(s.dropdownHeight, s.dropdownTarget);
  }

  /** Toggling flips the menu's visibility, so toggling twice restores it;
      a closing menu heads for height 0 and an opening one for the given
      height. */
  lemma ToggleDropdownFlips(s: Snapshot, openHeight: real)
    ensures ToggleDropdown(s, openHeight).dropdownVisible == !s.dropdownVisible
    ensures ToggleDropdown(ToggleDropdown(s, openHeight), openHeight).dropdownVisible == s.dropdownVisible
    ensures ToggleDropdown(s, openHeight).dropdownTarget == (if s.dropdownVisible then 0.0 else openHeight)
  {
  }

  // ---------------------------------------------------------------------
  // All events
  // ---------------------------------------------------------------------

  /** The user and timer events of the player. `Load` is `load_files`
      with the chosen files, `Drop` is `on_drop` with the dropped paths
      that exist. */
  datatype Event =
    | Load(files: seq<string>)
    | DropFiles(dropped: seq<string>)
    | RemoveEntry(index: int)
    | NextSong
    | PrevSong
    | Toggle
    | Click
    | Release(x: real, progStart: real, progWidth: real)
    | Tick(raw: int, busy: bool)
    | LyricFrame(smoothing: real)
    | DropdownFrame
    | DropdownToggle(openHeight: real)
    | BackgroundFrame

  function Step(s: Snapshot, e: Event, env: Env): Snapshot {
    match e
    case Load(files) => Append(s, files, env)
    case DropFiles(dropped) => Drop(s, dropped, env)
    case RemoveEntry(index) => Remove(s, index, env)
    case NextSong => Next(s, env)
    case PrevSong => Prev(s, env)
    case Toggle => TogglePlay(s, env.renderOk)
    case Click => ProgClick(s)
    case Release(x, progStart, progWidth) => ProgRelease(s, x, progStart, progWidth, env.audioOk)
    case Tick(raw, busy) => Monitor(s, raw, busy, env)
    case LyricFrame(smoothing) => AnimateLyrics(s, smoothing)
    case DropdownFrame => AnimateDropdown(s)
    case DropdownToggle(openHeight) => ToggleDropdown(s, openHeight)
    case BackgroundFrame => BgFrame(s, env.renderOk)
  }

  /** Every event keeps the invariant, whatever the outside world answers. */
  lemma StepConsistent(s: Snapshot, e: Event, env: Env)
    requires Consistent(s)
    ensures Consistent(Step(s, e, env))
  {
    if e.Load? || e.DropFiles? || e.RemoveEntry? || e.NextSong? || e.PrevSong? {
      PlaylistEventConsistent(s, e, env);
    } else {
      PlayerEventConsistent(s, e, env);
    }
  }

  /** The playlist events keep the invariant. */
  lemma PlaylistEventConsistent(s: Snapshot, e: Event, env: Env)
    requires Consistent(s)
    requires e.Load? || e.DropFiles? || e.RemoveEntry? || e.NextSong? || e.PrevSong?
    ensures Consistent(Step(s, e, env))
  {
    match e
    case Load(files) => AppendConsistent(s, files, env);
    case DropFiles(dropped) => AppendConsistent(s, AudioOnly(dropped), env);
    case RemoveEntry(index) => RemoveConsistent(s, index, env);
    case NextSong => NextPrevConsistent(s, env);
    case PrevSong => NextPrevConsistent(s, env);
  }

  /** The transport, timer and animation events keep the invariant. */
  lemma PlayerEventConsistent(s: Snapshot, e: Event, env: Env)
    requires Consistent(s)
    requires !(e.Load? || e.DropFiles? || e.RemoveEntry? || e.NextSong? || e.PrevSong?)
    ensures Consistent(Step(s, e, env))
  {
    match e
    case Toggle => TogglePlayConsistent(s, env.renderOk);
    case Tick(raw, busy) => MonitorConsistent(s, raw, busy, env);
    case BackgroundFrame => BgFrameConsistent(s, env.renderOk);
    case _ =>
  }

  /** The state after the events `steps`, in order; each event comes with
      what the outside world answers at the moment it happens. */
  function Run(s: Snapshot, steps: seq<(Event, Env)>): Snapshot
    decreases |steps|
  {
    if steps == [] then s else Run(Step(s, steps[0].0, steps[0].1), steps[1..])
  }

  /** Any sequence of events keeps the invariant, whatever the outside world
      answers at each of them. */
  lemma {:induction false} RunConsistent(s: Snapshot, steps: seq<(Event, Env)>)
    requires Consistent(s)
    ensures Consistent(Run(s, steps))
    decreases |steps|
  {
    if steps != [] {
      StepConsistent(s, steps[0].0, steps[0].1);
      RunConsistent(Step(s, steps[0].0, steps[0].1), steps[1..]);
    }
  }

  /** Every state the player reaches from its start, through any events and
      whatever the outside world answers at each, satisfies the invariant. */
  lemma ReachableConsistent(lyricFiles: map<string, string>, coverFiles: map<string, Image>, steps: seq<(Event, Env)>)
    ensures Consistent(Run(Initial(lyricFiles, coverFiles), steps))
  {
    RunConsistent(Initial(lyricFiles, coverFiles), steps);
  }
}
