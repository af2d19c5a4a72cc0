/** `MusicPlayer` (main.py) as a class: its fields, and one method per
    event that updates them in place. Each method is proved to leave the
    player in the state the matching function of `PlayerState` gives, and
    the user and timer events keep `Valid()`. The online fetcher, a module
    singleton in the source, is the object `fetcher` here; its cache
    directory is the player's `sinf` folder. */
module Player {
  import opened Wrappers
  import opened LyricIndex
  import opened Metadata
  import opened PlayerState
  import Fetcher
  import SafeName
  import StrictLrc
  import Text
  import Easing

  class MusicPlayer {
    var playlist: seq<string>
    var currentIndex: int
    var isPlaying: bool
    var isDragging: bool
    var totalDuration: real
    var seekOffset: real
    var lyricsMap: map<real, string>
    var timePoints: seq<real>
    var activeLyricIndex: int
    var lyricScrollOffset: real
    var targetScrollOffset: real
    var originalCover: Image
    var bgOriginalImage: Option<Image>
    var bgAnimationPhase: real
    /** `bg_animation_timer is not None`. */
    var bgAnimationRunning: bool
    var dropdownVisible: bool
    var dropdownTargetHeight: real
    var dropdownCurrentHeight: real
    var enableOnlineFetch: bool
    const fetcher: Fetcher.OnlineFetcher

    /** The fields as a snapshot. */
    function State(): Snapshot
      reads this, fetcher
    {
      Snapshot(playlist, currentIndex, isPlaying, isDragging, totalDuration, seekOffset,
               Lyrics(lyricsMap, timePoints), activeLyricIndex, lyricScrollOffset, targetScrollOffset,
               originalCover, bgOriginalImage, bgAnimationPhase, bgAnimationRunning,
               dropdownVisible, dropdownTargetHeight, dropdownCurrentHeight, enableOnlineFetch,
               fetcher.lyricFiles, fetcher.coverFiles)
    }

    ghost predicate Valid()
      reads this, fetcher
    {
      Consistent(State())
    }

    /** `__init__` (main.py:53-121) and its `update_visuals` call
        (main.py:153), over an existing cache directory. */
    constructor(lyricFiles: map<string, string>, coverFiles: map<string, Image>)
      ensures State() == Initial(lyricFiles, coverFiles)
      ensures Valid()
    {
      playlist := [];
      currentIndex := -1;
      isPlaying := false;
      isDragging := false;
      totalDuration := InitialDuration;
      seekOffset := 0.0;
      lyricsMap := map[];
      timePoints := [];
      activeLyricIndex := -1;
      lyricScrollOffset := 0.0;
      targetScrollOffset := 0.0;
      originalCover := DefaultCover;
      bgOriginalImage := Some(DefaultCover);
      bgAnimationPhase := 0.0;
      bgAnimationRunning := false;
      dropdownVisible := false;
      dropdownTargetHeight := 0.0;
      dropdownCurrentHeight := 0.0;
      enableOnlineFetch := true;
      fetcher := new Fetcher.OnlineFetcher(lyricFiles, coverFiles);
    }

    // -------------------------------------------------------------------
    // The sinf cache
    // -------------------------------------------------------------------

    /** `_load_lyrics_from_sinf`: the parse of the cached file, read in text
        mode. */
    method LoadLyricsFromSinf(title: string) returns (result: Lyrics)
      ensures result == SinfLyrics(fetcher.lyricFiles, title)
    {
      var safeTitle := SafeName.GetSafeFilename(title);
      if safeTitle in fetcher.lyricFiles {
        var lrcText := Text.ReadText(fetcher.lyricFiles[safeTitle]);
        result := StrictLrc.ParseLrc(lrcText);
      } else {
        result := NoLyrics;
      }
    }

    /** `_load_cover_from_sinf`. */
    method LoadCoverFromSinf(title: string) returns (cover: Option<Image>)
      ensures cover == Fetcher.CachedCover(fetcher.coverFiles, title)
    {
      var safeTitle := SafeName.GetSafeFilename(title);
      if safeTitle in fetcher.coverFiles {
        cover := Some(fetcher.coverFiles[safeTitle]);
      } else {
        cover := None;
      }
    }

    // -------------------------------------------------------------------
    // Background drift
    // -------------------------------------------------------------------

    /** `_animate_background`: one frame. */
    method AnimateBackground(renderOk: bool)
      modifies this
      ensures State() == BgFrame(old(State()), renderOk)
      ensures old(Valid()) ==> Valid()
    {
      if Valid() {
        BgFrameConsistent(State(), renderOk);
      }
      if !isPlaying || bgOriginalImage.None? {
        bgAnimationRunning := false;
        return;
      }
      bgAnimationPhase := bgAnimationPhase + Easing.PhaseSpeed;
      if bgAnimationPhase >= Easing.PhaseCycle {
        bgAnimationPhase := 0.0;
      }
      if renderOk {
        bgAnimationRunning := true;
      }
    }

    /** `start_background_animation`. */
    method StartBackgroundAnimation(renderOk: bool)
      modifies this
      ensures State() == StartBackground(old(State()), renderOk)
    {
      if !bgAnimationRunning && bgOriginalImage.Some? {
        AnimateBackground(renderOk);
      }
    }

    /** `stop_background_animation`. */
    method StopBackgroundAnimation()
      modifies this
      ensures State() == StopBackground(old(State()))
    {
      bgAnimationRunning := false;
    }

    // -------------------------------------------------------------------
    // play_index
    // -------------------------------------------------------------------

    /** The lyric choice of `play_index` (main.py:709-730). */
    method ChooseLyrics(embedded: Lyrics, title: string, env: Env) returns (lyrics: Lyrics)
      modifies fetcher
      ensures (lyrics, fetcher.lyricFiles) ==
        LyricsFor(embedded, title, enableOnlineFetch, old(fetcher.lyricFiles), env.search, env.saveOk)
      ensures fetcher.coverFiles == old(fetcher.coverFiles)
    {
      lyrics := embedded;
      if lyrics.lines == map[] && enableOnlineFetch {
        var cached := LoadLyricsFromSinf(title);
        if cached.lines != map[] {
          lyrics := cached;
        } else {
          var online := fetcher.FetchLyrics(title, env.search, env.saveOk);
          if online.lines != map[] {
            lyrics := online;
          }
        }
      }
    }

    /** The cover choice of `play_index` (main.py:739-758). */
    method ChooseCover(embedded: Image, title: string, env: Env) returns (cover: Image)
      modifies fetcher
      ensures (cover, fetcher.coverFiles) ==
        CoverFor(embedded, title, enableOnlineFetch, old(fetcher.coverFiles), env.onlineCover, env.saveOk)
      ensures fetcher.lyricFiles == old(fetcher.lyricFiles)
    {
      cover := embedded;
      if enableOnlineFetch && embedded == DefaultCover {
        var cachedCover := LoadCoverFromSinf(title);
        if cachedCover.Some? {
          cover := cachedCover.value;
        } else {
          var onlineCover := fetcher.FetchCover(title, env.onlineCover, env.saveOk);
          if onlineCover.Some? {
            cover := onlineCover.value;
          }
        }
      }
    }

    /** The new track's duration and lyrics (main.py:704-736), with the
        position, the active line and the scroll back at the start. */
    method ShowLyrics(duration: real, lyrics: Lyrics)
      modifies this
      ensures State() == WithLyrics(old(State()), duration, lyrics)
    {
      SetDuration(duration);
      SetLyrics(lyrics);
      ResetLyricScroll();
    }

    /** The duration of the new track, played from its start (main.py:704-705). */
    method SetDuration(duration: real)
      modifies this
      ensures State() == old(State()).(totalDuration := duration, seekOffset := 0.0)
    {
      totalDuration, seekOffset := duration, 0.0;
    }

    /** The lyrics chosen for the new track (main.py:709-728). */
    method SetLyrics(lyrics: Lyrics)
      modifies this
      ensures State() == old(State()).(lyrics := lyrics)
    {
      lyricsMap, timePoints := lyrics.lines, lyrics.times;
    }

    /** No active line and the scroll at the top (main.py:732-736). */
    method ResetLyricScroll()
      modifies this
      ensures State() == old(State()).(activeLyric := -1, scrollOffset := 0.0, targetScroll := 0.0)
    {
      activeLyricIndex, lyricScrollOffset, targetScrollOffset := -1, 0.0, 0.0;
    }

    /** `update_visuals` for the new track's cover (main.py:503-514, called
        at main.py:760): it becomes the cover and the background image, and
        the drift phase restarts. */
    method ShowCover(cover: Image)
      modifies this
      ensures State() == WithCover(old(State()), cover)
    {
      originalCover, bgOriginalImage, bgAnimationPhase := cover, Some(cover), 0.0;
    }

    /** Lines 700-760 of `play_index` for a readable track, up to the
        background render of `update_visuals`. */
    method LoadTrack(path: string, f: AudioFile, env: Env)
      modifies this, fetcher
      ensures State() == PlayerState.LoadTrack(old(State()), path, f, env)
    {
      ghost var s0 := State();
      var info := GetTrackInfo(path, f);
      var lyrics := ChooseLyrics(GetLyrics(path, f.lyrics, env.texts), info.title, env);
      var coverToUse := ChooseCover(info.cover, info.title, env);
      ghost var s1 := State();
      assert s1 == s0.(lyricFiles := fetcher.lyricFiles, coverFiles := fetcher.coverFiles);
      ShowLyrics(info.duration, lyrics);
      ShowCover(coverToUse);
    }

    /** The rest of `play_index`: the render, the background drift when
        already playing, and the audio. */
    method StartPlayback(env: Env)
      modifies this
      ensures State() == PlayerState.StartPlayback(old(State()), env)
    {
      if !env.renderOk {
        return;
      }
      if isPlaying {
        StartBackgroundAnimation(true);
      }
      if env.audioOk {
        isPlaying := true;
      }
    }

    /** `play_index`. */
    method PlayIndex(index: int, env: Env)
      modifies this, fetcher
      ensures State() == PlayerState.PlayIndex(old(State()), index, env)
    {
      if playlist == [] {
        return;
      }
      currentIndex := index;
      if !InRange(|playlist|, index) {
        return;
      }
      var path := EntryAt(playlist, index);
      if path !in env.disk {
        return;
      }
      LoadTrack(path, env.disk[path], env);
      StartPlayback(env);
    }

    // -------------------------------------------------------------------
    // Playlist events
    // -------------------------------------------------------------------

    /** The branch of `remove_from_playlist` that removes the current
        entry of a longer list and plays on (main.py:426-432). */
    method RemoveCurrentAndPlayOn(index: int, env: Env)
      requires 0 <= index < |playlist| && |playlist| > 1
      modifies this, fetcher
      ensures var s := old(State()).(playlist := RemoveAt(old(playlist), index),
                                     currentIndex := IndexAfterRemoval(index, |old(playlist)|));
        State() == PlayerState.PlayIndex(s, s.currentIndex, env)
    {
      var nextIndex := if index < |playlist| - 1 then index else 0;
      playlist := playlist[..index] + playlist[index + 1..];
      currentIndex := if nextIndex < index then nextIndex else nextIndex - 1;
      PlayIndex(currentIndex, env);
    }

    /** `remove_from_playlist`. */
    method RemoveFromPlaylist(index: int, env: Env)
      requires Valid()
      modifies this, fetcher
      ensures State() == Remove(old(State()), index, env)
      ensures Valid()
    {
      RemoveConsistent(State(), index, env);
      if 0 <= index < |playlist| {
        if index == currentIndex {
          if |playlist| > 1 {
            RemoveCurrentAndPlayOn(index, env);
          } else {
            ClearPlaylist();
          }
        } else {
          RemoveOtherEntry(index);
        }
      }
    }

    /** The branch of `remove_from_playlist` that removes the only entry,
        which is current (main.py:433-437). */
    method ClearPlaylist()
      modifies this
      ensures State() == old(State()).(playlist := [], currentIndex := -1, isPlaying := false)
    {
      playlist, currentIndex, isPlaying := [], -1, false;
    }

    /** The branch of `remove_from_playlist` that removes an entry other
        than the current one (main.py:441-446). */
    method RemoveOtherEntry(index: int)
      requires 0 <= index < |playlist|
      modifies this
      ensures State() == old(State()).(playlist := RemoveAt(old(playlist), index),
        currentIndex := if index < old(currentIndex) then old(currentIndex) - 1 else old(currentIndex))
    {
      playlist := playlist[..index] + playlist[index + 1..];
      if index < currentIndex {
        currentIndex := currentIndex - 1;
      }
    }

    /** The append shared by `load_files` and `on_drop`. */
    method AppendFiles(files: seq<string>, env: Env)
      requires Valid()
      modifies this, fetcher
      ensures State() == Append(old(State()), files, env)
      ensures Valid()
    {
      AppendConsistent(State(), files, env);
      if files != [] {
        var newCount := |files|;
        ExtendPlaylist(files);
        if currentIndex == -1 || |playlist| == newCount {
          currentIndex := 0;
          PlayIndex(0, env);
        }
      }
    }

    /** The new entries go after the old ones (main.py:666, 683). */
    method ExtendPlaylist(files: seq<string>)
      modifies this
      ensures State() == old(State()).(playlist := old(playlist) + files)
    {
      playlist := playlist + files;
    }

    /** `load_files` with the files chosen in the dialog. */
    method LoadFiles(files: seq<string>, env: Env)
      requires Valid()
      modifies this, fetcher
      ensures State() == Append(old(State()), files, env)
      ensures Valid()
    {
      AppendFiles(files, env);
    }

    /** `on_drop` with the dropped paths that exist. */
    method OnDrop(dropped: seq<string>, env: Env)
      requires Valid()
      modifies this, fetcher
      ensures State() == Drop(old(State()), dropped, env)
      ensures Valid()
    {
      var valid := AudioOnly(dropped);
      AppendFiles(valid, env);
    }

    /** `next_song`. */
    method NextSong(env: Env)
      requires Valid()
      modifies this, fetcher
      ensures State() == Next(old(State()), env)
      ensures Valid()
    {
      NextPrevConsistent(State(), env);
      if playlist != [] {
        var newIndex := NextIndex(currentIndex, |playlist|);
        PlayIndex(newIndex, env);
      }
    }

    /** `prev_song`. */
    method PrevSong(env: Env)
      requires Valid()
      modifies this, fetcher
      ensures State() == Prev(old(State()), env)
      ensures Valid()
    {
      NextPrevConsistent(State(), env);
      if playlist != [] {
        var newIndex := PrevIndex(currentIndex, |playlist|);
        PlayIndex(newIndex, env);
      }
    }

    // -------------------------------------------------------------------
    // Transport events
    // -------------------------------------------------------------------

    /** `toggle_play`. */
    method TogglePlay(renderOk: bool)
      requires Valid()
      modifies this
      ensures State() == PlayerState.TogglePlay(old(State()), renderOk)
      ensures Valid()
    {
      TogglePlayConsistent(State(), renderOk);
      if playlist == [] {
        return;
      }
      if isPlaying {
        isPlaying := false;
        StopBackgroundAnimation();
      } else {
        isPlaying := true;
        StartBackgroundAnimation(renderOk);
      }
    }

    /** `on_prog_click`. */
    method OnProgClick()
      requires Valid()
      modifies this
      ensures State() == ProgClick(old(State()))
      ensures Valid()
    {
      isDragging := true;
    }

    /** `on_prog_release`. */
    method OnProgRelease(x: real, progStart: real, progWidth: real, audioOk: bool)
      requires Valid()
      modifies this
      ensures State() == ProgRelease(old(State()), x, progStart, progWidth, audioOk)
      ensures Valid()
    {
      if playlist != [] && totalDuration > 0.0 && progWidth != 0.0 && audioOk {
        var ratio := (x - progStart) / progWidth;
        ratio := Clamp01(ratio);
        var target := ratio * totalDuration;
        seekOffset := target;
        isPlaying := true;
      }
      isDragging := false;
    }

    /** `monitor`, given the engine's position in milliseconds and whether
        it is still busy. */
    method Monitor(raw: int, busy: bool, env: Env)
      requires Valid()
      modifies this, fetcher
      ensures State() == PlayerState.Monitor(old(State()), raw, busy, env)
      ensures Valid()
    {
      MonitorConsistent(State(), raw, busy, env);
      if !isPlaying || isDragging {
        return;
      }
      var curr := CurrentPosition(raw);
      FollowConsistent(State(), curr);
      FollowActiveLine(curr);
      if !busy && totalDuration - curr < EndMargin {
        NextSong(env);
      }
    }

    /** `curr` of `monitor` for the engine's position `raw`. */
    method CurrentPosition(raw: int) returns (curr: real)
      ensures curr == Position(raw, seekOffset, totalDuration)
    {
      var pos := if raw == -1 then 0 else raw;
      curr := pos as real / 1000.0 + seekOffset;
      if curr < 0.0 {
        curr := 0.0;
      }
      if curr > totalDuration {
        curr := totalDuration;
      }
    }

    /** The lyric part of `monitor`: the scan, then the update of the
        active line and the scroll. */
    method FollowActiveLine(curr: real)
      modifies this
      ensures State() == Follow(old(State()), curr)
    {
      if timePoints != [] {
        var newIdx := ScanActiveLine(timePoints, curr);
        if newIdx != -1 && newIdx != activeLyricIndex {
          activeLyricIndex := newIdx;
          lyricScrollOffset := LyricLineHeight;
          targetScrollOffset := 0.0;
        }
      }
    }

    // -------------------------------------------------------------------
    // Animation frames
    // -------------------------------------------------------------------

    /** `animate_lyrics`: one frame with the smoothing factor. */
    method AnimateLyrics(smoothing: real)
      requires Valid()
      modifies this
      ensures State() == PlayerState.AnimateLyrics(old(State()), smoothing)
      ensures Valid()
    {
      var diff := targetScrollOffset - lyricScrollOffset;
      if Easing.Abs(diff) > Easing.ScrollDeadZone {
        lyricScrollOffset := lyricScrollOffset + diff * smoothing;
      }
    }

    /** `animate_dropdown`: one frame. */
    method AnimateDropdown()
      requires Valid()
      modifies this
      ensures State() == PlayerState.AnimateDropdown(old(State()))
      ensures Valid()
    {
      var diff := dropdownTargetHeight - dropdownCurrentHeight;
      if Easing.Abs(diff) > 1.0 {
        dropdownCurrentHeight := dropdownCurrentHeight + diff * Easing.DropdownFactor;
      } else {
        dropdownCurrentHeight := dropdownTargetHeight;
      }
    }

    /** `toggle_playlist_dropdown`, with the height below the cover that
        `show_playlist_dropdown` computes from the window size. */
    method TogglePlaylistDropdown(openHeight: real)
      requires Valid()
      modifies this
      ensures State() == ToggleDropdown(old(State()), openHeight)
      ensures Valid()
    {
      if dropdownVisible {
        dropdownVisible := false;
        dropdownTargetHeight := 0.0;
      } else {
        dropdownVisible := true;
        dropdownTargetHeight := openHeight;
      }
      AnimateDropdown();
    }
  }
}
