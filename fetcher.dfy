/** The online lyric and cover fetcher (online_fetcher.py): the `sinf`
    cache directory keyed by the safe name of the title, the precedence
    "cache first, then the network, then write back", and the loop that
    picks a lyric among the first three search results.

    The HTTP traffic is not modelled: what the server answers for a title
    and artist is given as a `SearchReply` (for lyrics) or an
    `Option<Image>` (for the cover, after the search, detail and download
    requests). Writing a cache file may fail, which the source ignores;
    the `saveOk` flags say whether it succeeded. Lyric files are written
    and read in text mode, as on Windows (`WriteText`, `ReadText`). */
module Fetcher {
  import opened Wrappers
  import opened LyricIndex
  import opened Sorting
  import opened SafeName
  import StrictLrc
  import opened Text
  import Metadata

  /** The reply to one `/lyric` request: its status code and the
      `lrc.lyric` text (empty when missing), or an exception (timeout,
      connection error, malformed reply). */
  datatype LyricReply = Reply(status: int, lrc: string) | Raised

  /** The `/search` request for "title artist": it failed (a status other
      than 200, or an exception), or it found songs, given by the replies
      their `/lyric` requests would get, in search order. */
  datatype SearchReply = SearchFailed | Found(songs: seq<LyricReply>)

  /** At most this many search results are tried. */
  const MaxCandidates: nat := 3

  const StatusOk: int := 200

  // ---------------------------------------------------------------------
  // The candidate loop of _fetch_lyrics_from_netease
  // ---------------------------------------------------------------------

  /** A reply whose lyric is taken: status 200 and a non-empty text that
      parses to some lyrics. */
  predicate Usable(r: LyricReply) {
    r.Reply? && r.status == StatusOk && r.lrc != "" && StrictLrc.Parse(r.lrc).lines != map[]
  }

  /** A reply the loop passes over to try the next one. */
  predicate Skipped(r: LyricReply) {
    r.Reply? && !Usable(r)
  }

  /** The lyrics and raw text of the first usable reply; None when an
      exception comes first or no reply is usable. */
  function FirstUsable(rs: seq<LyricReply>): Option<(Lyrics, string)> {
    if rs == [] || rs[0].Raised? then None
    else if Usable(rs[0]) then Some((StrictLrc.Parse(rs[0].lrc), rs[0].lrc))
    else FirstUsable(rs[1..])
  }

  /** `songs[:3]`. */
  function Candidates(songs: seq<LyricReply>): (c: seq<LyricReply>)
    ensures |c| <= MaxCandidates && |c| <= |songs| && c == songs[..|c|]
    ensures |songs| <= MaxCandidates ==> c == songs
  {
    if |songs| <= MaxCandidates then songs else songs[..MaxCandidates]
  }

  /** What `_fetch_lyrics_from_netease` returns: the lyrics and the raw
      text, or None for `({}, [], None)`. */
  function NeteaseLyrics(search: SearchReply): Option<(Lyrics, string)> {
    match search
    case SearchFailed => None
    case Found(songs) => FirstUsable(Candidates(songs))
  }

  /** `_fetch_lyrics_from_netease`: try the first three songs in order,
      skip a reply with another status or with a text that is empty or
      parses to nothing, and return the first lyric found; an exception
      anywhere ends the search with nothing. */
  method FetchFromNetease(search: SearchReply) returns (result: Option<(Lyrics, string)>)
    ensures result == NeteaseLyrics(search)
  {
    if search.SearchFailed? {
      return None;
    }
    var songs := search.songs;
    if songs == [] {
      return None;
    }
    var candidates := if |songs| <= MaxCandidates then songs else songs[..MaxCandidates];
    for i := 0 to |candidates|
      invariant FirstUsable(candidates[i..]) == NeteaseLyrics(search)
    {
      assert candidates[i..][1..] == candidates[i + 1..];
      var reply := candidates[i];
      if reply.Raised? {
        return None;
      }
      if reply.status != StatusOk {
        continue;
      }
      var lrcText := reply.lrc;
      if lrcText != "" {
        var lyrics := StrictLrc.ParseLrc(lrcText);
        if lyrics.lines != map[] {
          return Some((lyrics, lrcText));
        }
      }
    }
    return None;
  }

  /** The loop stops at `i` with a lyric: the reply there is usable and
      every reply before it was passed over. */
  predicate ChosenAt(rs: seq<LyricReply>, i: int) {
    0 <= i < |rs| && Usable(rs[i]) && forall j :: 0 <= j < i ==> Skipped(rs[j])
  }

  /** When the loop stops at `i`, the result is the parse and the text of
      that reply. */
  lemma {:induction false} FirstUsableAt(rs: seq<LyricReply>, i: int)
    requires ChosenAt(rs, i)
    ensures FirstUsable(rs) == Some((StrictLrc.Parse(rs[i].lrc), rs[i].lrc))
    decreases i
  {
    if i > 0 {
      assert Skipped(rs[0]);
      assert forall j :: 0 <= j < i - 1 ==> rs[1..][j] == rs[j + 1];
      FirstUsableAt(rs[1..], i - 1);
    }
  }

  /** A lyric is returned only when the loop stops at some reply. */
  lemma {:induction false} FirstUsableWitness(rs: seq<LyricReply>) returns (i: int)
    requires FirstUsable(rs).Some?
    ensures ChosenAt(rs, i)
    decreases |rs|
  {
    if Usable(rs[0]) {
      i := 0;
    } else {
      assert Skipped(rs[0]) && FirstUsable(rs[1..]) == FirstUsable(rs);
      var k := FirstUsableWitness(rs[1..]);
      i := k + 1;
      assert rs[i] == rs[1..][k];
      forall j | 0 <= j < i ensures Skipped(rs[j]) {
        if j > 0 {
          assert Skipped(rs[1..][j - 1]);
          assert rs[j] == rs[1..][j - 1];
        }
      }
    }
  }

  /** The loop returns a lyric exactly when some reply is usable and every
      earlier one was passed over, and then it returns the parse and the
      text of that reply. */
  lemma FirstUsableChoice(rs: seq<LyricReply>)
    ensures FirstUsable(rs).Some? <==> exists i :: ChosenAt(rs, i)
    ensures forall i :: ChosenAt(rs, i) ==> FirstUsable(rs) == Some((StrictLrc.Parse(rs[i].lrc), rs[i].lrc))
  {
    if FirstUsable(rs).Some? {
      var i := FirstUsableWitness(rs);
    }
    forall i | ChosenAt(rs, i)
      ensures FirstUsable(rs) == Some((StrictLrc.Parse(rs[i].lrc), rs[i].lrc))
    {
      FirstUsableAt(rs, i);
    }
  }

  /** Only the first three search results are ever consulted. */
  lemma OnlyFirstThree(first: seq<LyricReply>, rest: seq<LyricReply>)
    requires |first| == MaxCandidates
    ensures NeteaseLyrics(Found(first + rest)) == NeteaseLyrics(Found(first))
  {
    assert (first + rest)[..MaxCandidates] == first;
  }

  /** A lyric found online is the parse of the text it came with, not
      empty, with its time points ascending. */
  lemma NeteaseLyricsFound(search: SearchReply)
    requires NeteaseLyrics(search).Some?
    ensures var (l, text) := NeteaseLyrics(search).value;
      text != "" && l == StrictLrc.Parse(text) && l.lines != map[] && Sorted(l.times)
  {
    var rs := Candidates(search.songs);
    var i := FirstUsableWitness(rs);
    FirstUsableAt(rs, i);
    StrictLrc.ParseIndex(rs[i].lrc);
  }

  // ---------------------------------------------------------------------
  // The cache and the fetch precedence
  // ---------------------------------------------------------------------

  /** `_load_lyrics_from_cache(title)`: the parse of the cached file read in
      text mode, but only when it is not empty. */
  function CachedLyrics(lyricFiles: map<string, string>, title: string): Lyrics {
    var key := SafeFilename(title);
    if key in lyricFiles && StrictLrc.Parse(ReadText(lyricFiles[key])).lines != map[] then
      StrictLrc.Parse(ReadText(lyricFiles[key]))
    else NoLyrics
  }

  /** `_load_cover_from_cache(title)`. */
  function CachedCover(coverFiles: map<string, Metadata.Image>, title: string): Option<Metadata.Image> {
    var key := SafeFilename(title);
    if key in coverFiles then Some(coverFiles[key]) else None
  }

  /** `fetch_lyrics(title, artist)` on a cache directory: the result and
      the lyric files afterwards. */
  function FetchLyricsOf(lyricFiles: map<string, string>, title: string, search: SearchReply, saveOk: bool)
    : (Lyrics, map<string, string>)
  {
    var cached := CachedLyrics(lyricFiles, title);
    if cached.lines != map[] then (cached, lyricFiles)
    else
      match NeteaseLyrics(search)
      case Some((l, text)) => (l, if saveOk then lyricFiles[SafeFilename(title) := WriteText(text)] else lyricFiles)
      case None => (NoLyrics, lyricFiles)
  }

  /** `fetch_cover(title, artist)` on a cache directory: the result and the
      cover files afterwards. */
  function FetchCoverOf(coverFiles: map<string, Metadata.Image>, title: string, online: Option<Metadata.Image>, saveOk: bool)
    : (Option<Metadata.Image>, map<string, Metadata.Image>)
  {
    var cached := CachedCover(coverFiles, title);
    if cached.Some? then (cached, coverFiles)
    else if online.Some? then (online, if saveOk then coverFiles[SafeFilename(title) := online.value] else coverFiles)
    else (None, coverFiles)
  }

  /** A cached file is a hit exactly when the parse of its text is not
      empty, and then the hit is that parse; titles with the same safe name
      share it. */
  lemma CacheHitRule(lyricFiles: map<string, string>, title: string)
    ensures var key := SafeFilename(title);
      (CachedLyrics(lyricFiles, title).lines != map[] <==>
         key in lyricFiles && StrictLrc.Parse(ReadText(lyricFiles[key])).lines != map[])
      && (CachedLyrics(lyricFiles, title).lines != map[] ==>
            CachedLyrics(lyricFiles, title) == StrictLrc.Parse(ReadText(lyricFiles[key])))
      && (CachedLyrics(lyricFiles, title).lines == map[] ==> CachedLyrics(lyricFiles, title) == NoLyrics)
    ensures Sorted(CachedLyrics(lyricFiles, title).times)
  {
    var key := SafeFilename(title);
    if key in lyricFiles {
      StrictLrc.ParseIndex(ReadText(lyricFiles[key]));
    }
  }

  /** On a cache hit the network is not consulted (the result does not
      depend on the reply) and the cache is unchanged. */
  lemma FetchLyricsHit(lyricFiles: map<string, string>, title: string,
                       s1: SearchReply, ok1: bool, s2: SearchReply, ok2: bool)
    requires CachedLyrics(lyricFiles, title).lines != map[]
    ensures FetchLyricsOf(lyricFiles, title, s1, ok1) == FetchLyricsOf(lyricFiles, title, s2, ok2)
    ensures FetchLyricsOf(lyricFiles, title, s1, ok1) == (CachedLyrics(lyricFiles, title), lyricFiles)
  {
  }

  /** On a miss the result is what the network found, or `({}, [])`; only
      the title's own cache file can change, and it then holds the raw text
      that was found, as a text-mode write stores it. */
  lemma FetchLyricsMiss(lyricFiles: map<string, string>, title: string, search: SearchReply, saveOk: bool)
    requires CachedLyrics(lyricFiles, title).lines == map[]
    ensures var (l, after) := FetchLyricsOf(lyricFiles, title, search, saveOk);
      (l.lines == map[] <==> NeteaseLyrics(search).None?)
      && (NeteaseLyrics(search).None? ==> l == NoLyrics && after == lyricFiles)
      && (NeteaseLyrics(search).Some? ==> l == NeteaseLyrics(search).value.0)
      && (NeteaseLyrics(search).Some? && saveOk ==> after[SafeFilename(title)] == WriteText(NeteaseLyrics(search).value.1))
      && after - {SafeFilename(title)} == lyricFiles - {SafeFilename(title)}
  {
    if NeteaseLyrics(search).Some? {
      NeteaseLyricsFound(search);
    }
  }

  /** What is fetched and saved is read back from the cache next time, with
      each "\r" of the text turned into "\n" by the text-mode write and
      read: when that text still parses to something, a second fetch of the
      same title returns its parse without the network; a text without
      "\r" gives back exactly the lyrics of the first fetch. */
  lemma FetchLyricsTwice(lyricFiles: map<string, string>, title: string, search: SearchReply,
                         later: SearchReply, laterOk: bool)
    requires CachedLyrics(lyricFiles, title).lines == map[] && NeteaseLyrics(search).Some?
    ensures var (l, after) := FetchLyricsOf(lyricFiles, title, search, true);
      var raw := NeteaseLyrics(search).value.1;
      var reread := StrictLrc.Parse(CrToLf(raw));
      (reread.lines != map[] ==> FetchLyricsOf(after, title, later, laterOk) == (reread, after))
      && ('\r' !in raw ==> FetchLyricsOf(after, title, later, laterOk) == (l, after))
  {
    var raw := NeteaseLyrics(search).value.1;
    NeteaseLyricsFound(search);
    TextModeRoundTrip(raw);
    if '\r' !in raw {
      CrToLfKeeps(raw);
    }
  }

  /** The tag digits of the example below. */
  lemma ExampleDigits()
    ensures DigitsValue("00") == 0 && DigitsValue("01") == 1 && DigitsValue("02") == 2
  {
    assert "00"[..1] == "0" && "01"[..1] == "0" && "02"[..1] == "0" && "0"[..0] == [];
  }

  /** For example, the line `[00:01.00]a\r[00:02.00]b` from the server is
      one entry at 1 s whose text keeps the "\r" and the second tag. */
  lemma ServerLineKeepsCarriageReturn()
    ensures var p, q := "[00:01.00]a", "[00:02.00]b";
      StrictLrc.LineEntries(p + "\r" + q) == [(1.0, "a\r" + q)]
  {
    var p, q := "[00:01.00]a", "[00:02.00]b";
    ExampleDigits();
    StrictLrc.TaggedLine("00", "01", "00", "a\r" + q);
    assert StrictLrc.Tag("00", "01", "00") + ("a\r" + q) == p + "\r" + q;
    assert Strip("a\r" + q) == "a\r" + q;
  }

  /** Two lines joined by a lone "\r": the text from the server is one line
      for the strict parser, which splits on "\n" only; written to the
      cache and read back it is the two lines. */
  lemma CarriageReturnInCache(p: string, q: string)
    requires '\r' !in p && '\n' !in p && '\r' !in q && '\n' !in q
    ensures Split(p + "\r" + q, '\n') == [p + "\r" + q]
    ensures Split(CrToLf(p + "\r" + q), '\n') == [p, q]
  {
    assert '\n' !in p + "\r" + q;
    SplitNone(p + "\r" + q, '\n');
    CrToLfKeeps(p);
    CrToLfKeeps(q);
    CrToLfAppend(p + "\r", q);
    CrToLfAppend(p, "\r");
    assert CrToLf("\r") == "\n";
    SplitCons(p, '\n', q);
    SplitNone(q, '\n');
  }

  /** Each of the two lines of that example is an entry of its own, so
      the parse read back from the cache has an entry at 2 s that the first
      fetch did not have. */
  lemma CachedLinesBothTagged()
    ensures StrictLrc.LineEntries("[00:01.00]a") == [(1.0, "a")]
    ensures StrictLrc.LineEntries("[00:02.00]b") == [(2.0, "b")]
  {
    ExampleDigits();
    StrictLrc.TaggedLine("00", "01", "00", "a");
    assert StrictLrc.Tag("00", "01", "00") + "a" == "[00:01.00]a";
    assert Strip("a") == "a";
    StrictLrc.TaggedLine("00", "02", "00", "b");
    assert StrictLrc.Tag("00", "02", "00") + "b" == "[00:02.00]b";
    assert Strip("b") == "b";
  }

  /** Whatever the source, fetched lyrics have ascending time points. */
  lemma FetchLyricsSorted(lyricFiles: map<string, string>, title: string, search: SearchReply, saveOk: bool)
    ensures Sorted(FetchLyricsOf(lyricFiles, title, search, saveOk).0.times)
  {
    CacheHitRule(lyricFiles, title);
    if NeteaseLyrics(search).Some? {
      NeteaseLyricsFound(search);
    }
  }

  /** A cached cover is returned as it is, without the network; otherwise
      the network cover is returned and saved under the title's safe name,
      or None is returned and nothing is saved. */
  lemma FetchCoverPrecedence(coverFiles: map<string, Metadata.Image>, title: string,
                             online: Option<Metadata.Image>, saveOk: bool)
    ensures var (c, after) := FetchCoverOf(coverFiles, title, online, saveOk);
      (SafeFilename(title) in coverFiles ==> c == Some(coverFiles[SafeFilename(title)]) && after == coverFiles)
      && (SafeFilename(title) !in coverFiles ==> c == online)
      && (SafeFilename(title) !in coverFiles && online.Some? && saveOk ==> after == coverFiles[SafeFilename(title) := online.value])
      && (online.None? || !saveOk ==> after == coverFiles)
  {
  }

  /** A cover fetched and saved is found in the cache next time. */
  lemma FetchCoverTwice(coverFiles: map<string, Metadata.Image>, title: string, online: Metadata.Image,
                        later: Option<Metadata.Image>, laterOk: bool)
    requires CachedCover(coverFiles, title).None?
    ensures var (c, after) := FetchCoverOf(coverFiles, title, Some(online), true);
      c == Some(online) && FetchCoverOf(after, title, later, laterOk) == (c, after)
  {
  }

  // ---------------------------------------------------------------------
  // The fetcher object
  // ---------------------------------------------------------------------

  /** `OnlineFetcher`, with the contents of its cache directory: the
      `.lrc` files as they are on disk (read back through `ReadText`) and
      the `.jpg` covers, by safe name. */
  class OnlineFetcher {
    var lyricFiles: map<string, string>
    var coverFiles: map<string, Metadata.Image>

    /** A fetcher over an existing cache directory. */
    constructor(lyricFiles0: map<string, string>, coverFiles0: map<string, Metadata.Image>)
      ensures lyricFiles == lyricFiles0 && coverFiles == coverFiles0
    {
      lyricFiles := lyricFiles0;
      coverFiles := coverFiles0;
    }

    /** `_load_lyrics_from_cache`. */
    method LoadLyricsFromCache(title: string) returns (result: Lyrics)
      ensures result == CachedLyrics(lyricFiles, title)
    {
      var safeTitle := GetSafeFilename(title);
      if safeTitle in lyricFiles {
        var lrcText := ReadText(lyricFiles[safeTitle]);
        var parsed := StrictLrc.ParseLrc(lrcText);
        if parsed.lines != map[] {
          return parsed;
        }
      }
      return NoLyrics;
    }

    /** `_load_cover_from_cache`. */
    method LoadCoverFromCache(title: string) returns (cover: Option<Metadata.Image>)
      ensures cover == CachedCover(coverFiles, title)
    {
      var safeTitle := GetSafeFilename(title);
      if safeTitle in coverFiles {
        return Some(coverFiles[safeTitle]);
      }
      return None;
    }

    /** `_save_lyrics_to_file`: write the text in text mode under the safe
        name, unless writing fails. */
    method SaveLyrics(title: string, lrcText: string, saveOk: bool)
      modifies this
      ensures lyricFiles == if saveOk then old(lyricFiles)[SafeFilename(title) := WriteText(lrcText)] else old(lyricFiles)
      ensures coverFiles == old(coverFiles)
    {
      var safeTitle := GetSafeFilename(title);
      if saveOk {
        lyricFiles := lyricFiles[safeTitle := WriteText(lrcText)];
      }
    }

    /** `_save_cover_to_file`: store the cover under the safe name, unless
        writing fails. */
    method SaveCover(title: string, cover: Metadata.Image, saveOk: bool)
      modifies this
      ensures coverFiles == if saveOk then old(coverFiles)[SafeFilename(title) := cover] else old(coverFiles)
      ensures lyricFiles == old(lyricFiles)
    {
      var safeTitle := GetSafeFilename(title);
      if saveOk {
        coverFiles := coverFiles[safeTitle := cover];
      }
    }

    /** `fetch_lyrics`: the cache, then the network with write-back. */
    method FetchLyrics(title: string, search: SearchReply, saveOk: bool) returns (result: Lyrics)
      modifies this
      ensures (result, lyricFiles) == FetchLyricsOf(old(lyricFiles), title, search, saveOk)
      ensures coverFiles == old(coverFiles)
    {
      var cached := LoadLyricsFromCache(title);
      if cached.lines != map[] {
        return cached;
      }
      var online := FetchFromNetease(search);
      if online.Some? {
        SaveLyrics(title, online.value.1, saveOk);
        return online.value.0;
      }
      return NoLyrics;
    }

    /** `fetch_cover`: the cache, then the network with write-back. */
    method FetchCover(title: string, online: Option<Metadata.Image>, saveOk: bool) returns (cover: Option<Metadata.Image>)
      modifies this
      ensures (cover, coverFiles) == FetchCoverOf(old(coverFiles), title, online, saveOk)
      ensures lyricFiles == old(lyricFiles)
    {
      cover := LoadCoverFromCache(title);
      if cover.Some? {
        return;
      }
      if online.Some? {
        SaveCover(title, online.value, saveOk);
        return online;
      }
      return None;
    }
  }
}
