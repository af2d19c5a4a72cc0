/** The lyric index both LRC parsers produce: a dictionary from timestamp to
    text (`lyrics_map`) and the ascending list of collected timestamps
    (`time_points`), plus the monitor's "which line is active" scan. */
module LyricIndex {
  import opened Sorting

  /** One collected lyric line: its timestamp in seconds and its text. */
  type Entry = (real, string)

  /** The `(lyrics_map, time_points)` pair a parser returns. */
  datatype Lyrics = Lyrics(lines: map<real, string>, times: seq<real>)

  /** `({}, [])`: no lyrics. */
  const NoLyrics := Lyrics(map[], [])

  /** The timestamps of the entries, in collection order. */
  function Stamps(es: seq<Entry>): (ts: seq<real>)
    ensures |ts| == |es| && forall i :: 0 <= i < |es| ==> ts[i] == es[i].0
  {
    seq(|es|, i requires 0 <= i < |es| => es[i].0)
  }

  /** The dictionary after `lyrics_map[t] = text` for each entry in turn. */
  function MapOf(es: seq<Entry>): map<real, string> {
    if es == [] then map[] else MapOf(es[..|es| - 1])[es[|es| - 1].0 := es[|es| - 1].1]
  }

  /** Collecting one more entry: the dictionary gains (or overwrites) its
      timestamp, and the list grows by it. */
  lemma CollectOne(es: seq<Entry>, e: Entry)
    ensures MapOf(es + [e]) == MapOf(es)[e.0 := e.1]
    ensures Stamps(es + [e]) == Stamps(es) + [e.0]
  {
    assert (es + [e])[..|es|] == es;
  }

  /** The entries a parser collects from `lines`, given the entries each
      line contributes, in line order. */
  function Collect(lineEntries: string -> seq<Entry>, lines: seq<string>): seq<Entry> {
    if lines == [] then [] else Collect(lineEntries, lines[..|lines| - 1]) + lineEntries(lines[|lines| - 1])
  }

  lemma CollectStep(lineEntries: string -> seq<Entry>, lines: seq<string>, i: nat)
    requires i < |lines|
    ensures Collect(lineEntries, lines[..i + 1]) == Collect(lineEntries, lines[..i]) + lineEntries(lines[i])
    ensures lineEntries(lines[i]) == [] ==> Collect(lineEntries, lines[..i + 1]) == Collect(lineEntries, lines[..i])
  {
    assert lines[..i + 1][..i] == lines[..i];
    assert Collect(lineEntries, lines[..i]) + [] == Collect(lineEntries, lines[..i]);
  }

  /** Nothing is collected exactly when no line contributes an entry. */
  lemma {:induction false} CollectEmpty(lineEntries: string -> seq<Entry>, lines: seq<string>)
    ensures Collect(lineEntries, lines) == [] <==> forall line :: line in lines ==> lineEntries(line) == []
  {
    if lines != [] {
      var init := lines[..|lines| - 1];
      CollectEmpty(lineEntries, init);
      assert lines == init + [lines[|lines| - 1]];
    }
  }

  /** What a parser returns once it has collected the entries `es`: the
      dictionary and the sorted list of timestamps. */
  function Build(es: seq<Entry>): Lyrics {
    Lyrics(MapOf(es), Sort(Stamps(es)))
  }

  /** The dictionary's keys are exactly the collected timestamps. */
  lemma {:induction false} MapOfKeys(es: seq<Entry>)
    ensures MapOf(es).Keys == set i | 0 <= i < |es| :: es[i].0
  {
    if es != [] {
      var init := es[..|es| - 1];
      MapOfKeys(init);
      assert forall i :: 0 <= i < |init| ==> init[i] == es[i];
      assert (set i | 0 <= i < |es| :: es[i].0)
          == (set i | 0 <= i < |init| :: init[i].0) + {es[|es| - 1].0};
    }
  }

  /** A duplicate timestamp keeps the text of its last entry. */
  lemma {:induction false} MapOfLastWins(es: seq<Entry>, i: nat)
    requires i < |es|
    requires forall j :: i < j < |es| ==> es[j].0 != es[i].0
    ensures es[i].0 in MapOf(es) && MapOf(es)[es[i].0] == es[i].1
  {
    if i < |es| - 1 {
      var init := es[..|es| - 1];
      assert forall j :: 0 <= j < |init| ==> init[j] == es[j];
      MapOfLastWins(init, i);
    }
  }

  /** The index a parser builds: `time_points` is ascending and holds every
      collected timestamp as often as it was collected; each of them is a key
      of `lyrics_map`, which has no other keys; and the dictionary is empty
      exactly when nothing was collected. */
  lemma BuildIndex(es: seq<Entry>)
    ensures Sorted(Build(es).times)
    ensures multiset(Build(es).times) == multiset(Stamps(es))
    ensures Build(es).lines.Keys == set t | t in Build(es).times
    ensures Build(es).lines == map[] <==> es == []
  {
    var b := Build(es);
    MapOfKeys(es);
    forall t | t in b.times ensures t in b.lines {
      assert t in multiset(Stamps(es));
    }
    forall t | t in b.lines ensures t in b.times {
      var i :| 0 <= i < |es| && es[i].0 == t;
      assert Stamps(es)[i] == t;
      assert t in multiset(b.times);
    }
    if es != [] {
      assert es[0].0 in b.lines.Keys;
    }
  }

  // ---------------------------------------------------------------------
  // The active line
  // ---------------------------------------------------------------------

  /** Length of the run of timestamps not later than `t` at the front of `ts`. */
  function LeadingAtMost(ts: seq<real>, t: real): (n: nat)
    ensures n <= |ts|
  {
    if ts == [] || ts[0] > t then 0 else 1 + LeadingAtMost(ts[1..], t)
  }

  /** The line the monitor highlights at playback position `t`: the last
      index it reaches scanning from the front while timestamps are `<= t`,
      or -1 when the first timestamp is already later. */
  function ActiveLine(ts: seq<real>, t: real): (i: int)
    ensures -1 <= i < |ts|
  {
    LeadingAtMost(ts, t) - 1
  }

  /** `i` is the active line exactly when every timestamp up to `i` is
      `<= t` and the next one, if any, is later. */
  lemma {:induction false} ActiveLineCharacterized(ts: seq<real>, t: real, i: int)
    ensures i == ActiveLine(ts, t) <==>
      -1 <= i < |ts| && (forall j :: 0 <= j <= i ==> ts[j] <= t) && (i + 1 < |ts| ==> t < ts[i + 1])
  {
    if ts != [] && ts[0] <= t {
      ActiveLineCharacterized(ts[1..], t, i - 1);
      assert forall j :: 0 <= j < |ts| - 1 ==> ts[1..][j] == ts[j + 1];
    }
  }

  /** On a sorted list the active line is the greatest index whose
      timestamp is `<= t`: every later timestamp is later than `t`. */
  lemma ActiveLineSorted(ts: seq<real>, t: real)
    requires Sorted(ts)
    ensures forall j :: 0 <= j <= ActiveLine(ts, t) ==> ts[j] <= t
    ensures forall j :: ActiveLine(ts, t) < j < |ts| ==> t < ts[j]
  {
    var i := ActiveLine(ts, t);
    ActiveLineCharacterized(ts, t, i);
  }

  /** As playback moves forward the active line never moves back. */
  lemma {:induction false} ActiveLineMonotone(ts: seq<real>, t1: real, t2: real)
    requires t1 <= t2
    ensures ActiveLine(ts, t1) <= ActiveLine(ts, t2)
  {
    if ts != [] && ts[0] <= t1 {
      ActiveLineMonotone(ts[1..], t1, t2);
    }
  }

  /** On a sorted, non-empty list: before the first timestamp there is no
      active line, and from the last timestamp on the last line is active. */
  lemma ActiveLineEnds(ts: seq<real>, t: real)
    requires Sorted(ts) && ts != []
    ensures t < ts[0] ==> ActiveLine(ts, t) == -1
    ensures ts[|ts| - 1] <= t ==> ActiveLine(ts, t) == |ts| - 1
  {
    ActiveLineSorted(ts, t);
    ActiveLineCharacterized(ts, t, |ts| - 1);
  }

  /** The monitor's scan over `time_points` (main.py): keep the index of
      each timestamp `<= curr`, stop at the first later one. */
  method ScanActiveLine(ts: seq<real>, curr: real) returns (idx: int)
    ensures idx == ActiveLine(ts, curr)
  {
    idx := -1;
    var i := 0;
    while i < |ts|
      invariant 0 <= i <= |ts|
      invariant idx == i - 1
      invariant forall j :: 0 <= j < i ==> ts[j] <= curr
    {
      if ts[i] <= curr {
        idx := i;
      } else {
        break;
      }
      i := i + 1;
    }
    ActiveLineCharacterized(ts, curr, idx);
  }
}
