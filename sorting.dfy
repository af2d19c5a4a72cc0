/** Ascending order of timestamps: the `list.sort()` both lyric parsers call
    on their `time_points` list, modelled as insertion sort on a sequence. */
module Sorting {

  /** Every element is at most the next one. */
  predicate Sorted(s: seq<real>)
    decreases |s|
  {
    |s| <= 1 || (s[0] <= s[1] && Sorted(s[1..]))
  }

  /** In an ascending sequence an element is at most every later one. */
  lemma {:induction false} SortedAt(s: seq<real>, i: nat, j: nat)
    requires Sorted(s) && i <= j < |s|
    ensures s[i] <= s[j]
  {
    if i < j {
      if i == 0 {
        SortedAt(s[1..], 0, j - 1);
      } else {
        SortedAt(s[1..], i - 1, j - 1);
      }
    }
  }

  /** Putting an element no larger than the head in front keeps a sequence
      ascending. */
  lemma ConsSorted(x: real, s: seq<real>)
    requires Sorted(s) && (s != [] ==> x <= s[0])
    ensures Sorted([x] + s)
  {
    assert ([x] + s)[1..] == s;
  }

  /** Puts `x` into the sorted sequence `s` before the first element not
      smaller than it. */
  function Insert(x: real, s: seq<real>): (r: seq<real>)
    requires Sorted(s)
    ensures Sorted(r)
    ensures multiset(r) == multiset(s) + multiset{x}
    ensures |r| == |s| + 1
    ensures r[0] == x || (s != [] && r[0] == s[0])
  {
    if s == [] || x <= s[0] then
      ConsSorted(x, s);
      [x] + s
    else
      var rest := Insert(x, s[1..]);
      assert s == [s[0]] + s[1..];
      assert s[1..] != [] ==> s[0] <= s[1..][0];
      ConsSorted(s[0], rest);
      [s[0]] + rest
  }

  /** `sorted(s)`: the elements of `s` in ascending order. */
  function Sort(s: seq<real>): (r: seq<real>)
    ensures Sorted(r)
    ensures multiset(r) == multiset(s)
    ensures |r| == |s|
  {
    if s == [] then []
    else
      assert s == [s[0]] + s[1..];
      Insert(s[0], Sort(s[1..]))
  }

  /** The first element of an ascending sequence is its least. */
  lemma HeadIsLeast(a: seq<real>, x: real)
    requires Sorted(a) && x in multiset(a)
    ensures a[0] <= x
  {
    assert x in a;
    var i :| 0 <= i < |a| && a[i] == x;
    SortedAt(a, 0, i);
  }

  /** Taking the first element off a sequence takes it off its multiset. */
  lemma TailMultiset(a: seq<real>)
    requires a != []
    ensures multiset(a[1..]) == multiset(a) - multiset{a[0]}
  {
    assert a == [a[0]] + a[1..];
  }

  /** Two ascending sequences with the same elements start alike, and
      what follows their heads has the same elements again. */
  lemma SameHead(a: seq<real>, b: seq<real>)
    requires Sorted(a) && Sorted(b) && a != []
    requires multiset(a) == multiset(b)
    ensures b != [] && a[0] == b[0]
    ensures multiset(a[1..]) == multiset(b[1..])
  {
    assert |a| == |multiset(a)| == |multiset(b)| == |b|;
    assert b[0] in multiset(b) && a[0] in multiset(a);
    HeadIsLeast(a, b[0]);
    HeadIsLeast(b, a[0]);
    TailMultiset(a);
    TailMultiset(b);
  }

  /** Sorting is deterministic: two ascending sequences with the same
      elements are equal, so `Sort(s)` is the only possible outcome of any
      correct sort of `s`. */
  lemma {:induction false} SortedUnique(a: seq<real>, b: seq<real>)
    requires Sorted(a) && Sorted(b)
    requires multiset(a) == multiset(b)
    ensures a == b
  {
    if a == [] {
      assert |b| == |multiset(b)| == 0;
    } else {
      SameHead(a, b);
      SortedUnique(a[1..], b[1..]);
      assert a == [a[0]] + a[1..];
      assert b == [b[0]] + b[1..];
    }
  }
}
