/** The cache key of a song title (`OnlineFetcher._get_safe_filename`,
    repeated verbatim as `MusicPlayer._get_safe_filename`): every character
    that Windows forbids in a file name becomes `_`, and the result is cut
    to 200 characters. */
module SafeName {

  /** The characters `<>:"/\|?*`, in the order the source replaces them. */
  const InvalidChars: string := "<>:\"/\\|?*"

  /** Longest name kept. */
  const MaxLength: nat := 200

  predicate IsInvalid(c: char) {
    c in InvalidChars
  }

  /** What one character of the title becomes. */
  function SafeChar(c: char): char {
    if IsInvalid(c) then '_' else c
  }

  /** `s.replace(c, d)` for single characters. */
  function ReplaceChar(s: string, c: char, d: char): (r: string)
    ensures |r| == |s|
  {
    seq(|s|, i requires 0 <= i < |s| => if s[i] == c then d else s[i])
  }

  /** The safe name of `title`: each forbidden character replaced by `_`,
      every other character kept in place, cut to at most 200 characters;
      it holds no forbidden character. */
  function SafeFilename(title: string): (r: string)
    ensures |r| == if |title| > MaxLength then MaxLength else |title|
    ensures forall i :: 0 <= i < |r| ==> r[i] == if IsInvalid(title[i]) then '_' else title[i]
    ensures forall c :: c in r ==> !IsInvalid(c)
  {
    var s := seq(|title|, i requires 0 <= i < |title| => SafeChar(title[i]));
    if |s| > MaxLength then s[..MaxLength] else s
  }

  /** `_get_safe_filename`: one `replace` per forbidden character, then the
      cut. */
  method GetSafeFilename(title: string) returns (safeName: string)
    ensures safeName == SafeFilename(title)
  {
    safeName := title;
    for k := 0 to |InvalidChars|
      invariant |safeName| == |title|
      invariant forall i :: 0 <= i < |title| ==>
        safeName[i] == if title[i] in InvalidChars[..k] then '_' else title[i]
    {
      safeName := ReplaceChar(safeName, InvalidChars[k], '_');
    }
    assert InvalidChars[..|InvalidChars|] == InvalidChars;
    if |safeName| > MaxLength {
      safeName := safeName[..MaxLength];
    }
  }

  /** A safe name is its own safe name: a cached file name maps to itself. */
  lemma SafeFilenameIdempotent(title: string)
    ensures SafeFilename(SafeFilename(title)) == SafeFilename(title)
  {
    var s := SafeFilename(title);
    assert forall i :: 0 <= i < |s| ==> !IsInvalid(s[i]);
  }

  /** Titles that differ only in forbidden characters, or only after the
      200th character, share one cache file. */
  lemma SharedCacheFile(t1: string, t2: string)
    requires |t1| == |t2| || (|t1| >= MaxLength && |t2| >= MaxLength)
    requires forall i :: 0 <= i < |t1| && i < |t2| && i < MaxLength ==>
      t1[i] == t2[i] || (IsInvalid(t1[i]) && IsInvalid(t2[i]))
    ensures SafeFilename(t1) == SafeFilename(t2)
  {
  }

  /** For example `a:b` and `a?b` are stored under the same name `a_b`. */
  lemma ColonAndQuestionMarkCollide()
    ensures SafeFilename("a:b") == SafeFilename("a?b") == "a_b"
  {
  }
}
