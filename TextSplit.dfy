/**
 * The text partitioning used by the ingestion code: .NET's
 * `String.Split(separator, StringSplitOptions.RemoveEmptyEntries)` with an
 * ordinal string separator, and the running sums of fragment lengths that
 * become stanza, line and word-location offsets.
 */
module TextSplit {
  import opened Wrappers

  /** `sep` occurs in `s` starting at index `i`. */
  predicate IsSepAt(s: string, sep: string, i: int)
  {
    0 <= i && i + |sep| <= |s| && s[i..i + |sep|] == sep
  }

  /** `sep` occurs somewhere in `s`. */
  ghost predicate ContainsSep(s: string, sep: string)
  {
    exists i :: IsSepAt(s, sep, i)
  }

  /** The leftmost occurrence of `sep` in `s` at or after `from`, if any. */
  function FirstSepFrom(s: string, sep: string, from: nat): (r: Option<nat>)
    requires |sep| > 0 && from <= |s|
    ensures r.Some? ==> from <= r.value && IsSepAt(s, sep, r.value)
    ensures forall j :: from <= j && (r.None? || j < r.value) ==> !IsSepAt(s, sep, j)
    decreases |s| - from
  {
    if IsSepAt(s, sep, from) then Some(from)
    else if from + |sep| >= |s| then None
    else FirstSepFrom(s, sep, from + 1)
  }

  /**
   * All fragments of `s` between non-overlapping occurrences of `sep`, found
   * left to right, empty fragments included (`StringSplitOptions.None`).
   */
  function Fragments(s: string, sep: string): (r: seq<string>)
    requires |sep| > 0
    ensures |r| >= 1
    decreases |s|
  {
    match FirstSepFrom(s, sep, 0)
    case None => [s]
    case Some(i) => [s[..i]] + Fragments(s[i + |sep|..], sep)
  }

  /** The non-empty members of `fs`, in order. */
  function NonEmpty(fs: seq<string>): (r: seq<string>)
    ensures forall k :: 0 <= k < |r| ==> r[k] != "" && r[k] in fs
  {
    if fs == [] then []
    else if fs[0] == "" then NonEmpty(fs[1..])
    else [fs[0]] + NonEmpty(fs[1..])
  }

  /**
   * `s.Split(sep, StringSplitOptions.RemoveEmptyEntries)`: the non-empty
   * fragments between occurrences of `sep`, in order. An empty separator
   * does not split at all.
   */
  function Split(s: string, sep: string): (r: seq<string>)
    ensures forall k :: 0 <= k < |r| ==> r[k] != ""
    ensures sep == "" ==> r == (if s == "" then [] else [s])
  {
    if sep == "" then (if s == "" then [] else [s])
    else NonEmpty(Fragments(s, sep))
  }

  /** The inverse of splitting without dropping empties: fragments glued by `sep`. */
  function Join(fs: seq<string>, sep: string): string
  {
    if |fs| == 0 then ""
    else if |fs| == 1 then fs[0]
    else fs[0] + sep + Join(fs[1..], sep)
  }

  /** Total length of the strings in `fs`. */
  function SumLengths(fs: seq<string>): nat
  {
    if fs == [] then 0 else |fs[0]| + SumLengths(fs[1..])
  }

  // ---------------------------------------------------------------------
  // Properties of the split
  // ---------------------------------------------------------------------

  /** A prefix that ends before the first separator holds no separator. */
  lemma PrefixBeforeSepIsSepFree(s: string, sep: string, i: nat)
    requires |sep| > 0 && i <= |s|
    requires forall j :: 0 <= j < i ==> !IsSepAt(s, sep, j)
    ensures !ContainsSep(s[..i], sep)
  {
    forall j | IsSepAt(s[..i], sep, j)
      ensures false
    {
      assert s[..i][j..j + |sep|] == s[j..j + |sep|];
      assert IsSepAt(s, sep, j);
    }
  }

  /** No fragment contains the separator. */
  lemma {:induction false} FragmentsAvoidSep(s: string, sep: string)
    requires |sep| > 0
    ensures forall k :: 0 <= k < |Fragments(s, sep)| ==> !ContainsSep(Fragments(s, sep)[k], sep)
    decreases |s|
  {
    match FirstSepFrom(s, sep, 0)
    case None =>
      PrefixBeforeSepIsSepFree(s, sep, |s|);
      assert s[..|s|] == s;
    case Some(i) =>
      PrefixBeforeSepIsSepFree(s, sep, i);
      FragmentsAvoidSep(s[i + |sep|..], sep);
  }

  /** No piece of a split contains the separator. */
  lemma SplitAvoidsSep(s: string, sep: string)
    requires |sep| > 0
    ensures forall k :: 0 <= k < |Split(s, sep)| ==> !ContainsSep(Split(s, sep)[k], sep)
  {
    FragmentsAvoidSep(s, sep);
  }

  /** Round trip: joining the fragments with the separator gives back the text. */
  lemma {:induction false} JoinFragments(s: string, sep: string)
    requires |sep| > 0
    ensures Join(Fragments(s, sep), sep) == s
    decreases |s|
  {
    match FirstSepFrom(s, sep, 0)
    case None =>
    case Some(i) =>
      var rest := s[i + |sep|..];
      var fs := Fragments(s, sep);
      assert fs == [s[..i]] + Fragments(rest, sep);
      assert fs[1..] == Fragments(rest, sep);
      JoinFragments(rest, sep);
      assert Join(fs, sep) == s[..i] + sep + rest;
      assert s[i..i + |sep|] == sep;
      assert s == s[..i] + s[i..i + |sep|] + rest;
  }

  /** Gluing adds one separator between each pair of neighbouring fragments. */
  lemma {:induction false} JoinLength(fs: seq<string>, sep: string)
    requires |fs| >= 1
    ensures |Join(fs, sep)| == SumLengths(fs) + (|fs| - 1) * |sep|
  {
    if |fs| == 1 {
      assert SumLengths(fs) == |fs[0]| + SumLengths(fs[1..]);
    } else {
      JoinLength(fs[1..], sep);
    }
  }

  /** The fragments of a text and the separators between them account for its whole length. */
  lemma FragmentsLength(s: string, sep: string)
    requires |sep| > 0
    ensures SumLengths(Fragments(s, sep)) + (|Fragments(s, sep)| - 1) * |sep| == |s|
  {
    JoinLength(Fragments(s, sep), sep);
    JoinFragments(s, sep);
  }

  /** The glued text is at least as long as the fragments together. */
  lemma {:induction false} JoinCoversFragments(fs: seq<string>, sep: string)
    ensures SumLengths(fs) <= |Join(fs, sep)|
  {
    if |fs| == 1 {
      assert SumLengths(fs) == |fs[0]| + SumLengths(fs[1..]);
    } else if |fs| > 1 {
      JoinCoversFragments(fs[1..], sep);
    }
  }

  /** Dropping empty strings does not change the total length. */
  lemma {:induction false} NonEmptyKeepsLength(fs: seq<string>)
    ensures SumLengths(NonEmpty(fs)) == SumLengths(fs)
  {
    if fs != [] {
      NonEmptyKeepsLength(fs[1..]);
      if fs[0] != "" {
        assert NonEmpty(fs) == [fs[0]] + NonEmpty(fs[1..]);
        assert ([fs[0]] + NonEmpty(fs[1..]))[1..] == NonEmpty(fs[1..]);
      }
    }
  }

  /** Without the empty ones, the fragments together are never longer than the text. */
  lemma FragmentsWithinText(s: string, sep: string)
    requires |sep| > 0
    ensures SumLengths(NonEmpty(Fragments(s, sep))) <= |s|
  {
    var fs := Fragments(s, sep);
    NonEmptyKeepsLength(fs);
    JoinCoversFragments(fs, sep);
    JoinFragments(s, sep);
  }

  /** The fragments of a split together are never longer than the text. */
  lemma SplitWithinText(s: string, sep: string)
    ensures SumLengths(Split(s, sep)) <= |s|
  {
    if sep == "" {
      assert SumLengths([s]) == |s| + SumLengths([]);
    } else {
      FragmentsWithinText(s, sep);
    }
  }

  // ---------------------------------------------------------------------
  // Running offsets: the offset of fragment i is SumLengths(fs[..i])
  // ---------------------------------------------------------------------

  /** Appending one string adds its length (the step of an offset loop). */
  lemma {:induction false} SumLengthsAppend(fs: seq<string>, x: string)
    ensures SumLengths(fs + [x]) == SumLengths(fs) + |x|
  {
    if fs == [] {
      assert [x][1..] == [];
    } else {
      assert (fs + [x])[1..] == fs[1..] + [x];
      SumLengthsAppend(fs[1..], x);
    }
  }

  /** The running offset of fragment i is the previous one plus its predecessor's length. */
  lemma PrefixSumStep(fs: seq<string>, i: nat)
    requires i < |fs|
    ensures SumLengths(fs[..i + 1]) == SumLengths(fs[..i]) + |fs[i]|
  {
    assert fs[..i + 1] == fs[..i] + [fs[i]];
    SumLengthsAppend(fs[..i], fs[i]);
  }

  /** `PrefixSumStep` at every position at once. */
  lemma PrefixSumSteps(fs: seq<string>)
    ensures forall i :: 0 <= i < |fs| ==> SumLengths(fs[..i + 1]) == SumLengths(fs[..i]) + |fs[i]|
  {
    forall i | 0 <= i < |fs|
      ensures SumLengths(fs[..i + 1]) == SumLengths(fs[..i]) + |fs[i]|
    {
      PrefixSumStep(fs, i);
    }
  }

  /** Offsets of non-empty fragments strictly increase. */
  lemma {:induction false} OffsetsIncrease(fs: seq<string>, i: nat, j: nat)
    requires forall k :: 0 <= k < |fs| ==> fs[k] != ""
    requires i < j <= |fs|
    ensures SumLengths(fs[..i]) < SumLengths(fs[..j])
    decreases j
  {
    PrefixSumStep(fs, j - 1);
    if i < j - 1 {
      OffsetsIncrease(fs, i, j - 1);
    }
  }

  /** A prefix is never longer in total than the whole sequence. */
  lemma {:induction false} PrefixSumBounded(fs: seq<string>, i: nat)
    requires i <= |fs|
    ensures SumLengths(fs[..i]) <= SumLengths(fs)
    decreases |fs| - i
  {
    if i < |fs| {
      PrefixSumStep(fs, i);
      PrefixSumBounded(fs, i + 1);
    } else {
      assert fs[..i] == fs;
    }
  }

  /**
   * A fragment of a split, placed at its running offset, ends within the
   * text: offset + length <= |s|. For the last fragment this says that the
   * last row never reaches past the text.
   */
  lemma RowEndWithinText(s: string, sep: string, i: nat)
    requires i < |Split(s, sep)|
    ensures SumLengths(Split(s, sep)[..i]) + |Split(s, sep)[i]| <= |s|
  {
    var fs := Split(s, sep);
    PrefixSumStep(fs, i);
    PrefixSumBounded(fs, i + 1);
    SplitWithinText(s, sep);
  }
}
