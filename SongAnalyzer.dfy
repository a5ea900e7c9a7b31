/**
 * Song ingestion (Model/SongAnalyzer.cs): a song's text is split into
 * stanzas, lines and space-separated tokens; the tokens are counted,
 * missing words are added, the song is linked to each of its words with
 * its number of occurrences, and three contributors are credited. All of it
 * runs against the in-memory store `Storage.SongsContext`.
 */
module SongAnalyzer {
  import opened Wrappers
  import opened TextSplit
  import opened WordIndexing
  import opened Entities
  import opened Storage

  /** The exceptions the ingestion code raises, as values. */
  datatype Error =
    | SongAlreadyExists  // InvalidOperationException: a song of that name is stored
    | DuplicateKey       // ArgumentException from ToDictionary: two song-words share a text
    | KeyNotFound        // KeyNotFoundException: a token without a song-word
    | StoreRefused       // the store refuses rows that break a unique index or foreign key

  // ---------------------------------------------------------------------
  // Stanza and line rows
  // ---------------------------------------------------------------------

  /**
   * The stanza rows of a song: row i carries fragment i's length and, as
   * offset, the total length of the fragments before it.
   */
  function StanzaRows(songId: nat, fs: seq<string>): (r: seq<SongStanza>)
    ensures |r| == |fs|
    // each row of the song ends where the running total after its fragment stands
    ensures forall i :: 0 <= i < |r| ==>
              r[i].SongId == songId && r[i].Offset + r[i].WordLength == SumLengths(fs[..i + 1])
  {
    PrefixSumSteps(fs);
    seq(|fs|, i requires 0 <= i < |fs| => SongStanza(songId, SumLengths(fs[..i]), |fs[i]|))
  }

  /** The line rows of a song, laid out like the stanza rows. */
  function LineRows(songId: nat, fs: seq<string>): (r: seq<SongLine>)
    ensures |r| == |fs|
    ensures forall i :: 0 <= i < |r| ==>
              r[i].SongId == songId && r[i].Offset + r[i].WordLength == SumLengths(fs[..i + 1])
  {
    PrefixSumSteps(fs);
    seq(|fs|, i requires 0 <= i < |fs| => SongLine(songId, SumLengths(fs[..i]), |fs[i]|))
  }

  /** Running offsets over the non-empty fragments of a split of `text`. */
  lemma RunningOffsets(text: string, sep: string)
    ensures var fs := Split(text, sep);
            && (forall i :: 0 <= i < |fs| ==> SumLengths(fs[..i]) + |fs[i]| <= |text|)
            && (forall i :: 0 < i < |fs| ==> SumLengths(fs[..i]) == SumLengths(fs[..i - 1]) + |fs[i - 1]|)
            && (forall i, j :: 0 <= i < j < |fs| ==> SumLengths(fs[..i]) < SumLengths(fs[..j]))
  {
    var fs := Split(text, sep);
    forall i | 0 <= i < |fs|
      ensures SumLengths(fs[..i]) + |fs[i]| <= |text|
    {
      RowEndWithinText(text, sep, i);
    }
    forall i | 0 < i < |fs|
      ensures SumLengths(fs[..i]) == SumLengths(fs[..i - 1]) + |fs[i - 1]|
    {
      PrefixSumStep(fs, i - 1);
    }
    forall i, j | 0 <= i < j < |fs|
      ensures SumLengths(fs[..i]) < SumLengths(fs[..j])
    {
      OffsetsIncrease(fs, i, j);
    }
  }

  /**
   * Stanzas: one row per non-empty fragment between double line breaks, in
   * order. The first starts at 0, each next one where the previous one
   * ends (separators are not counted), so offsets strictly increase, and
   * every row ends within the text.
   */
  lemma StanzaLayout(text: string, newLine: string, songId: nat)
    ensures var fs := Split(text, newLine + newLine);
            var rows := StanzaRows(songId, fs);
            && |rows| == |fs|
            && (|rows| > 0 ==> rows[0].Offset == 0)
            && (forall i :: 0 <= i < |rows| ==>
                  rows[i].SongId == songId && rows[i].WordLength == |fs[i]| > 0
                  && rows[i].Offset + rows[i].WordLength <= |text|)
            && (forall i :: 0 < i < |rows| ==> rows[i].Offset == rows[i - 1].Offset + rows[i - 1].WordLength)
            && (forall i, j :: 0 <= i < j < |rows| ==> rows[i].Offset < rows[j].Offset)
  {
    StanzaRowsLayout(text, newLine + newLine, songId);
  }

  /** `StanzaLayout` for any separator. */
  lemma StanzaRowsLayout(text: string, sep: string, songId: nat)
    ensures var fs := Split(text, sep);
            var rows := StanzaRows(songId, fs);
            && |rows| == |fs|
            && (|rows| > 0 ==> rows[0].Offset == 0)
            && (forall i :: 0 <= i < |rows| ==>
                  rows[i].SongId == songId && rows[i].WordLength == |fs[i]| > 0
                  && rows[i].Offset + rows[i].WordLength <= |text|)
            && (forall i :: 0 < i < |rows| ==> rows[i].Offset == rows[i - 1].Offset + rows[i - 1].WordLength)
            && (forall i, j :: 0 <= i < j < |rows| ==> rows[i].Offset < rows[j].Offset)
  {
    var fs := Split(text, sep);
    var rows := StanzaRows(songId, fs);
    RunningOffsets(text, sep);
    forall i | 0 <= i < |rows|
      ensures rows[i].SongId == songId && rows[i].WordLength == |fs[i]| > 0
      ensures rows[i].Offset + rows[i].WordLength <= |text|
    {
      assert rows[i] == SongStanza(songId, SumLengths(fs[..i]), |fs[i]|);
    }
    forall i | 0 < i < |rows|
      ensures rows[i].Offset == rows[i - 1].Offset + rows[i - 1].WordLength
    {
      assert rows[i] == SongStanza(songId, SumLengths(fs[..i]), |fs[i]|);
      assert rows[i - 1] == SongStanza(songId, SumLengths(fs[..i - 1]), |fs[i - 1]|);
    }
    forall i, j | 0 <= i < j < |rows|
      ensures rows[i].Offset < rows[j].Offset
    {
      assert rows[i] == SongStanza(songId, SumLengths(fs[..i]), |fs[i]|);
      assert rows[j] == SongStanza(songId, SumLengths(fs[..j]), |fs[j]|);
    }
    if |rows| > 0 {
      assert fs[..0] == [];
      assert rows[0] == SongStanza(songId, SumLengths(fs[..0]), |fs[0]|);
    }
  }

  /**
   * Lines: one row per non-empty fragment between single line breaks of
   * the whole text, laid out like the stanzas.
   */
  lemma LineLayout(text: string, newLine: string, songId: nat)
    ensures var fs := Split(text, newLine);
            var rows := LineRows(songId, fs);
            && |rows| == |fs|
            && (|rows| > 0 ==> rows[0].Offset == 0)
            && (forall i :: 0 <= i < |rows| ==>
                  rows[i].SongId == songId && rows[i].WordLength == |fs[i]| > 0
                  && rows[i].Offset + rows[i].WordLength <= |text|)
            && (forall i :: 0 < i < |rows| ==> rows[i].Offset == rows[i - 1].Offset + rows[i - 1].WordLength)
            && (forall i, j :: 0 <= i < j < |rows| ==> rows[i].Offset < rows[j].Offset)
  {
    var fs := Split(text, newLine);
    var rows := LineRows(songId, fs);
    RunningOffsets(text, newLine);
    forall i | 0 <= i < |rows|
      ensures rows[i].SongId == songId && rows[i].WordLength == |fs[i]| > 0
      ensures rows[i].Offset + rows[i].WordLength <= |text|
    {
      assert rows[i] == SongLine(songId, SumLengths(fs[..i]), |fs[i]|);
    }
    forall i | 0 < i < |rows|
      ensures rows[i].Offset == rows[i - 1].Offset + rows[i - 1].WordLength
    {
      assert rows[i] == SongLine(songId, SumLengths(fs[..i]), |fs[i]|);
      assert rows[i - 1] == SongLine(songId, SumLengths(fs[..i - 1]), |fs[i - 1]|);
    }
    forall i, j | 0 <= i < j < |rows|
      ensures rows[i].Offset < rows[j].Offset
    {
      assert rows[i] == SongLine(songId, SumLengths(fs[..i]), |fs[i]|);
      assert rows[j] == SongLine(songId, SumLengths(fs[..j]), |fs[j]|);
    }
    if |rows| > 0 {
      assert fs[..0] == [];
      assert rows[0] == SongLine(songId, SumLengths(fs[..0]), |fs[0]|);
    }
  }

  /** Rows of a song that owns no stanza yet, at increasing offsets, keep the stanza index. */
  lemma AppendStanzasKeepsIndex(stored: seq<SongStanza>, rows: seq<SongStanza>, songIds: set<nat>, songId: nat)
    requires StanzasValid(stored, songIds) && songId in songIds
    requires forall k :: 0 <= k < |stored| ==> stored[k].SongId != songId
    requires forall k :: 0 <= k < |rows| ==> rows[k].SongId == songId
    requires forall k, l :: 0 <= k < l < |rows| ==> rows[k].Offset < rows[l].Offset
    ensures StanzasValid(stored + rows, songIds)
  {
    var all := stored + rows;
    forall i, j | 0 <= i < j < |all|
      ensures all[i].SongId != all[j].SongId || all[i].Offset != all[j].Offset
    {
      if j >= |stored| && i >= |stored| {
        assert all[i] == rows[i - |stored|] && all[j] == rows[j - |stored|];
      }
    }
  }

  /** Rows of a song that owns no line yet, at increasing offsets, keep the line index. */
  lemma AppendLinesKeepsIndex(stored: seq<SongLine>, rows: seq<SongLine>, songIds: set<nat>, songId: nat)
    requires LinesValid(stored, songIds) && songId in songIds
    requires forall k :: 0 <= k < |stored| ==> stored[k].SongId != songId
    requires forall k :: 0 <= k < |rows| ==> rows[k].SongId == songId
    requires forall k, l :: 0 <= k < l < |rows| ==> rows[k].Offset < rows[l].Offset
    ensures LinesValid(stored + rows, songIds)
  {
    var all := stored + rows;
    forall i, j | 0 <= i < j < |all|
      ensures all[i].SongId != all[j].SongId || all[i].Offset != all[j].Offset
    {
      if j >= |stored| && i >= |stored| {
        assert all[i] == rows[i - |stored|] && all[j] == rows[j - |stored|];
      }
    }
  }

  /**
   * `InsertSongStanzas`: walks the stanzas with a running offset, then
   * stores the rows.
   */
  method InsertSongStanzas(ctx: SongsContext, input: string, song: Song, newLine: string)
    returns (songStanzas: seq<SongStanza>)
    requires ctx.Valid() && song.Id in SongIds(ctx.songs)
    requires forall k :: 0 <= k < |ctx.stanzas| ==> ctx.stanzas[k].SongId != song.Id
    modifies ctx
    ensures ctx.Valid()
    ensures songStanzas == StanzaRows(song.Id, Split(input, newLine + newLine))
    ensures ctx.Db() == old(ctx.Db()).(stanzas := old(ctx.stanzas) + songStanzas)
  {
    var stanzas := Split(input, newLine + newLine);
    ghost var spec := StanzaRows(song.Id, stanzas);
    songStanzas := [];
    var offset := 0;
    for i := 0 to |stanzas|
      modifies {}
      invariant offset == SumLengths(stanzas[..i])
      invariant songStanzas == spec[..i]
    {
      PrefixSumStep(stanzas, i);
      songStanzas := songStanzas + [SongStanza(song.Id, offset, |stanzas[i]|)];
      offset := offset + |stanzas[i]|;
    }
    assert songStanzas == spec;
    StanzaLayout(input, newLine, song.Id);
    AppendStanzasKeepsIndex(ctx.stanzas, songStanzas, SongIds(ctx.songs), song.Id);
    ctx.AddStanzas(songStanzas);
  }

  /**
   * `InsertSongLines`: walks the lines of the whole text with a running
   * offset, then stores the rows.
   */
  method InsertSongLines(ctx: SongsContext, input: string, song: Song, newLine: string)
    returns (songLines: seq<SongLine>)
    requires ctx.Valid() && song.Id in SongIds(ctx.songs)
    requires forall k :: 0 <= k < |ctx.lines| ==> ctx.lines[k].SongId != song.Id
    modifies ctx
    ensures ctx.Valid()
    ensures songLines == LineRows(song.Id, Split(input, newLine))
    ensures ctx.Db() == old(ctx.Db()).(lines := old(ctx.lines) + songLines)
  {
    var lines := Split(input, newLine);
    ghost var spec := LineRows(song.Id, lines);
    songLines := [];
    var offset := 0;
    for i := 0 to |lines|
      modifies {}
      invariant offset == SumLengths(lines[..i])
      invariant songLines == spec[..i]
    {
      PrefixSumStep(lines, i);
      songLines := songLines + [SongLine(song.Id, offset, |lines[i]|)];
      offset := offset + |lines[i]|;
    }
    assert songLines == spec;
    LineLayout(input, newLine, song.Id);
    AppendLinesKeepsIndex(ctx.lines, songLines, SongIds(ctx.songs), song.Id);
    ctx.AddLines(songLines);
  }

  // ---------------------------------------------------------------------
  // Words and song-word links
  // ---------------------------------------------------------------------

  /** The texts of `ws`, in order. */
  function TextsOf(ws: seq<Word>): seq<string>
  {
    seq(|ws|, k requires 0 <= k < |ws| => ws[k].WordText)
  }

  /** The texts of the stored words. */
  function StoredTexts(ws: seq<Word>): set<string>
  {
    set w | w in ws :: w.WordText
  }

  /** A word row for `t` before the store gives it an identity. */
  function NewWord(t: string): Word
  {
    Word(0, t, |t|)
  }

  /**
   * The stored words whose text is one of the tokens, in store order (the
   * `Where(x => wordsDistinct.Contains(x.WordText))` query).
   */
  function ExistingWords(stored: seq<Word>, distinct: seq<string>): (r: seq<Word>)
    ensures forall k :: 0 <= k < |r| ==> r[k].WordText in distinct
  {
    if stored == [] then []
    else
      var rest := ExistingWords(stored[1..], distinct);
      if stored[0].WordText in distinct then [stored[0]] + rest else rest
  }

  /**
   * The tokens whose text is not in `existing`, in token order (the
   * `Where(x => !existingWordsHashSet.Contains(x))` filter).
   */
  function Absent(distinct: seq<string>, existing: set<string>): (r: seq<string>)
    ensures forall k :: 0 <= k < |r| ==> r[k] !in existing
  {
    if distinct == [] then []
    else
      var rest := Absent(distinct[1..], existing);
      if distinct[0] in existing then rest else [distinct[0]] + rest
  }

  /** The words found are exactly the stored words whose text is a token. */
  lemma {:induction false} ExistingWordsMembers(stored: seq<Word>, distinct: seq<string>)
    ensures forall w :: w in ExistingWords(stored, distinct) <==> w in stored && w.WordText in distinct
  {
    if stored != [] {
      ExistingWordsMembers(stored[1..], distinct);
      assert stored == [stored[0]] + stored[1..];
    }
  }

  /** No two of `ws` share a text. */
  predicate UniqueTexts(ws: seq<Word>)
  {
    forall i, j :: 0 <= i < j < |ws| ==> ws[i].WordText != ws[j].WordText
  }

  /** Every one of `ws` is a row of `store`. */
  predicate AllStored(ws: seq<Word>, store: seq<Word>)
  {
    forall k :: 0 <= k < |ws| ==> ws[k] in store
  }

  /** No string occurs twice in `ts`. */
  predicate NoDuplicates(ts: seq<string>)
  {
    forall i, j :: 0 <= i < j < |ts| ==> ts[i] != ts[j]
  }

  /** Texts that are unique in the store stay unique among the words found. */
  lemma {:induction false} ExistingWordsUnique(stored: seq<Word>, distinct: seq<string>)
    requires UniqueTexts(stored)
    ensures UniqueTexts(ExistingWords(stored, distinct))
  {
    if stored != [] {
      var rest := ExistingWords(stored[1..], distinct);
      ExistingWordsUnique(stored[1..], distinct);
      if stored[0].WordText in distinct {
        ExistingWordsMembers(stored[1..], distinct);
        var r := [stored[0]] + rest;
        forall i, j | 0 <= i < j < |r|
          ensures r[i].WordText != r[j].WordText
        {
          if i == 0 {
            assert r[j] == rest[j - 1] && rest[j - 1] in stored[1..];
            var m :| 0 <= m < |stored[1..]| && stored[1..][m] == rest[j - 1];
            assert stored[m + 1] == rest[j - 1];
            assert stored[0].WordText != stored[m + 1].WordText;
            assert r[i] == stored[0];
          } else {
            assert r[i] == rest[i - 1] && r[j] == rest[j - 1];
            assert rest[i - 1].WordText != rest[j - 1].WordText;
          }
        }
        assert ExistingWords(stored, distinct) == r;
      }
    }
  }

  /** The filter keeps exactly the tokens outside `existing`. */
  lemma {:induction false} AbsentMembers(distinct: seq<string>, existing: set<string>)
    ensures forall t :: t in Absent(distinct, existing) <==> t in distinct && t !in existing
  {
    if distinct != [] {
      AbsentMembers(distinct[1..], existing);
      assert distinct == [distinct[0]] + distinct[1..];
    }
  }

  /** Distinct tokens give distinct texts to add. */
  lemma {:induction false} AbsentUnique(distinct: seq<string>, existing: set<string>)
    requires NoDuplicates(distinct)
    ensures NoDuplicates(Absent(distinct, existing))
  {
    if distinct != [] {
      AbsentUnique(distinct[1..], existing);
      AbsentMembers(distinct[1..], existing);
      var rest := Absent(distinct[1..], existing);
      if distinct[0] !in existing {
        assert distinct[0] !in rest;
        var r := [distinct[0]] + rest;
        forall i, j | 0 <= i < j < |r|
          ensures r[i] != r[j]
        {
          if i == 0 {
            assert r[j] == rest[j - 1] && rest[j - 1] in rest;
          } else {
            assert r[i] == rest[i - 1] && r[j] == rest[j - 1];
          }
        }
      }
    }
  }

  /** Among the tokens, the texts of the words found are exactly the stored texts. */
  lemma ExistingTextsAgree(stored: seq<Word>, d: seq<string>)
    ensures forall t :: t in d ==> (t in StoredTexts(ExistingWords(stored, d)) <==> t in StoredTexts(stored))
  {
    ExistingWordsMembers(stored, d);
    forall t | t in d && t in StoredTexts(stored)
      ensures t in StoredTexts(ExistingWords(stored, d))
    {
      var w :| w in stored && w.WordText == t;
      assert w in ExistingWords(stored, d);
    }
  }

  /** The filter only asks about the tokens themselves. */
  lemma {:induction false} AbsentAgrees(d: seq<string>, e: set<string>, s: set<string>)
    requires forall t :: t in d ==> (t in e <==> t in s)
    ensures Absent(d, e) == Absent(d, s)
  {
    if d != [] {
      assert d[0] in d;
      assert forall t :: t in d[1..] ==> t in d;
      AbsentAgrees(d[1..], e, s);
    }
  }

  /** No text the filter lets through is stored already. */
  lemma MissingNotStored(stored: seq<Word>, d: seq<string>)
    ensures var missing := Absent(d, StoredTexts(stored));
            forall k, i :: 0 <= k < |missing| && 0 <= i < |stored| ==> missing[k] != stored[i].WordText
  {
    var missing := Absent(d, StoredTexts(stored));
    AbsentMembers(d, StoredTexts(stored));
    forall k, i | 0 <= k < |missing| && 0 <= i < |stored|
      ensures missing[k] != stored[i].WordText
    {
      assert missing[k] in missing;
      assert stored[i] in stored;
    }
  }

  /** Every word found or added is the word of a token. */
  lemma SelectedWordsSound(stored: seq<Word>, d: seq<string>, added: seq<Word>)
    requires TextsOf(added) == Absent(d, StoredTexts(stored))
    ensures forall t :: t in TextsOf(ExistingWords(stored, d) + added) ==> t in d
  {
    var existing := ExistingWords(stored, d);
    var missing := TextsOf(added);
    var words := existing + added;
    ExistingWordsMembers(stored, d);
    AbsentMembers(d, StoredTexts(stored));
    forall t | t in TextsOf(words)
      ensures t in d
    {
      var k :| 0 <= k < |words| && TextsOf(words)[k] == t;
      if k < |existing| {
        assert existing[k] in existing;
      } else {
        assert missing[k - |existing|] in missing;
      }
    }
  }

  /** Every token has a word among the ones found or the ones added. */
  lemma SelectedWordsCover(stored: seq<Word>, d: seq<string>, added: seq<Word>)
    requires TextsOf(added) == Absent(d, StoredTexts(stored))
    ensures forall t :: t in d ==> t in TextsOf(ExistingWords(stored, d) + added)
  {
    var existing := ExistingWords(stored, d);
    var missing := TextsOf(added);
    var words := existing + added;
    ExistingWordsMembers(stored, d);
    AbsentMembers(d, StoredTexts(stored));
    forall t | t in d
      ensures t in TextsOf(words)
    {
      if t in StoredTexts(stored) {
        var w :| w in stored && w.WordText == t;
        assert w in existing;
        var k :| 0 <= k < |existing| && existing[k] == w;
        assert TextsOf(words)[k] == t;
      } else {
        assert t in missing;
        var k :| 0 <= k < |missing| && missing[k] == t;
        assert TextsOf(words)[|existing| + k] == t;
      }
    }
  }

  /** The words found and the words added never share a text. */
  lemma SelectedWordsUnique(stored: seq<Word>, nextId: nat, d: seq<string>, added: seq<Word>)
    requires WordsValid(stored, nextId) && NoDuplicates(d)
    requires TextsOf(added) == Absent(d, StoredTexts(stored))
    ensures UniqueTexts(ExistingWords(stored, d) + added)
  {
    var existing := ExistingWords(stored, d);
    assert UniqueTexts(existing) by {
      ExistingWordsUnique(stored, d);
    }
    assert UniqueTexts(added) by {
      AbsentUnique(d, StoredTexts(stored));
      forall i, j | 0 <= i < j < |added|
        ensures added[i].WordText != added[j].WordText
      {
        assert TextsOf(added)[i] == added[i].WordText && TextsOf(added)[j] == added[j].WordText;
      }
    }
    assert forall k :: 0 <= k < |added| ==> added[k].WordText !in StoredTexts(stored) by {
      forall k | 0 <= k < |added|
        ensures added[k].WordText !in StoredTexts(stored)
      {
        assert TextsOf(added)[k] == added[k].WordText;
      }
    }
    assert forall k :: 0 <= k < |existing| ==> existing[k].WordText in StoredTexts(stored) by {
      ExistingWordsMembers(stored, d);
      forall k | 0 <= k < |existing|
        ensures existing[k].WordText in StoredTexts(stored)
      {
        assert existing[k] in existing;
      }
    }
    UniqueAcross(existing, added, StoredTexts(stored));
  }

  /**
   * Words with unique texts inside a set of texts, followed by words with
   * unique texts outside it, have unique texts together.
   */
  lemma UniqueAcross(inside: seq<Word>, outside: seq<Word>, texts: set<string>)
    requires UniqueTexts(inside) && UniqueTexts(outside)
    requires forall k :: 0 <= k < |inside| ==> inside[k].WordText in texts
    requires forall k :: 0 <= k < |outside| ==> outside[k].WordText !in texts
    ensures UniqueTexts(inside + outside)
  {
    var ws := inside + outside;
    forall i, j | 0 <= i < j < |ws|
      ensures ws[i].WordText != ws[j].WordText
    {
      if j < |inside| {
        assert ws[i] == inside[i] && ws[j] == inside[j];
      } else if i < |inside| {
        assert ws[i] == inside[i] && ws[j] == outside[j - |inside|];
      } else {
        assert ws[i] == outside[i - |inside|] && ws[j] == outside[j - |inside|];
      }
    }
  }

  /** The words found and the words added are all in the store once the latter are added. */
  lemma SelectedWordsStored(stored: seq<Word>, d: seq<string>, added: seq<Word>)
    ensures AllStored(ExistingWords(stored, d) + added, stored + added)
  {
    var existing := ExistingWords(stored, d);
    var words := existing + added;
    ExistingWordsMembers(stored, d);
    forall k | 0 <= k < |words|
      ensures words[k] in stored + added
    {
      if k < |existing| {
        assert words[k] in existing;
      } else {
        assert words[k] == (stored + added)[|stored| + k - |existing|];
      }
    }
  }

  /**
   * `InsertWordsIfMissing`: counts the tokens, looks up the stored words
   * among them and inserts one word row per distinct token not stored yet.
   * The answer holds one stored row per distinct token: the ones found,
   * then the ones added.
   */
  method InsertWordsIfMissing(ctx: SongsContext, text: string)
    returns (wordIndex: map<string, nat>, words: seq<Word>)
    requires ctx.Valid()
    modifies ctx
    ensures ctx.Valid()
    ensures wordIndex == WordIndex(Tokens(text))
    ensures forall t :: t in TextsOf(words) <==> t in Tokens(text)
    ensures UniqueTexts(words)
    ensures AllStored(words, ctx.words)
    ensures old(ctx.words) <= ctx.words
    ensures ctx.Db() == WordsAdded(old(ctx.Db()), text)
    ensures words == FoundAndNew(old(ctx.words), text, old(ctx.nextId))
  {
    var tokens := Tokens(text);
    var wordsDistinct := Distinct(tokens);
    wordIndex := WordIndex(tokens);
    var existingWords := ExistingWords(ctx.words, wordsDistinct);
    var existingWordsHashSet := StoredTexts(existingWords);
    var missingTexts := Absent(wordsDistinct, existingWordsHashSet);
    var missingWords := seq(|missingTexts|, k requires 0 <= k < |missingTexts| => NewWord(missingTexts[k]));
    ghost var stored := ctx.words;
    MissingWordsInsertable(stored, wordsDistinct, missingWords);
    var added := ctx.AddWords(missingWords);
    words := existingWords + added;
    InsertedWordsFacts(stored, old(ctx.nextId), text, tokens, wordsDistinct, missingTexts, missingWords, added, ctx.words);
  }

  /**
   * What `InsertWordsIfMissing` answers, in terms of the stored words before
   * and after: the added rows are the missing texts numbered from `nextId`,
   * and the found rows followed by them cover the tokens once each.
   */
  lemma InsertedWordsFacts(stored: seq<Word>, nextId: nat, text: string, tokens: seq<string>, d: seq<string>,
                           missingTexts: seq<string>, missingWords: seq<Word>, added: seq<Word>, all: seq<Word>)
    requires WordsValid(stored, nextId)
    requires tokens == Tokens(text) && d == Distinct(tokens)
    requires missingTexts == Absent(d, StoredTexts(ExistingWords(stored, d)))
    requires |missingWords| == |missingTexts|
    requires forall k :: 0 <= k < |missingTexts| ==> missingWords[k] == NewWord(missingTexts[k])
    requires |added| == |missingWords|
    requires forall k :: 0 <= k < |added| ==> added[k] == missingWords[k].(Id := nextId + k)
    requires all == stored + added
    ensures added == NewWords(stored, text, nextId)
    ensures forall t :: t in TextsOf(ExistingWords(stored, d) + added) <==> t in tokens
    ensures UniqueTexts(ExistingWords(stored, d) + added)
    ensures AllStored(ExistingWords(stored, d) + added, all)
  {
    MissingWordsInsertable(stored, d, missingWords);
    AddedWordsNumbered(missingTexts, missingWords, added, nextId);
    SelectedWordsFacts(stored, nextId, tokens, d, added, all);
    AddedAreNewWords(stored, text, nextId, added);
  }

  /**
   * The rows `InsertWordsIfMissing` hands to the store meet what the store
   * demands of new words: lengths that match, no text twice, no text that is
   * stored already; filtering on the texts found is filtering on the store.
   */
  lemma MissingWordsInsertable(stored: seq<Word>, d: seq<string>, missingWords: seq<Word>)
    requires NoDuplicates(d)
    requires var m := Absent(d, StoredTexts(ExistingWords(stored, d)));
             |missingWords| == |m| && forall k :: 0 <= k < |m| ==> missingWords[k] == NewWord(m[k])
    ensures Absent(d, StoredTexts(ExistingWords(stored, d))) == Absent(d, StoredTexts(stored))
    ensures forall k :: 0 <= k < |missingWords| ==> missingWords[k].Length == |missingWords[k].WordText|
    ensures forall k, l :: 0 <= k < l < |missingWords| ==> missingWords[k].WordText != missingWords[l].WordText
    ensures forall k, i :: 0 <= k < |missingWords| && 0 <= i < |stored| ==>
              missingWords[k].WordText != stored[i].WordText
  {
    var m := Absent(d, StoredTexts(stored));
    ExistingTextsAgree(stored, d);
    AbsentAgrees(d, StoredTexts(ExistingWords(stored, d)), StoredTexts(stored));
    MissingNotStored(stored, d);
    AbsentUnique(d, StoredTexts(stored));
    assert forall k :: 0 <= k < |missingWords| ==> missingWords[k].WordText == m[k];
  }

  /** The stored copies of the missing words keep their texts and lengths and take identities from `nextId`. */
  lemma AddedWordsNumbered(missingTexts: seq<string>, missingWords: seq<Word>, added: seq<Word>, nextId: nat)
    requires |missingWords| == |missingTexts| && |added| == |missingWords|
    requires forall k :: 0 <= k < |missingTexts| ==> missingWords[k] == NewWord(missingTexts[k])
    requires forall k :: 0 <= k < |added| ==> added[k] == missingWords[k].(Id := nextId + k)
    ensures TextsOf(added) == missingTexts
    ensures forall k :: 0 <= k < |added| ==> added[k] == Word(nextId + k, added[k].WordText, |added[k].WordText|)
  {
  }

  /**
   * The words `InsertWordsIfMissing` answers with, found ones then added
   * ones, have exactly the texts of the tokens, each once, and are all in
   * the store.
   */
  lemma SelectedWordsFacts(stored: seq<Word>, nextId: nat, tokens: seq<string>, d: seq<string>, added: seq<Word>,
                           all: seq<Word>)
    requires WordsValid(stored, nextId)
    requires d == Distinct(tokens)
    requires TextsOf(added) == Absent(d, StoredTexts(stored))
    requires all == stored + added
    ensures forall t :: t in TextsOf(ExistingWords(stored, d) + added) <==> t in tokens
    ensures UniqueTexts(ExistingWords(stored, d) + added)
    ensures AllStored(ExistingWords(stored, d) + added, all)
  {
    SelectedWordsSound(stored, d, added);
    SelectedWordsCover(stored, d, added);
    SelectedWordsUnique(stored, nextId, d, added);
    SelectedWordsStored(stored, d, added);
  }

  /** Stored words with different texts have different identities. */
  lemma StoredWordIdsDiffer(stored: seq<Word>, nextId: nat, a: Word, b: Word)
    requires WordsValid(stored, nextId) && a in stored && b in stored
    requires a.WordText != b.WordText
    ensures a.Id != b.Id
  {
    var i :| 0 <= i < |stored| && stored[i] == a;
    var j :| 0 <= j < |stored| && stored[j] == b;
    assert i != j;
  }

  /**
   * `InsertSongWords`: one link per word, from the song to the word, with
   * the word's count from the index; link k receives the next identity
   * plus k. Each (song, word) pair is linked once.
   */
  method InsertSongWords(ctx: SongsContext, words: seq<Word>, song: Song, wordIndex: map<string, nat>)
    returns (songWords: seq<SongWord>)
    requires ctx.Valid() && song.Id in SongIds(ctx.songs)
    requires forall k :: 0 <= k < |words| ==> words[k] in ctx.words && words[k].WordText in wordIndex
    requires forall i, j :: 0 <= i < j < |words| ==> words[i].WordText != words[j].WordText
    requires forall k :: 0 <= k < |ctx.songWords| ==> ctx.songWords[k].SongId != song.Id
    modifies ctx
    ensures ctx.Valid()
    ensures |songWords| == |words|
    ensures forall k :: 0 <= k < |words| ==>
              songWords[k] == SongWord(old(ctx.nextId) + k, words[k], song.Id, wordIndex[words[k].WordText])
    ensures forall i, j :: 0 <= i < j < |songWords| ==> songWords[i].Word.Id != songWords[j].Word.Id
    ensures ctx.Db() == old(ctx.Db()).(songWords := old(ctx.songWords) + songWords, nextId := old(ctx.nextId) + |words|)
  {
    var newRows := seq(|words|, k requires 0 <= k < |words| && words[k].WordText in wordIndex =>
                         SongWord(0, words[k], song.Id, wordIndex[words[k].WordText]));
    forall i, j | 0 <= i < j < |words|
      ensures words[i].Id != words[j].Id
    {
      StoredWordIdsDiffer(ctx.words, ctx.nextId, words[i], words[j]);
    }
    ghost var all := ctx.songWords + newRows;
    assert SongWordKeysUnique(all) by {
      forall i, j | 0 <= i < j < |all|
        ensures all[i].SongId != all[j].SongId || all[i].Word.Id != all[j].Word.Id
      {
        if i >= |ctx.songWords| {
          assert all[i] == newRows[i - |ctx.songWords|] && all[j] == newRows[j - |ctx.songWords|];
        } else if j >= |ctx.songWords| {
          assert all[j].SongId == song.Id;
        }
      }
    }
    songWords := ctx.AddSongWords(newRows);
  }

  // ---------------------------------------------------------------------
  // The song row
  // ---------------------------------------------------------------------

  /** The song stored under `name`, if any (`Where(x => x.Name == songName).FirstOrDefault()`). */
  function FindSong(songs: seq<Song>, name: string): (r: Option<Song>)
    ensures r.Some? ==> r.value in songs && r.value.Name == name
    ensures r.None? <==> forall k :: 0 <= k < |songs| ==> songs[k].Name != name
  {
    FirstOrDefault(songs, (s: Song) => s.Name == name)
  }

  /**
   * `InsertSong`: refuses a name that is already stored and then changes
   * nothing; otherwise adds exactly one song, whose `WordLength` is the
   * length of the text, under the next identity.
   */
  method InsertSong(ctx: SongsContext, songName: string, path: string, createDate: int, text: string)
    returns (r: Result<Song, Error>)
    requires ctx.Valid()
    modifies ctx
    ensures ctx.Valid()
    ensures r.Failure? <==> old(FindSong(ctx.songs, songName)).Some?
    ensures r.Failure? ==> r.error == SongAlreadyExists && ctx.Db() == old(ctx.Db())
    ensures r.Success? ==>
              && r.value == Song(old(ctx.nextId), songName, path, createDate, |text|)
              && ctx.Db() == old(ctx.Db()).(songs := old(ctx.songs) + [r.value], nextId := old(ctx.nextId) + 1)
  {
    var existingSong := FindSong(ctx.songs, songName);
    if existingSong.None? {
      var song := ctx.AddSong(songName, path, createDate, |text|);
      r := Success(song);
    } else {
      r := Failure(SongAlreadyExists);
    }
  }

  /** Once a song is stored under a name, looking the name up finds it. */
  lemma FindStoredSong(songs: seq<Song>, nextId: nat, song: Song)
    requires SongsValid(songs, nextId) && song in songs
    ensures FindSong(songs, song.Name) == Some(song)
  {
    var found := FindSong(songs, song.Name);
    var i :| 0 <= i < |songs| && songs[i] == song;
    var j :| 0 <= j < |songs| && songs[j] == found.value;
    assert i == j;
  }

  // ---------------------------------------------------------------------
  // Contributors
  // ---------------------------------------------------------------------

  /** The contributor stored under `fullName`, if any. */
  function FindContributor(cs: seq<Contributor>, fullName: string): (r: Option<Contributor>)
    ensures r.Some? ==> r.value in cs && r.value.FullName == fullName
    ensures r.None? <==> forall k :: 0 <= k < |cs| ==> cs[k].FullName != fullName
  {
    FirstOrDefault(cs, (c: Contributor) => c.FullName == fullName)
  }

  /** The role row of contributor `contributorId` for role `typeId`, if stored. */
  function FindRole(ccts: seq<ContributorContributorType>, contributorId: nat, typeId: nat)
    : (r: Option<ContributorContributorType>)
    ensures r.Some? <==> ContributorContributorType(typeId, contributorId) in ccts
    ensures r.Some? ==> r.value == ContributorContributorType(typeId, contributorId)
  {
    FirstOrDefault(ccts, (x: ContributorContributorType) => x.ContributorId == contributorId && x.ContributorTypeId == typeId)
  }

  /** The credit of contributor `contributorId` in role `typeId` on song `songId`, if stored. */
  function FindCredit(scs: seq<SongComposer>, contributorId: nat, typeId: nat, songId: nat): (r: Option<SongComposer>)
    ensures r.Some? <==> SongComposer(contributorId, typeId, songId) in scs
    ensures r.Some? ==> r.value == SongComposer(contributorId, typeId, songId)
  {
    FirstOrDefault(scs, (x: SongComposer) => x.ContributorId == contributorId && x.ContributorTypeId == typeId && x.SongId == songId)
  }

  /**
   * The contributor named `fullName` is stored, holds `role`, and is
   * credited in that role on song `songId`.
   */
  predicate Credited(db: Tables, fullName: string, role: ContributorType, songId: nat)
  {
    match FindContributor(db.contributors, fullName)
    case None => false
    case Some(c) =>
      && ContributorContributorType(role.Id(), c.Id) in db.contributorTypes
      && SongComposer(c.Id, role.Id(), songId) in db.songComposers
  }

  /** With unique full names, a stored contributor is the one its name finds. */
  lemma FindStoredContributor(cs: seq<Contributor>, nextId: nat, c: Contributor)
    requires ContributorsValid(cs, nextId) && c in cs
    ensures FindContributor(cs, c.FullName) == Some(c)
  {
    var found := FindContributor(cs, c.FullName);
    var i :| 0 <= i < |cs| && cs[i] == c;
    var j :| 0 <= j < |cs| && cs[j] == found.value;
    assert i == j;
  }

  /**
   * The tables after crediting `contributor` in `role` on song `songId`:
   * the contributor found by full name, or else the given one under the
   * next identity; its role row and its credit, each appended only when
   * missing.
   */
  function AddCredit(db: Tables, contributor: Contributor, role: ContributorType, songId: nat): (r: Tables)
    // crediting only appends, at most one row to each of its three tables
    ensures db.contributors <= r.contributors && |r.contributors| <= |db.contributors| + 1
    ensures db.contributorTypes <= r.contributorTypes && |r.contributorTypes| <= |db.contributorTypes| + 1
    ensures db.songComposers <= r.songComposers && |r.songComposers| <= |db.songComposers| + 1
    // and touches no other table
    ensures r == db.(contributors := r.contributors, contributorTypes := r.contributorTypes,
                     songComposers := r.songComposers, nextId := r.nextId)
  {
    var found := FindContributor(db.contributors, contributor.FullName);
    var c := CreditedContributor(db, contributor);
    var link := ContributorContributorType(role.Id(), c.Id);
    var credit := SongComposer(c.Id, role.Id(), songId);
    db.(contributors := db.contributors + (if found.Some? then [] else [c]),
        contributorTypes := db.contributorTypes + (if link in db.contributorTypes then [] else [link]),
        songComposers := db.songComposers + (if credit in db.songComposers then [] else [credit]),
        nextId := db.nextId + (if found.Some? then 0 else 1))
  }

  /** The contributor added under a new full name is the one that name finds. */
  lemma FindAppendedContributor(cs: seq<Contributor>, c: Contributor)
    requires forall k :: 0 <= k < |cs| ==> cs[k].FullName != c.FullName
    ensures FindContributor(cs + [c], c.FullName) == Some(c)
  {
    var found := FindContributor(cs + [c], c.FullName);
    assert (cs + [c])[|cs|] == c;
  }

  /** The contributor `AddCredit` credits: the one stored under the full name, or the new row. */
  function CreditedContributor(db: Tables, contributor: Contributor): (r: Contributor)
    ensures r.FullName == contributor.FullName
    // a stored contributor of that full name is reused, never duplicated
    ensures FindContributor(db.contributors, contributor.FullName).Some? ==> r in db.contributors
    // otherwise the given contributor receives the next identity
    ensures FindContributor(db.contributors, contributor.FullName).None? ==> r == contributor.(Id := db.nextId)
  {
    var found := FindContributor(db.contributors, contributor.FullName);
    if found.Some? then found.value else contributor.(Id := db.nextId)
  }

  /** After `AddCredit` the contributor is credited in the role on the song. */
  lemma AddCreditCredits(db: Tables, contributor: Contributor, role: ContributorType, songId: nat)
    ensures Credited(AddCredit(db, contributor, role, songId), contributor.FullName, role, songId)
  {
    var after := AddCredit(db, contributor, role, songId);
    var c := CreditedContributor(db, contributor);
    if FindContributor(db.contributors, contributor.FullName).None? {
      FindAppendedContributor(db.contributors, c);
    } else {
      assert after.contributors == db.contributors;
    }
    assert FindContributor(after.contributors, contributor.FullName) == Some(c);
    var link := ContributorContributorType(role.Id(), c.Id);
    var credit := SongComposer(c.Id, role.Id(), songId);
    if link !in db.contributorTypes {
      assert after.contributorTypes == db.contributorTypes + [link];
    }
    if credit !in db.songComposers {
      assert after.songComposers == db.songComposers + [credit];
    }
  }

  /** Crediting a contributor already credited changes nothing. */
  lemma AddCreditKeepsCredited(db: Tables, contributor: Contributor, role: ContributorType, songId: nat)
    requires Credited(db, contributor.FullName, role, songId)
    ensures AddCredit(db, contributor, role, songId) == db
  {
    assert db.contributors + [] == db.contributors;
    assert db.contributorTypes + [] == db.contributorTypes;
    assert db.songComposers + [] == db.songComposers;
  }

  /** Idempotence: crediting twice is crediting once. */
  lemma AddCreditIdempotent(db: Tables, contributor: Contributor, role: ContributorType, songId: nat)
    ensures var once := AddCredit(db, contributor, role, songId);
            AddCredit(once, contributor, role, songId) == once
  {
    AddCreditCredits(db, contributor, role, songId);
    AddCreditKeepsCredited(AddCredit(db, contributor, role, songId), contributor, role, songId);
  }

  /** Crediting one contributor keeps every credit already given. */
  lemma AddCreditKeepsCredits(db: Tables, contributor: Contributor, role: ContributorType, songId: nat,
                              fullName: string, otherRole: ContributorType, otherSongId: nat)
    requires Credited(db, fullName, otherRole, otherSongId)
    ensures Credited(AddCredit(db, contributor, role, songId), fullName, otherRole, otherSongId)
  {
    var after := AddCredit(db, contributor, role, songId);
    var found := FindContributor(db.contributors, fullName);
    var added := after.contributors[|db.contributors|..];
    assert after.contributors == db.contributors + added;
    FirstOrDefaultAppend(db.contributors, added, (c: Contributor) => c.FullName == fullName);
    assert FindContributor(after.contributors, fullName) == found;
  }

  /**
   * The three credits of a song, in the order and roles the ingestion
   * gives them, all hold afterwards.
   */
  lemma SongCredits(db: Tables, writer: Contributor, performer: Contributor, musicComposer: Contributor, songId: nat)
    ensures var db1 := AddCredit(db, writer, Writer, songId);
            var db2 := AddCredit(db1, performer, MusicComposer, songId);
            var db3 := AddCredit(db2, musicComposer, Performer, songId);
            && Credited(db3, writer.FullName, Writer, songId)
            && Credited(db3, performer.FullName, MusicComposer, songId)
            && Credited(db3, musicComposer.FullName, Performer, songId)
  {
    var db1 := AddCredit(db, writer, Writer, songId);
    var db2 := AddCredit(db1, performer, MusicComposer, songId);
    AddCreditCredits(db, writer, Writer, songId);
    AddCreditCredits(db1, performer, MusicComposer, songId);
    AddCreditCredits(db2, musicComposer, Performer, songId);
    AddCreditKeepsCredits(db1, performer, MusicComposer, songId, writer.FullName, Writer, songId);
    AddCreditKeepsCredits(db2, musicComposer, Performer, songId, writer.FullName, Writer, songId);
    AddCreditKeepsCredits(db2, musicComposer, Performer, songId, performer.FullName, MusicComposer, songId);
  }

  /**
   * `InsertContributorIfMissing`: gets or creates the contributor by full
   * name, then its role row, then its credit on the song; each row is
   * added only when it is missing. Returns the role row.
   */
  method InsertContributorIfMissing(ctx: SongsContext, contributor: Contributor, role: ContributorType, song: Song)
    returns (link: ContributorContributorType)
    requires ctx.Valid() && song.Id in SongIds(ctx.songs)
    modifies ctx
    ensures ctx.Valid()
    ensures ctx.Db() == AddCredit(old(ctx.Db()), contributor, role, song.Id)
    ensures FindContributor(ctx.contributors, contributor.FullName).Some?
    ensures link == ContributorContributorType(role.Id(), FindContributor(ctx.contributors, contributor.FullName).value.Id)
    ensures Credited(ctx.Db(), contributor.FullName, role, song.Id)
    ensures old(Credited(ctx.Db(), contributor.FullName, role, song.Id)) ==> ctx.Db() == old(ctx.Db())
  {
    ghost var db := ctx.Db();
    ghost var after := AddCredit(db, contributor, role, song.Id);
    var existingContributor := FindContributor(ctx.contributors, contributor.FullName);
    var c: Contributor;
    if existingContributor.None? {
      c := ctx.AddContributor(contributor);
      FindAppendedContributor(db.contributors, c);
    } else {
      c := existingContributor.value;
    }
    assert c == CreditedContributor(db, contributor);
    assert ctx.Db() == db.(contributors := after.contributors, nextId := after.nextId);
    assert c in ctx.contributors;
    var existingLink := FindRole(ctx.contributorTypes, c.Id, role.Id());
    link := ContributorContributorType(role.Id(), c.Id);
    if existingLink.None? {
      ctx.AddContributorType(link);
    } else {
      link := existingLink.value;
    }
    assert ctx.Db() == after.(songComposers := db.songComposers);
    var songComposer := SongComposer(c.Id, link.ContributorTypeId, song.Id);
    var existingSongComposer := FindCredit(ctx.songComposers, c.Id, role.Id(), song.Id);
    if existingSongComposer.None? {
      ctx.AddSongComposer(songComposer);
    }
    assert ctx.Db() == after;
    AddCreditCredits(db, contributor, role, song.Id);
    if Credited(db, contributor.FullName, role, song.Id) {
      AddCreditKeepsCredited(db, contributor, role, song.Id);
    }
  }

  // ---------------------------------------------------------------------
  // Word locations
  // ---------------------------------------------------------------------

  /** Two of the song-words share a text: `ToDictionary` by text throws. */
  predicate HasDuplicateTexts(sws: seq<SongWord>)
  {
    exists i, j :: 0 <= i < j < |sws| && sws[i].Word.WordText == sws[j].Word.WordText
  }

  /** No two of the song-words share an identity. */
  predicate UniqueIds(sws: seq<SongWord>)
  {
    forall i, j :: 0 <= i < j < |sws| ==> sws[i].Id != sws[j].Id
  }

  /** The dictionary lookup `wordToSongWord[t]`: the song-word of the text `t`. */
  function SongWordFor(sws: seq<SongWord>, t: string): (r: Option<SongWord>)
    ensures r.Some? ==> r.value in sws && r.value.Word.WordText == t
    ensures r.None? <==> forall k :: 0 <= k < |sws| ==> sws[k].Word.WordText != t
  {
    FirstOrDefault(sws, (sw: SongWord) => sw.Word.WordText == t)
  }

  /** Every token has a song-word. */
  predicate AllFound(tokens: seq<string>, sws: seq<SongWord>)
  {
    forall k :: 0 <= k < |tokens| ==> SongWordFor(sws, tokens[k]).Some?
  }

  /**
   * The location rows of the tokens: row i points at the song-word of
   * token i, at the total length of the tokens before it.
   */
  function LocationRows(tokens: seq<string>, sws: seq<SongWord>): (r: seq<WordLocation>)
    requires AllFound(tokens, sws)
    ensures |r| == |tokens|
    // each row points at one of the given song-words: the one of its token's text
    ensures forall i :: 0 <= i < |r| ==> r[i].SongWordId in SongWordIds(sws)
    ensures forall i :: 0 <= i < |r| ==> r[i].SongWordId == SongWordFor(sws, tokens[i]).value.Id
  {
    assert forall i :: 0 <= i < |tokens| ==> SongWordFor(sws, tokens[i]).value in sws;
    seq(|tokens|, i requires 0 <= i < |tokens| && AllFound(tokens, sws) =>
          WordLocation(SumLengths(tokens[..i]), SongWordFor(sws, tokens[i]).value.Id))
  }

  /** The number of locations pointing at the song-word `id`. */
  function CountRefs(locs: seq<WordLocation>, id: nat): (r: nat)
    ensures r <= |locs|
    // no location counts when none points at `id`, and some does when one does
    ensures r == 0 <==> forall k :: 0 <= k < |locs| ==> locs[k].SongWordId != id
  {
    if locs == [] then 0
    else CountRefs(locs[..|locs| - 1], id) + (if locs[|locs| - 1].SongWordId == id then 1 else 0)
  }

  /**
   * `InsertWordLocations`: indexes the song-words by text, walks the
   * tokens with a running offset (spaces are not counted) and stores one
   * location per token. Two song-words with one text, a token without a
   * song-word, or rows the store refuses are errors that change nothing.
   */
  method InsertWordLocations(ctx: SongsContext, input: string, songWords: seq<SongWord>)
    returns (r: Result<seq<WordLocation>, Error>)
    requires ctx.Valid()
    modifies ctx
    ensures ctx.Valid()
    ensures r == Failure(DuplicateKey) <==> HasDuplicateTexts(songWords)
    ensures r == Failure(KeyNotFound) <==> !HasDuplicateTexts(songWords) && !AllFound(Tokens(input), songWords)
    ensures r == Failure(StoreRefused) <==>
              && !HasDuplicateTexts(songWords) && AllFound(Tokens(input), songWords)
              && !LocationsValid(old(ctx.locations) + LocationRows(Tokens(input), songWords), SongWordIds(old(ctx.songWords)))
    ensures r.Failure? ==> ctx.Db() == old(ctx.Db())
    ensures r.Success? ==>
              && AllFound(Tokens(input), songWords)
              && r.value == LocationRows(Tokens(input), songWords)
              && ctx.Db() == old(ctx.Db()).(locations := old(ctx.locations) + r.value)
  {
    if HasDuplicateTexts(songWords) {
      r := Failure(DuplicateKey);
      return;
    }
    var wordLocations := LocateWords(Tokens(input), songWords);
    if wordLocations.None? {
      r := Failure(KeyNotFound);
      return;
    }
    var ok := ctx.AddWordLocations(wordLocations.value);
    if !ok {
      r := Failure(StoreRefused);
      return;
    }
    r := Success(wordLocations.value);
  }

  /**
   * The loop of `InsertWordLocations`: walks the tokens with a running
   * offset and looks each one up among the song-words. A token without a
   * song-word (the dictionary lookup throws) gives None; otherwise the rows
   * are the `LocationRows` of the tokens.
   */
  method LocateWords(words: seq<string>, songWords: seq<SongWord>) returns (r: Option<seq<WordLocation>>)
    ensures r.None? <==> !AllFound(words, songWords)
    ensures r.Some? ==> AllFound(words, songWords) && r.value == LocationRows(words, songWords)
  {
    var wordLocations: seq<WordLocation> := [];
    var offset := 0;
    for i := 0 to |words|
      invariant offset == SumLengths(words[..i])
      invariant forall k :: 0 <= k < i ==> SongWordFor(songWords, words[k]).Some?
      invariant |wordLocations| == i
      invariant forall k :: 0 <= k < i ==>
                  wordLocations[k] == WordLocation(SumLengths(words[..k]), SongWordFor(songWords, words[k]).value.Id)
    {
      var songWord := SongWordFor(songWords, words[i]);
      if songWord.None? {
        return None;
      }
      PrefixSumStep(words, i);
      wordLocations := wordLocations + [WordLocation(offset, songWord.value.Id)];
      offset := offset + |words[i]|;
    }
    assert wordLocations == LocationRows(words, songWords);
    return Some(wordLocations);
  }

  /**
   * Location layout: one row per token, in order; the first at 0, each
   * next one where the previous token ends, so offsets strictly increase;
   * every token ends within the text.
   */
  lemma LocationLayout(text: string, sws: seq<SongWord>)
    requires AllFound(Tokens(text), sws)
    ensures var ts := Tokens(text);
            var rows := LocationRows(ts, sws);
            && |rows| == |ts|
            && (|rows| > 0 ==> rows[0].Offset == 0)
            && (forall i :: 0 <= i < |rows| ==> rows[i].Offset + |ts[i]| <= |text|)
            && (forall i :: 0 < i < |rows| ==> rows[i].Offset == rows[i - 1].Offset + |ts[i - 1]|)
            && (forall i, j :: 0 <= i < j < |rows| ==> rows[i].Offset < rows[j].Offset)
            && (forall i :: 0 <= i < |rows| ==> rows[i].SongWordId == SongWordFor(sws, ts[i]).value.Id)
  {
    RunningOffsets(text, " ");
  }

  /** With one song-word per text, the token of a song-word's text finds it. */
  lemma SongWordOfItsText(sws: seq<SongWord>, sw: SongWord)
    requires !HasDuplicateTexts(sws) && sw in sws
    ensures SongWordFor(sws, sw.Word.WordText) == Some(sw)
  {
    var found := SongWordFor(sws, sw.Word.WordText).value;
    var i :| 0 <= i < |sws| && sws[i] == sw;
    var j :| 0 <= j < |sws| && sws[j] == found;
    assert i == j;
  }

  /** With unique identities, a token of another text points elsewhere. */
  lemma OtherTextOtherId(sws: seq<SongWord>, sw: SongWord, t: string)
    requires UniqueIds(sws) && sw in sws && t != sw.Word.WordText
    requires SongWordFor(sws, t).Some?
    ensures SongWordFor(sws, t).value.Id != sw.Id
  {
    var found := SongWordFor(sws, t).value;
    var i :| 0 <= i < |sws| && sws[i] == sw;
    var j :| 0 <= j < |sws| && sws[j] == found;
    assert i != j;
  }

  /**
   * When row i points at `id` exactly when token i is `key`, the first n
   * rows point at `id` as often as `key` occurs among the first n tokens.
   */
  lemma {:induction false} LocationCountPrefix(rows: seq<WordLocation>, tokens: seq<string>, id: nat, key: string,
                                               n: nat)
    requires |rows| == |tokens| && n <= |tokens|
    requires forall i :: 0 <= i < |rows| ==> (rows[i].SongWordId == id <==> tokens[i] == key)
    ensures CountRefs(rows[..n], id) == multiset(tokens[..n])[key]
  {
    if n > 0 {
      LocationCountPrefix(rows, tokens, id, key, n - 1);
      CountRefsStep(rows, n, id);
      assert tokens[..n] == tokens[..n - 1] + [tokens[n - 1]];
    }
  }

  /** Counting the first n rows adds the n-th row to the count of the first n - 1. */
  lemma CountRefsStep(rows: seq<WordLocation>, n: nat, id: nat)
    requires 0 < n <= |rows|
    ensures CountRefs(rows[..n], id) == CountRefs(rows[..n - 1], id) + (if rows[n - 1].SongWordId == id then 1 else 0)
  {
    assert rows[..n][..n - 1] == rows[..n - 1];
  }

  /**
   * Locations per song-word: a song-word is pointed at by as many
   * locations as its text has occurrences among the tokens.
   */
  lemma LocationsPerSongWord(tokens: seq<string>, sws: seq<SongWord>, sw: SongWord)
    requires AllFound(tokens, sws) && UniqueIds(sws) && !HasDuplicateTexts(sws) && sw in sws
    ensures CountRefs(LocationRows(tokens, sws), sw.Id) == multiset(tokens)[sw.Word.WordText]
  {
    var rows := LocationRows(tokens, sws);
    forall i | 0 <= i < |rows|
      ensures rows[i].SongWordId == sw.Id <==> tokens[i] == sw.Word.WordText
    {
      assert rows[i].SongWordId == SongWordFor(sws, tokens[i]).value.Id;
      if tokens[i] == sw.Word.WordText {
        SongWordOfItsText(sws, sw);
      } else {
        OtherTextOtherId(sws, sw, tokens[i]);
      }
    }
    LocationCountPrefix(rows, tokens, sw.Id, sw.Word.WordText, |tokens|);
    assert rows[..|tokens|] == rows;
    assert tokens[..|tokens|] == tokens;
  }

  /**
   * A song-word whose count came from the word index of the same text is
   * pointed at by exactly `NumberOfOccurrences` locations.
   */
  lemma LocationsMatchOccurrences(text: string, sws: seq<SongWord>, sw: SongWord)
    requires AllFound(Tokens(text), sws) && UniqueIds(sws) && !HasDuplicateTexts(sws) && sw in sws
    requires sw.Word.WordText in WordIndex(Tokens(text))
    requires sw.NumberOfOccurrences == WordIndex(Tokens(text))[sw.Word.WordText]
    ensures CountRefs(LocationRows(Tokens(text), sws), sw.Id) == sw.NumberOfOccurrences
  {
    LocationsPerSongWord(Tokens(text), sws, sw);
  }

  /**
   * The store accepts the locations of song-words it holds as long as
   * none of them has locations yet: a first call never fails on the store.
   */
  lemma FirstLocationsAccepted(stored: seq<WordLocation>, storedIds: set<nat>, tokens: seq<string>, sws: seq<SongWord>)
    requires LocationsValid(stored, storedIds)
    requires AllFound(tokens, sws) && forall k :: 0 <= k < |sws| ==> sws[k].Id in storedIds
    requires forall k, l :: 0 <= k < |stored| && 0 <= l < |sws| ==> stored[k].SongWordId != sws[l].Id
    requires forall k :: 0 <= k < |tokens| ==> tokens[k] != ""
    ensures LocationsValid(stored + LocationRows(tokens, sws), storedIds)
  {
    var rows := LocationRows(tokens, sws);
    var all := stored + rows;
    forall i | 0 <= i < |rows|
      ensures rows[i].SongWordId in storedIds && forall k :: 0 <= k < |stored| ==> stored[k].SongWordId != rows[i].SongWordId
    {
      var sw := SongWordFor(sws, tokens[i]).value;
      var l :| 0 <= l < |sws| && sws[l] == sw;
    }
    forall i, j | 0 <= i < j < |rows|
      ensures rows[i].Offset < rows[j].Offset
    {
      OffsetsIncrease(tokens, i, j);
    }
    forall i, j | 0 <= i < j < |all|
      ensures all[i].SongWordId != all[j].SongWordId || all[i].Offset != all[j].Offset
    {
      if i >= |stored| {
        assert all[i] == rows[i - |stored|] && all[j] == rows[j - |stored|];
      } else if j >= |stored| {
        assert all[j] == rows[j - |stored|];
      }
    }
  }

  // ---------------------------------------------------------------------
  // The whole ingestion
  // ---------------------------------------------------------------------

  /**
   * The song-word links of a song's text: one per distinct token, each
   * carrying the number of occurrences of its token.
   */
  predicate LinksOfText(links: seq<SongWord>, songId: nat, text: string)
  {
    && (forall k :: 0 <= k < |links| ==>
          links[k].SongId == songId
          && links[k].NumberOfOccurrences == multiset(Tokens(text))[links[k].Word.WordText]
          && links[k].Word.WordText in Tokens(text))
    && (forall t :: t in Tokens(text) ==> exists k :: 0 <= k < |links| && links[k].Word.WordText == t)
    && (forall i, j :: 0 <= i < j < |links| ==> links[i].Word.WordText != links[j].Word.WordText)
  }

  /** The links built from the words of a text are the links of that text. */
  lemma LinksFromWords(links: seq<SongWord>, words: seq<Word>, songId: nat, text: string)
    requires |links| == |words| && UniqueTexts(words)
    requires forall t :: t in TextsOf(words) <==> t in Tokens(text)
    requires forall k :: 0 <= k < |words| ==> words[k].WordText in WordIndex(Tokens(text))
    requires forall k :: 0 <= k < |words| ==>
               links[k].Word == words[k] && links[k].SongId == songId
               && links[k].NumberOfOccurrences == WordIndex(Tokens(text))[words[k].WordText]
    ensures LinksOfText(links, songId, text)
  {
    forall k | 0 <= k < |links|
      ensures links[k].Word.WordText in Tokens(text)
    {
      assert TextsOf(words)[k] == words[k].WordText;
    }
    forall t | t in Tokens(text)
      ensures exists k :: 0 <= k < |links| && links[k].Word.WordText == t
    {
      var k :| 0 <= k < |words| && TextsOf(words)[k] == t;
      assert links[k].Word.WordText == t;
    }
  }

  /** The identity about to be issued is not referred to by any row. */
  lemma NextIdUnused(ctx: SongsContext)
    requires ctx.Valid()
    ensures forall k :: 0 <= k < |ctx.stanzas| ==> ctx.stanzas[k].SongId != ctx.nextId
    ensures forall k :: 0 <= k < |ctx.lines| ==> ctx.lines[k].SongId != ctx.nextId
    ensures forall k :: 0 <= k < |ctx.songWords| ==> ctx.songWords[k].SongId != ctx.nextId
  {
    assert forall id :: id in SongIds(ctx.songs) ==> id < ctx.nextId by {
      forall id | id in SongIds(ctx.songs)
        ensures id < ctx.nextId
      {
        var s :| s in ctx.songs && s.Id == id;
        var i :| 0 <= i < |ctx.songs| && ctx.songs[i] == s;
      }
    }
  }

  /**
   * What ingesting a song's text adds to the tables, credits aside: the
   * song under the next identity, its stanza and line rows, a stored word
   * for every token, one link per distinct token with its count, and no
   * word location.
   */
  predicate SongStored(before: Tables, after: Tables, song: Song, songName: string, path: string,
                       createDate: int, text: string, newLine: string)
  {
    && song == Song(before.nextId, songName, path, createDate, |text|)
    && after.songs == before.songs + [song]
    && after.stanzas == before.stanzas + StanzaRows(song.Id, Split(text, newLine + newLine))
    && after.lines == before.lines + LineRows(song.Id, Split(text, newLine))
    && before.words <= after.words
    && (forall t :: t in Tokens(text) ==> t in StoredTexts(after.words))
    && before.songWords <= after.songWords
    && LinksOfText(after.songWords[|before.songWords|..], song.Id, text)
    && after.locations == before.locations
  }

  /** Crediting contributors leaves what `SongStored` speaks of alone. */
  lemma SongStoredKept(before: Tables, mid: Tables, after: Tables, song: Song, songName: string, path: string,
                       createDate: int, text: string, newLine: string)
    requires SongStored(before, mid, song, songName, path, createDate, text, newLine)
    requires after == mid.(contributors := after.contributors, contributorTypes := after.contributorTypes,
                           songComposers := after.songComposers, nextId := after.nextId)
    ensures SongStored(before, after, song, songName, path, createDate, text, newLine)
  {
  }

  /** The words returned for a text are stored, and their texts are keys of its word index. */
  lemma WordsOfTextStored(words: seq<Word>, stored: seq<Word>, wordIndex: map<string, nat>, text: string)
    requires AllStored(words, stored) && wordIndex == WordIndex(Tokens(text))
    requires forall t :: t in TextsOf(words) <==> t in Tokens(text)
    ensures forall k :: 0 <= k < |words| ==> words[k] in stored && words[k].WordText in wordIndex
    ensures forall t :: t in Tokens(text) ==> t in StoredTexts(stored)
  {
    forall k | 0 <= k < |words|
      ensures words[k] in stored && words[k].WordText in wordIndex
    {
      assert TextsOf(words)[k] == words[k].WordText;
    }
    forall t | t in Tokens(text)
      ensures t in StoredTexts(stored)
    {
      var k :| 0 <= k < |words| && TextsOf(words)[k] == t;
      assert words[k] in stored;
    }
  }

  /** The content steps of `ProcessSong`, one table at a time, add up to `SongStored`. */
  lemma SongStoredSteps(db0: Tables, db1: Tables, db2: Tables, db3: Tables, song: Song, songName: string,
                        path: string, createDate: int, text: string, newLine: string, links: seq<SongWord>)
    requires song == Song(db0.nextId, songName, path, createDate, |text|)
    requires db1 == db0.(songs := db0.songs + [song], nextId := db0.nextId + 1,
                         stanzas := db0.stanzas + StanzaRows(song.Id, Split(text, newLine + newLine)),
                         lines := db0.lines + LineRows(song.Id, Split(text, newLine)))
    requires db2 == db1.(words := db2.words, nextId := db2.nextId) && db1.words <= db2.words
    requires forall t :: t in Tokens(text) ==> t in StoredTexts(db2.words)
    requires db3 == db2.(songWords := db2.songWords + links, nextId := db3.nextId)
    requires LinksOfText(links, song.Id, text)
    ensures SongStored(db0, db3, song, songName, path, createDate, text, newLine)
  {
    assert db3.songWords[|db0.songWords|..] == links;
  }

  /**
   * The words a text adds to the store: its distinct tokens that are not
   * stored yet, in token order, with identities from `firstId` and their
   * lengths.
   */
  function NewWords(stored: seq<Word>, text: string, firstId: nat): (r: seq<Word>)
    ensures forall k :: 0 <= k < |r| ==>
              && r[k].Id == firstId + k
              && r[k].Length == |r[k].WordText|
              && r[k].WordText in Tokens(text)
              && r[k].WordText !in StoredTexts(stored)
  {
    var missing := Absent(Distinct(Tokens(text)), StoredTexts(stored));
    AbsentMembers(Distinct(Tokens(text)), StoredTexts(stored));
    seq(|missing|, k requires 0 <= k < |missing| => Word(firstId + k, missing[k], |missing[k]|))
  }

  /**
   * The links of a song to `words`, in order, with identities from
   * `firstId`; each carries the number of occurrences of its word among the
   * tokens of the text.
   */
  function LinkRows(words: seq<Word>, songId: nat, text: string, firstId: nat): (r: seq<SongWord>)
    // a word of the text is counted at least once, any other word never
    ensures forall k :: 0 <= k < |r| ==> (r[k].NumberOfOccurrences > 0 <==> r[k].Word.WordText in Tokens(text))
  {
    seq(|words|, k requires 0 <= k < |words| =>
          SongWord(firstId + k, words[k], songId, multiset(Tokens(text))[words[k].WordText]))
  }

  /**
   * The tables after the five content steps of an ingestion, credits
   * aside: the song under the next identity, its stanzas and lines, the new
   * words, and the links to the found words followed by the new ones.
   */
  function SongContent(db: Tables, songName: string, path: string, createDate: int, text: string,
                       newLine: string): Tables
  {
    var song := Song(db.nextId, songName, path, createDate, |text|);
    var db1 := SongRowsAdded(db, song, text, newLine);
    LinksAdded(WordsAdded(db1, text), song, FoundAndNew(db1.words, text, db1.nextId), text)
  }

  /** The song, its stanzas and its lines appended; the counter moves past the song. */
  function SongRowsAdded(db: Tables, song: Song, text: string, newLine: string): Tables
  {
    db.(songs := db.songs + [song], nextId := db.nextId + 1,
        stanzas := db.stanzas + StanzaRows(song.Id, Split(text, newLine + newLine)),
        lines := db.lines + LineRows(song.Id, Split(text, newLine)))
  }

  /** The new words of the text appended; the counter moves past them. */
  function WordsAdded(db: Tables, text: string): Tables
  {
    var added := NewWords(db.words, text, db.nextId);
    db.(words := db.words + added, nextId := db.nextId + |added|)
  }

  /** The words a text links to: the stored ones found, then the new ones. */
  function FoundAndNew(stored: seq<Word>, text: string, firstId: nat): seq<Word>
  {
    ExistingWords(stored, Distinct(Tokens(text))) + NewWords(stored, text, firstId)
  }

  /** One link per word appended; the counter moves past them. */
  function LinksAdded(db: Tables, song: Song, words: seq<Word>, text: string): Tables
  {
    db.(songWords := db.songWords + LinkRows(words, song.Id, text, db.nextId), nextId := db.nextId + |words|)
  }

  /**
   * The tables after a whole ingestion: the content, then the three
   * credits in the order and roles `ProcessSong` gives them.
   */
  function Ingested(db: Tables, songName: string, path: string, createDate: int, text: string, newLine: string,
                    writer: Contributor, performer: Contributor, musicComposer: Contributor): (r: Tables)
    ensures Credited(r, writer.FullName, Writer, db.nextId)
    ensures Credited(r, performer.FullName, MusicComposer, db.nextId)
    ensures Credited(r, musicComposer.FullName, Performer, db.nextId)
  {
    SongCredits(SongContent(db, songName, path, createDate, text, newLine), writer, performer, musicComposer, db.nextId);
    var content := SongContent(db, songName, path, createDate, text, newLine);
    AddCredit(AddCredit(AddCredit(content, writer, Writer, db.nextId), performer, MusicComposer, db.nextId),
              musicComposer, Performer, db.nextId)
  }

  /** The words added by `InsertWordsIfMissing` are the `NewWords` of the text. */
  lemma AddedAreNewWords(stored: seq<Word>, text: string, firstId: nat, added: seq<Word>)
    requires TextsOf(added) == Absent(Distinct(Tokens(text)), StoredTexts(stored))
    requires forall k :: 0 <= k < |added| ==>
               added[k] == Word(firstId + k, added[k].WordText, |added[k].WordText|)
    ensures added == NewWords(stored, text, firstId)
  {
    var missing := Absent(Distinct(Tokens(text)), StoredTexts(stored));
    var expected := NewWords(stored, text, firstId);
    assert |added| == |TextsOf(added)| == |missing| == |expected|;
    forall k | 0 <= k < |added|
      ensures added[k] == expected[k]
    {
      assert TextsOf(added)[k] == added[k].WordText;
    }
  }

  /** The links made by `InsertSongWords` from the word index are the `LinkRows` of the text. */
  lemma LinksAreLinkRows(words: seq<Word>, songId: nat, text: string, firstId: nat, links: seq<SongWord>)
    requires forall k :: 0 <= k < |words| ==> words[k].WordText in WordIndex(Tokens(text))
    requires |links| == |words|
    requires forall k :: 0 <= k < |words| ==>
               links[k] == SongWord(firstId + k, words[k], songId, WordIndex(Tokens(text))[words[k].WordText])
    ensures links == LinkRows(words, songId, text, firstId)
  {
  }

  /** The content steps, one table at a time, give `SongContent`. */
  lemma SongContentSteps(db0: Tables, db1: Tables, db2: Tables, db3: Tables, song: Song, songName: string,
                         path: string, createDate: int, text: string, newLine: string,
                         added: seq<Word>, words: seq<Word>)
    requires song == Song(db0.nextId, songName, path, createDate, |text|)
    requires db1 == db0.(songs := db0.songs + [song], nextId := db0.nextId + 1,
                         stanzas := db0.stanzas + StanzaRows(song.Id, Split(text, newLine + newLine)),
                         lines := db0.lines + LineRows(song.Id, Split(text, newLine)))
    requires added == NewWords(db1.words, text, db1.nextId)
    requires words == ExistingWords(db1.words, Distinct(Tokens(text))) + added
    requires db2 == db1.(words := db1.words + added, nextId := db1.nextId + |added|)
    requires db3 == db2.(songWords := db2.songWords + LinkRows(words, song.Id, text, db2.nextId),
                         nextId := db2.nextId + |words|)
    ensures db3 == SongContent(db0, songName, path, createDate, text, newLine)
  {
    SongRowsStep(db0, db1, song, text, newLine);
    WordsStep(db1, db2, text, added, words);
    LinksStep(db2, db3, song, text, words);
  }

  /** The first three content steps are `SongRowsAdded`. */
  lemma SongRowsStep(db0: Tables, db1: Tables, song: Song, text: string, newLine: string)
    requires db1 == db0.(songs := db0.songs + [song], nextId := db0.nextId + 1,
                         stanzas := db0.stanzas + StanzaRows(song.Id, Split(text, newLine + newLine)),
                         lines := db0.lines + LineRows(song.Id, Split(text, newLine)))
    ensures db1 == SongRowsAdded(db0, song, text, newLine)
  {
  }

  /** The fourth content step is `WordsAdded`, and its answer is `FoundAndNew`. */
  lemma WordsStep(db1: Tables, db2: Tables, text: string, added: seq<Word>, words: seq<Word>)
    requires added == NewWords(db1.words, text, db1.nextId)
    requires words == ExistingWords(db1.words, Distinct(Tokens(text))) + added
    requires db2 == db1.(words := db1.words + added, nextId := db1.nextId + |added|)
    ensures db2 == WordsAdded(db1, text)
    ensures words == FoundAndNew(db1.words, text, db1.nextId)
  {
  }

  /** The fifth content step is `LinksAdded`. */
  lemma LinksStep(db2: Tables, db3: Tables, song: Song, text: string, words: seq<Word>)
    requires db3 == db2.(songWords := db2.songWords + LinkRows(words, song.Id, text, db2.nextId),
                         nextId := db2.nextId + |words|)
    ensures db3 == LinksAdded(db2, song, words, text)
  {
  }

  /**
   * `SongContent` appends one song under the next identity and only appends
   * words and links; the counter moves past the song, the new words and the
   * new links; contributors, roles, credits and word locations are untouched.
   */
  lemma SongContentFrame(db: Tables, songName: string, path: string, createDate: int, text: string,
                         newLine: string)
    ensures var r := SongContent(db, songName, path, createDate, text, newLine);
            && r.songs == db.songs + [Song(db.nextId, songName, path, createDate, |text|)]
            && db.words <= r.words && db.songWords <= r.songWords
            && r.nextId == db.nextId + 1 + (|r.words| - |db.words|) + (|r.songWords| - |db.songWords|)
            && r.contributors == db.contributors && r.contributorTypes == db.contributorTypes
            && r.songComposers == db.songComposers && r.locations == db.locations
  {
  }

  /**
   * The content of an ingestion stores what `SongStored` asks for: the
   * song, its stanzas and lines, every token as a stored word, one link per
   * distinct token with its count, and no word location.
   */
  lemma SongContentStored(db: Tables, songName: string, path: string, createDate: int, text: string,
                          newLine: string)
    requires WordsValid(db.words, db.nextId)
    ensures SongStored(db, SongContent(db, songName, path, createDate, text, newLine),
                       Song(db.nextId, songName, path, createDate, |text|), songName, path, createDate, text, newLine)
  {
    var added := NewWords(db.words, text, db.nextId + 1);
    var words := ExistingWords(db.words, Distinct(Tokens(text))) + added;
    var links := LinkRows(words, db.nextId, text, db.nextId + 1 + |added|);
    assert && (forall t :: t in Tokens(text) ==> t in StoredTexts(db.words + added))
           && LinksOfText(links, db.nextId, text) by {
      WordsOfNewWords(db.words, text, db.nextId, added, words, links);
    }
    ContentStoresSong(db, songName, path, createDate, text, newLine, added, words, links);
  }

  /** `SongContent` is `SongStored` once its words and links are known to cover the text. */
  lemma ContentStoresSong(db: Tables, songName: string, path: string, createDate: int, text: string,
                          newLine: string, added: seq<Word>, words: seq<Word>, links: seq<SongWord>)
    requires added == NewWords(db.words, text, db.nextId + 1)
    requires words == ExistingWords(db.words, Distinct(Tokens(text))) + added
    requires links == LinkRows(words, db.nextId, text, db.nextId + 1 + |added|)
    requires forall t :: t in Tokens(text) ==> t in StoredTexts(db.words + added)
    requires LinksOfText(links, db.nextId, text)
    ensures SongStored(db, SongContent(db, songName, path, createDate, text, newLine),
                       Song(db.nextId, songName, path, createDate, |text|), songName, path, createDate, text, newLine)
  {
    var song := Song(db.nextId, songName, path, createDate, |text|);
    var db1 := db.(songs := db.songs + [song], nextId := db.nextId + 1,
                   stanzas := db.stanzas + StanzaRows(song.Id, Split(text, newLine + newLine)),
                   lines := db.lines + LineRows(song.Id, Split(text, newLine)));
    var db2 := db1.(words := db1.words + added, nextId := db1.nextId + |added|);
    var db3 := db2.(songWords := db2.songWords + links, nextId := db2.nextId + |words|);
    SongContentSteps(db, db1, db2, db3, song, songName, path, createDate, text, newLine, added, words);
    SongStoredSteps(db, db1, db2, db3, song, songName, path, createDate, text, newLine, links);
  }

  /** The words and links `SongContent` adds cover the tokens of the text, once each. */
  lemma WordsOfNewWords(stored: seq<Word>, text: string, songId: nat, added: seq<Word>, words: seq<Word>,
                        links: seq<SongWord>)
    requires WordsValid(stored, songId)
    requires added == NewWords(stored, text, songId + 1)
    requires words == ExistingWords(stored, Distinct(Tokens(text))) + added
    requires links == LinkRows(words, songId, text, songId + 1 + |added|)
    ensures forall t :: t in Tokens(text) ==> t in StoredTexts(stored + added)
    ensures LinksOfText(links, songId, text)
  {
    var d := Distinct(Tokens(text));
    var missing := Absent(d, StoredTexts(stored));
    assert TextsOf(added) == missing by {
      assert |added| == |missing|;
      forall k | 0 <= k < |added|
        ensures TextsOf(added)[k] == missing[k]
      {
      }
    }
    SelectedWordsSound(stored, d, added);
    SelectedWordsCover(stored, d, added);
    SelectedWordsUnique(stored, songId, d, added);
    SelectedWordsStored(stored, d, added);
    WordsOfTextStored(words, stored + added, WordIndex(Tokens(text)), text);
    LinksFromWords(links, words, songId, text);
  }

  /**
   * `ProcessSong`: all or nothing. A song name already stored is refused
   * and the store is left as it was. Otherwise the song is added with its
   * stanzas and lines, the words of its text are got or created and linked
   * to it with their counts, no word locations are stored, and the three
   * contributors are credited: `writer` as Writer, `performer` as
   * MusicComposer and `musicComposer` as Performer. The new store is
   * exactly `Ingested` of the old one. A second call with the same name is
   * refused.
   */
  method ProcessSong(ctx: SongsContext, songName: string, path: string, text: string, createDate: int,
                     newLine: string, writer: Contributor, performer: Contributor, musicComposer: Contributor)
    returns (r: Result<Song, Error>)
    requires ctx.Valid()
    modifies ctx
    ensures ctx.Valid()
    ensures r.Failure? <==> old(FindSong(ctx.songs, songName)).Some?
    ensures r.Failure? ==> r.error == SongAlreadyExists && ctx.Db() == old(ctx.Db())
    ensures r.Success? ==>
              && ctx.Db() == Ingested(old(ctx.Db()), songName, path, createDate, text, newLine,
                                      writer, performer, musicComposer)
              && SongStored(old(ctx.Db()), ctx.Db(), r.value, songName, path, createDate, text, newLine)
              && FindSong(ctx.songs, songName) == Some(r.value)
              && Credited(ctx.Db(), writer.FullName, Writer, r.value.Id)
              && Credited(ctx.Db(), performer.FullName, MusicComposer, r.value.Id)
              && Credited(ctx.Db(), musicComposer.FullName, Performer, r.value.Id)
  {
    ghost var db0 := ctx.Db();
    NextIdUnused(ctx);
    var inserted := InsertSong(ctx, songName, path, createDate, text);
    if inserted.Failure? {
      r := Failure(inserted.error);
      return;
    }
    var song := inserted.value;
    assert song in ctx.songs;
    var songStanzas := InsertSongStanzas(ctx, text, song, newLine);
    var songLines := InsertSongLines(ctx, text, song, newLine);
    ghost var db1 := ctx.Db();
    assert db1 == db0.(songs := db0.songs + [song], nextId := db0.nextId + 1,
                       stanzas := db0.stanzas + songStanzas, lines := db0.lines + songLines);
    var wordIndex, words := InsertWordsIfMissing(ctx, text);
    ghost var db2 := ctx.Db();
    ghost var added := NewWords(db1.words, text, db1.nextId);
    WordsOfTextStored(words, ctx.words, wordIndex, text);
    var songWords := InsertSongWords(ctx, words, song, wordIndex);
    LinksFromWords(songWords, words, song.Id, text);
    ghost var db3 := ctx.Db();
    SongStoredSteps(db0, db1, db2, db3, song, songName, path, createDate, text, newLine, songWords);
    LinksAreLinkRows(words, song.Id, text, db2.nextId, songWords);
    SongContentSteps(db0, db1, db2, db3, song, songName, path, createDate, text, newLine, added, words);

    var writerContributorContributorType := InsertContributorIfMissing(ctx, writer, Writer, song);
    var musicComposerContributorContributorType := InsertContributorIfMissing(ctx, performer, MusicComposer, song);
    var performerContributorContributorType := InsertContributorIfMissing(ctx, musicComposer, Performer, song);
    SongCredits(db3, writer, performer, musicComposer, song.Id);
    SongStoredKept(db0, db3, ctx.Db(), song, songName, path, createDate, text, newLine);
    FindStoredSong(ctx.songs, ctx.nextId, song);
    r := Success(song);
  }
}
