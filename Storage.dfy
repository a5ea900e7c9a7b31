/**
 * An in-memory stand-in for the song database (`SongsContext`): one
 * sequence of rows per table and one identity counter. Its object invariant
 * is the set of unique indexes the database declares (Model/SongsContext.cs,
 * `OnModelCreating`) together with the foreign keys between the tables.
 */
module Storage {
  import opened Wrappers
  import opened Entities

  // ---------------------------------------------------------------------
  // Lookups (`Where(...).FirstOrDefaultAsync()`)
  // ---------------------------------------------------------------------

  /** The first element satisfying `p`, or None when there is none. */
  function FirstOrDefault<T>(s: seq<T>, p: T -> bool): (r: Option<T>)
    ensures r.Some? ==> r.value in s && p(r.value)
    ensures r.None? ==> forall k :: 0 <= k < |s| ==> !p(s[k])
  {
    if s == [] then None
    else if p(s[0]) then Some(s[0])
    else FirstOrDefault(s[1..], p)
  }

  /** Appending never changes what an earlier match finds. */
  lemma {:induction false} FirstOrDefaultAppend<T>(s: seq<T>, t: seq<T>, p: T -> bool)
    requires FirstOrDefault(s, p).Some?
    ensures FirstOrDefault(s + t, p) == FirstOrDefault(s, p)
  {
    assert s != [];
    assert (s + t)[0] == s[0];
    if !p(s[0]) {
      assert (s + t)[1..] == s[1..] + t;
      FirstOrDefaultAppend(s[1..], t, p);
    }
  }

  function SongIds(songs: seq<Song>): set<nat> { set s | s in songs :: s.Id }
  function ContributorIds(cs: seq<Contributor>): set<nat> { set c | c in cs :: c.Id }
  function SongWordIds(sws: seq<SongWord>): set<nat> { set sw | sw in sws :: sw.Id }

  // ---------------------------------------------------------------------
  // Table invariants: identity keys, unique indexes, foreign keys
  // ---------------------------------------------------------------------

  /** Ids are issued below `nextId` and unique; `Song.Name` is a unique index. */
  predicate SongsValid(songs: seq<Song>, nextId: nat)
  {
    && (forall i :: 0 <= i < |songs| ==> 0 < songs[i].Id < nextId)
    && (forall i, j :: 0 <= i < j < |songs| ==> songs[i].Id != songs[j].Id && songs[i].Name != songs[j].Name)
  }

  /** Ids are issued and unique; `Word.WordText` is a unique index; the length is the text's. */
  predicate WordsValid(words: seq<Word>, nextId: nat)
  {
    && (forall i :: 0 <= i < |words| ==> 0 < words[i].Id < nextId && words[i].Length == |words[i].WordText|)
    && (forall i, j :: 0 <= i < j < |words| ==> words[i].Id != words[j].Id && words[i].WordText != words[j].WordText)
  }

  /** Ids are issued and unique; `Contributor.FullName` is a unique index. */
  predicate ContributorsValid(cs: seq<Contributor>, nextId: nat)
  {
    && (forall i :: 0 <= i < |cs| ==> 0 < cs[i].Id < nextId)
    && (forall i, j :: 0 <= i < j < |cs| ==> cs[i].Id != cs[j].Id && cs[i].FullName != cs[j].FullName)
  }

  /** Every stanza belongs to a song; (SongId, Offset) is a unique index. */
  predicate StanzasValid(stanzas: seq<SongStanza>, songIds: set<nat>)
  {
    && (forall i :: 0 <= i < |stanzas| ==> stanzas[i].SongId in songIds)
    && (forall i, j :: 0 <= i < j < |stanzas| ==>
          stanzas[i].SongId != stanzas[j].SongId || stanzas[i].Offset != stanzas[j].Offset)
  }

  /** Every line belongs to a song; (SongId, Offset) is a unique index. */
  predicate LinesValid(lines: seq<SongLine>, songIds: set<nat>)
  {
    && (forall i :: 0 <= i < |lines| ==> lines[i].SongId in songIds)
    && (forall i, j :: 0 <= i < j < |lines| ==>
          lines[i].SongId != lines[j].SongId || lines[i].Offset != lines[j].Offset)
  }

  /** (SongId, WordId) is a unique index of the song-word links. */
  predicate SongWordKeysUnique(sws: seq<SongWord>)
  {
    forall i, j :: 0 <= i < j < |sws| ==>
      sws[i].SongId != sws[j].SongId || sws[i].Word.Id != sws[j].Word.Id
  }

  /** Ids are issued and unique; each link joins a stored song to a stored word. */
  predicate SongWordsValid(sws: seq<SongWord>, songIds: set<nat>, words: seq<Word>, nextId: nat)
  {
    && (forall i :: 0 <= i < |sws| ==> 0 < sws[i].Id < nextId && sws[i].SongId in songIds && sws[i].Word in words)
    && (forall i, j :: 0 <= i < j < |sws| ==> sws[i].Id != sws[j].Id)
    && SongWordKeysUnique(sws)
  }

  /** Every location belongs to a song-word link; (SongWordId, Offset) is a unique index. */
  predicate LocationsValid(locs: seq<WordLocation>, songWordIds: set<nat>)
  {
    && (forall i :: 0 <= i < |locs| ==> locs[i].SongWordId in songWordIds)
    && (forall i, j :: 0 <= i < j < |locs| ==>
          locs[i].SongWordId != locs[j].SongWordId || locs[i].Offset != locs[j].Offset)
  }

  /** Every role row belongs to a contributor; (ContributorId, ContributorTypeId) is its key. */
  predicate ContributorTypesValid(ccts: seq<ContributorContributorType>, contributorIds: set<nat>)
  {
    && (forall i :: 0 <= i < |ccts| ==> ccts[i].ContributorId in contributorIds)
    && (forall i, j :: 0 <= i < j < |ccts| ==>
          ccts[i].ContributorId != ccts[j].ContributorId || ccts[i].ContributorTypeId != ccts[j].ContributorTypeId)
  }

  /** Every credit joins a stored contributor to a stored song; the triple is a unique index. */
  predicate SongComposersValid(scs: seq<SongComposer>, contributorIds: set<nat>, songIds: set<nat>)
  {
    && (forall i :: 0 <= i < |scs| ==> scs[i].ContributorId in contributorIds && scs[i].SongId in songIds)
    && (forall i, j :: 0 <= i < j < |scs| ==> scs[i] != scs[j])
  }

  /** The value of every table at once, for stating what an operation changes. */
  datatype Tables = Tables(
    songs: seq<Song>,
    stanzas: seq<SongStanza>,
    lines: seq<SongLine>,
    words: seq<Word>,
    songWords: seq<SongWord>,
    locations: seq<WordLocation>,
    contributors: seq<Contributor>,
    contributorTypes: seq<ContributorContributorType>,
    songComposers: seq<SongComposer>,
    nextId: nat)

  // ---------------------------------------------------------------------
  // The store
  // ---------------------------------------------------------------------

  class SongsContext {
    var songs: seq<Song>
    var stanzas: seq<SongStanza>
    var lines: seq<SongLine>
    var words: seq<Word>
    var songWords: seq<SongWord>
    var locations: seq<WordLocation>
    var contributors: seq<Contributor>
    var contributorTypes: seq<ContributorContributorType>
    var songComposers: seq<SongComposer>
    /** The next value of the identity sequence. */
    var nextId: nat

    ghost predicate Valid()
      reads this
    {
      && nextId > 0
      && SongsValid(songs, nextId)
      && WordsValid(words, nextId)
      && ContributorsValid(contributors, nextId)
      && StanzasValid(stanzas, SongIds(songs))
      && LinesValid(lines, SongIds(songs))
      && SongWordsValid(songWords, SongIds(songs), words, nextId)
      && LocationsValid(locations, SongWordIds(songWords))
      && ContributorTypesValid(contributorTypes, ContributorIds(contributors))
      && SongComposersValid(songComposers, ContributorIds(contributors), SongIds(songs))
    }

    function Db(): Tables
      reads this
    {
      Tables(songs, stanzas, lines, words, songWords, locations,
             contributors, contributorTypes, songComposers, nextId)
    }

    /** An empty database; identities start at 1. */
    constructor ()
      ensures Valid()
      ensures Db() == Tables([], [], [], [], [], [], [], [], [], 1)
    {
      songs, stanzas, lines, words, songWords, locations := [], [], [], [], [], [];
      contributors, contributorTypes, songComposers := [], [], [];
      nextId := 1;
    }

    /** Inserts a song under a name not yet taken; it receives the next identity. */
    method AddSong(name: string, path: string, docDate: int, wordLength: nat) returns (song: Song)
      requires Valid()
      requires forall k :: 0 <= k < |songs| ==> songs[k].Name != name
      modifies this
      ensures Valid()
      ensures song == Song(old(nextId), name, path, docDate, wordLength)
      ensures Db() == old(Db()).(songs := old(songs) + [song], nextId := old(nextId) + 1)
    {
      song := Song(nextId, name, path, docDate, wordLength);
      SongIdsAppend(songs, song);
      songs := songs + [song];
      nextId := nextId + 1;
    }

    /** Inserts stanza rows that keep the stanza index unique. */
    method AddStanzas(rows: seq<SongStanza>)
      requires Valid()
      requires StanzasValid(stanzas + rows, SongIds(songs))
      modifies this
      ensures Valid()
      ensures Db() == old(Db()).(stanzas := old(stanzas) + rows)
    {
      stanzas := stanzas + rows;
    }

    /** Inserts line rows that keep the line index unique. */
    method AddLines(rows: seq<SongLine>)
      requires Valid()
      requires LinesValid(lines + rows, SongIds(songs))
      modifies this
      ensures Valid()
      ensures Db() == old(Db()).(lines := old(lines) + rows)
    {
      lines := lines + rows;
    }

    /**
     * Inserts new words with distinct texts none of which is stored yet;
     * row k receives identity `nextId + k`.
     */
    method AddWords(newWords: seq<Word>) returns (rows: seq<Word>)
      requires Valid()
      requires forall k :: 0 <= k < |newWords| ==> newWords[k].Length == |newWords[k].WordText|
      requires forall k, l :: 0 <= k < l < |newWords| ==> newWords[k].WordText != newWords[l].WordText
      requires forall k, i :: 0 <= k < |newWords| && 0 <= i < |words| ==> newWords[k].WordText != words[i].WordText
      modifies this
      ensures Valid()
      ensures |rows| == |newWords|
      ensures forall k :: 0 <= k < |rows| ==> rows[k] == newWords[k].(Id := old(nextId) + k)
      ensures Db() == old(Db()).(words := old(words) + rows, nextId := old(nextId) + |rows|)
    {
      var start := nextId;
      rows := seq(|newWords|, k requires 0 <= k < |newWords| => newWords[k].(Id := start + k));
      words := words + rows;
      nextId := nextId + |rows|;
    }

    /**
     * Inserts song-word links between stored songs and stored words that keep
     * (SongId, WordId) unique; link k receives identity `nextId + k`.
     */
    method AddSongWords(newRows: seq<SongWord>) returns (rows: seq<SongWord>)
      requires Valid()
      requires forall k :: 0 <= k < |newRows| ==> newRows[k].SongId in SongIds(songs) && newRows[k].Word in words
      requires SongWordKeysUnique(songWords + newRows)
      modifies this
      ensures Valid()
      ensures |rows| == |newRows|
      ensures forall k :: 0 <= k < |rows| ==> rows[k] == newRows[k].(Id := old(nextId) + k)
      ensures Db() == old(Db()).(songWords := old(songWords) + rows, nextId := old(nextId) + |rows|)
    {
      var start := nextId;
      rows := seq(|newRows|, k requires 0 <= k < |newRows| => newRows[k].(Id := start + k));
      SongWordsAppendValid(songWords, SongIds(songs), words, nextId, newRows, rows);
      songWords := songWords + rows;
      nextId := nextId + |rows|;
    }

    /**
     * Inserts location rows if they keep the foreign key and the
     * (SongWordId, Offset) index; otherwise refuses them and changes nothing.
     */
    method AddWordLocations(rows: seq<WordLocation>) returns (ok: bool)
      requires Valid()
      modifies this
      ensures Valid()
      ensures ok == LocationsValid(old(locations) + rows, SongWordIds(songWords))
      ensures Db() == if ok then old(Db()).(locations := old(locations) + rows) else old(Db())
    {
      ok := LocationsValid(locations + rows, SongWordIds(songWords));
      if ok {
        locations := locations + rows;
      }
    }

    /** Inserts a contributor whose full name is not taken; it receives the next identity. */
    method AddContributor(c: Contributor) returns (row: Contributor)
      requires Valid()
      requires forall k :: 0 <= k < |contributors| ==> contributors[k].FullName != c.FullName
      modifies this
      ensures Valid()
      ensures row == c.(Id := old(nextId))
      ensures Db() == old(Db()).(contributors := old(contributors) + [row], nextId := old(nextId) + 1)
    {
      row := c.(Id := nextId);
      ContributorIdsAppend(contributors, row);
      contributors := contributors + [row];
      nextId := nextId + 1;
    }

    /** Inserts a role row for a stored contributor that does not hold that role yet. */
    method AddContributorType(row: ContributorContributorType)
      requires Valid()
      requires row.ContributorId in ContributorIds(contributors)
      requires forall k :: 0 <= k < |contributorTypes| ==>
                 contributorTypes[k].ContributorId != row.ContributorId
                 || contributorTypes[k].ContributorTypeId != row.ContributorTypeId
      modifies this
      ensures Valid()
      ensures Db() == old(Db()).(contributorTypes := old(contributorTypes) + [row])
    {
      contributorTypes := contributorTypes + [row];
    }

    /** Inserts a credit of a stored contributor on a stored song that is not there yet. */
    method AddSongComposer(row: SongComposer)
      requires Valid()
      requires row.ContributorId in ContributorIds(contributors) && row.SongId in SongIds(songs)
      requires row !in songComposers
      modifies this
      ensures Valid()
      ensures Db() == old(Db()).(songComposers := old(songComposers) + [row])
    {
      songComposers := songComposers + [row];
    }
  }

  // ---------------------------------------------------------------------
  // Helper lemmas for the invariant
  // ---------------------------------------------------------------------

  lemma SongIdsAppend(songs: seq<Song>, s: Song)
    ensures SongIds(songs + [s]) == SongIds(songs) + {s.Id}
  {
    assert forall x :: x in songs + [s] <==> x in songs || x == s;
  }

  lemma ContributorIdsAppend(cs: seq<Contributor>, c: Contributor)
    ensures ContributorIds(cs + [c]) == ContributorIds(cs) + {c.Id}
  {
    assert forall x :: x in cs + [c] <==> x in cs || x == c;
  }

  lemma SongWordIdsGrow(sws: seq<SongWord>, more: seq<SongWord>)
    ensures SongWordIds(sws) <= SongWordIds(sws + more)
    ensures SongWordIds(sws + more) == SongWordIds(sws) + SongWordIds(more)
  {
    forall id | id in SongWordIds(sws) + SongWordIds(more)
      ensures id in SongWordIds(sws + more)
    {
      var sw :| (sw in sws || sw in more) && sw.Id == id;
      assert sw in sws + more;
    }
    forall id | id in SongWordIds(sws + more)
      ensures id in SongWordIds(sws) + SongWordIds(more)
    {
      var sw :| sw in sws + more && sw.Id == id;
      assert sw in sws || sw in more;
    }
  }

  /**
   * Links joining stored songs and words, with keys still unique and
   * identities issued from `nextId` on, keep the link table valid; the
   * link identities only grow.
   */
  lemma SongWordsAppendValid(sws: seq<SongWord>, songIds: set<nat>, words: seq<Word>, nextId: nat,
                             newRows: seq<SongWord>, rows: seq<SongWord>)
    requires nextId > 0 && SongWordsValid(sws, songIds, words, nextId)
    requires forall k :: 0 <= k < |newRows| ==> newRows[k].SongId in songIds && newRows[k].Word in words
    requires SongWordKeysUnique(sws + newRows)
    requires |rows| == |newRows|
    requires forall k :: 0 <= k < |rows| ==> rows[k] == newRows[k].(Id := nextId + k)
    ensures SongWordsValid(sws + rows, songIds, words, nextId + |rows|)
    ensures SongWordIds(sws) <= SongWordIds(sws + rows)
  {
    SongWordKeysIgnoreIds(sws, newRows, rows);
    SongWordIdsGrow(sws, rows);
    var all := sws + rows;
    forall i, j | 0 <= i < j < |all|
      ensures all[i].Id != all[j].Id
    {
      if j >= |sws| {
        assert all[j].Id == nextId + (j - |sws|);
        if i >= |sws| {
          assert all[i].Id == nextId + (i - |sws|);
        } else {
          assert all[i] == sws[i];
        }
      }
    }
    forall i | 0 <= i < |all|
      ensures 0 < all[i].Id < nextId + |rows| && all[i].SongId in songIds && all[i].Word in words
    {
      if i >= |sws| {
        assert all[i] == rows[i - |sws|];
      } else {
        assert all[i] == sws[i];
      }
    }
  }

  /** Renumbering rows leaves their (SongId, WordId) keys alone. */
  lemma SongWordKeysIgnoreIds(old_: seq<SongWord>, newRows: seq<SongWord>, rows: seq<SongWord>)
    requires |rows| == |newRows|
    requires forall k :: 0 <= k < |rows| ==> rows[k].SongId == newRows[k].SongId && rows[k].Word == newRows[k].Word
    requires SongWordKeysUnique(old_ + newRows)
    ensures SongWordKeysUnique(old_ + rows)
  {
    var a, b := old_ + newRows, old_ + rows;
    assert forall k :: 0 <= k < |b| ==> b[k].SongId == a[k].SongId && b[k].Word == a[k].Word;
  }
}
