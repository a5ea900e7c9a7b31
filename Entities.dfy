/**
 * The rows of the song database (Model/Entities). Surrogate ids are kept
 * for the rows other rows refer to; the store hands them out.
 */
module Entities {

  /** A song: its name is unique; `WordLength` is the length of its text. */
  datatype Song = Song(Id: nat, Name: string, Path: string, DocDate: int, WordLength: nat)

  /** A stanza row: its offset within the song and its length. */
  datatype SongStanza = SongStanza(SongId: nat, Offset: nat, WordLength: nat)

  /** A line row: its offset within the song and its length. */
  datatype SongLine = SongLine(SongId: nat, Offset: nat, WordLength: nat)

  /** A word, shared by every song that uses it; its text is unique. */
  datatype Word = Word(Id: nat, WordText: string, Length: nat)

  /**
   * The link of a song to a word with the number of times the word occurs
   * in it. `Word` is the navigation property: the linked word row itself.
   */
  datatype SongWord = SongWord(Id: nat, Word: Word, SongId: nat, NumberOfOccurrences: nat)
  {
    function WordId(): nat { Word.Id }
  }

  /** One occurrence of a word in a song, at a token offset. */
  datatype WordLocation = WordLocation(Offset: nat, SongWordId: nat)

  /** A person credited on songs; the full name is unique. */
  datatype Contributor = Contributor(Id: nat, FirstName: string, LastName: string, FullName: string)

  /** The roles of `enum ContributorType` (Writer = 1, MusicComposer = 2, Performer = 3). */
  datatype ContributorType = Writer | MusicComposer | Performer
  {
    function Id(): nat
    {
      match this
      case Writer => 1
      case MusicComposer => 2
      case Performer => 3
    }
  }

  /** A contributor holding a role; keyed by (ContributorId, ContributorTypeId). */
  datatype ContributorContributorType = ContributorContributorType(ContributorTypeId: nat, ContributorId: nat)

  /** A contributor credited on a song in a role. */
  datatype SongComposer = SongComposer(ContributorId: nat, ContributorTypeId: nat, SongId: nat)
}
