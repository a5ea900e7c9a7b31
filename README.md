# Song ingestion, modelled in Dafny

This project models the core of a song-lyrics database: the ingestion of one
song by `SongAnalyzer.ProcessSong`. Ingestion stores the following, all inside one transaction:

- the song row;
- its stanzas, which are the fragments between double line breaks;
- its lines;
- the words of its text, each stored once and shared across songs;
- one song-word link per distinct word, holding its number of occurrences;
- three contributor credits (writer, music composer, performer).

The database is modelled as the class `Storage.SongsContext`:

- It has one sequence per table and one identity counter.
- Its invariant `Valid()` holds the unique indexes the EF Core context
  declares and the foreign keys among the modelled tables. It also holds
  facts the code keeps but the schema does not declare: identities are
  positive, unique and below the counter, and a word's `Length` is the
  length of its text.
- Each store method's contract states the whole new state as a `Tables` value.

The ingestion steps are methods over that class. Each step is proved against a
pure specification: a function of the text, or a function of the old tables
(`StanzaRows`, `LineRows`, `WordIndex`, `AddCredit`, `LocationRows`, and for the whole ingestion `Ingested`). Lemmas
then prove what the ingestion promises about that specification:

- offsets run and stay within the text;
- the word index counts every token and sums to the token count;
- the stored words are exactly the distinct tokens, none stored twice;
- crediting is idempotent and keeps earlier credits;
- every word location points to the link of its own word, and each link
  receives exactly as many locations as its occurrence count.

Modules:

- `Wrappers`: `Option` and `Result`.
- `StringExtensions`: the string truncation helper.
- `TextSplit`: .NET `String.Split(sep, RemoveEmptyEntries)` over an ordinal
  separator, its round trip with `Join`, and running offsets.
- `WordIndexing`: space tokens, LINQ `Distinct`, and the `GroupBy`/`Count` word index.
- `Entities`: the rows.
- `Storage`: the store and its invariant.
- `SongAnalyzer`: the ingestion steps, their specifications and their properties.

Facts about the code that a reader might not expect:

- The `Offset` of a stanza, a line or a word location is the running sum of the
  lengths of the preceding fragments. Separators are not counted, so an offset
  is not a character position in the text.
- Words are stored exactly as split on spaces: no lowercasing and no
  punctuation stripping.
- `ProcessSong` credits its `performer` argument as `MusicComposer` and its
  `musicComposer` argument as `Performer`
  (Model/SongAnalyzer.cs:51-52). The model keeps this as written and states
  it in `ProcessSong`'s contract and in `SongCredits`.
- `InsertWordLocations` is never called by `ProcessSong`, so ingestion stores
  no word locations. `ProcessSong`'s contract states that the locations table
  is unchanged. `InsertWordLocations` is modelled on its own.

## Model

| member | source | states |
|---|---|---|
| StringExtensions.TrimIsIdempotent | Model/StringExtensions.cs:5-13 | trimming twice with the same limit is trimming once |
| StringExtensions.TrimToMaxLength | Model/StringExtensions.cs:5-13 | null stays null; null, empty or a negative limit return the input; otherwise the result is a prefix of the input of length min(length, limit), and an input within the limit comes back unchanged |
| TextSplit.FirstSepFrom | Model/SongAnalyzer.cs:179 | the found index is an occurrence of the separator at or after the start, and no occurrence lies before it (none at all when nothing is found) |
| TextSplit.Fragments | Model/SongAnalyzer.cs:179 | splitting without dropping empties yields at least one fragment |
| TextSplit.NonEmpty | Model/SongAnalyzer.cs:179 | dropping empty entries keeps only non-empty members of the original fragments |
| TextSplit.Split | Model/SongAnalyzer.cs:179 | `RemoveEmptyEntries` split: every piece is non-empty; an empty separator does not split |
| TextSplit.SplitAvoidsSep | Model/SongAnalyzer.cs:179 | no piece of a split contains the separator |
| TextSplit.PrefixBeforeSepIsSepFree | Model/SongAnalyzer.cs:179 | text before the first separator occurrence contains no separator |
| TextSplit.FragmentsAvoidSep | Model/SongAnalyzer.cs:179 | no fragment of a split contains the separator |
| TextSplit.JoinFragments | Model/SongAnalyzer.cs:179 | round trip: gluing the fragments back with the separator gives the original text |
| TextSplit.JoinLength | Model/SongAnalyzer.cs:179 | the glued text is as long as the fragments plus one separator per gap |
| TextSplit.FragmentsLength | Model/SongAnalyzer.cs:179 | the fragments of a text, plus one separator between each pair of neighbours, account for its whole length |
| TextSplit.JoinCoversFragments | Model/SongAnalyzer.cs:179 | the glued text is at least as long as the fragments together |
| TextSplit.NonEmptyKeepsLength | Model/SongAnalyzer.cs:179 | removing empty entries does not change the total length |
| TextSplit.FragmentsWithinText | Model/SongAnalyzer.cs:179 | the kept fragments are together no longer than the text |
| TextSplit.SplitWithinText | Model/SongAnalyzer.cs:209 | the pieces of any split are together no longer than the text |
| TextSplit.SumLengthsAppend | Model/SongAnalyzer.cs:195 | one step of the offset accumulator adds the fragment's length |
| TextSplit.PrefixSumStep | Model/SongAnalyzer.cs:225 | the running offset of piece i+1 is the offset of piece i plus its length |
| TextSplit.PrefixSumSteps | Model/SongAnalyzer.cs:195 | the same step at every position: each running total is the one before it plus the next piece's length |
| TextSplit.OffsetsIncrease | Model/SongAnalyzer.cs:183-199 | running offsets of non-empty pieces strictly increase, so they are distinct |
| TextSplit.PrefixSumBounded | Model/SongAnalyzer.cs:213-227 | a running offset never exceeds the total length of the pieces |
| TextSplit.RowEndWithinText | Model/SongAnalyzer.cs:183-199 | every piece, placed at its running offset, ends within the text |
| WordIndexing.SpaceIsSeparator | Model/SongAnalyzer.cs:75 | a space character is an occurrence of the one-space separator |
| WordIndexing.Tokens | Model/SongAnalyzer.cs:75 | every token is non-empty and contains no space |
| WordIndexing.Distinct | Model/SongAnalyzer.cs:76 | the result holds exactly the tokens of the input, each once |
| WordIndexing.WordIndex | Model/SongAnalyzer.cs:78-80 | keys are exactly the tokens; each count is the token's number of occurrences and at least 1 |
| WordIndexing.SumCountsAgree | Model/SongAnalyzer.cs:78-80 | sums over the same keys agree when their counts agree |
| WordIndexing.SumCountsBump | Model/SongAnalyzer.cs:78-80 | adding one occurrence of a listed key adds one to the sum |
| WordIndexing.CountsSumToTokenCount | Model/SongAnalyzer.cs:75-80 | the counts of the index, summed over the distinct tokens, equal the number of tokens |
| WordIndexing.WordIndexOfText | Model/SongAnalyzer.cs:75-80 | the index of a text has the distinct tokens as keys, no empty or spaced key, and counts summing to the token count |
| Storage.FirstOrDefault | Model/SongAnalyzer.cs:105-107 | `FirstOrDefault` over an unordered query: some row satisfying the predicate, or none exactly when no row does |
| Storage.FirstOrDefaultAppend | Model/SongAnalyzer.cs:122-124 | appending rows does not change a lookup that already finds a row |
| Storage.SongsContext.constructor | Model/SongsContext.cs:55-101 | an empty database satisfies every unique index and foreign key |
| Storage.SongsContext.AddSong | Model/SongsContext.cs:59 | a song under an unused name gets the next identity, is appended, and the indexes still hold |
| Storage.SongsContext.AddStanzas | Model/SongsContext.cs:97-101 | stanza rows keeping (SongId, Offset) unique are appended; nothing else changes |
| Storage.SongsContext.AddLines | Model/SongsContext.cs:71-75 | line rows keeping (SongId, Offset) unique are appended; nothing else changes |
| Storage.SongsContext.AddWords | Model/SongsContext.cs:57 | new words with distinct, unstored texts are appended with consecutive identities |
| Storage.SongsContext.AddSongWords | Model/SongsContext.cs:76-80 | links keeping (SongId, WordId) unique are appended with consecutive identities |
| Storage.SongsContext.AddWordLocations | Model/SongsContext.cs:81-85 | locations are appended exactly when they keep (SongWordId, Offset) unique and refer to stored links; otherwise nothing changes |
| Storage.SongsContext.AddContributor | Model/SongsContext.cs:58 | a contributor under an unused full name gets the next identity and is appended |
| Storage.SongsContext.AddContributorType | Model/SongsContext.cs:66-70 | a role row for a stored contributor not holding that role is appended |
| Storage.SongsContext.AddSongComposer | Model/SongsContext.cs:60-65 | a credit not yet present is appended |
| Storage.SongIdsAppend | Model/Entities/Song.cs:6-7 | appending a song adds exactly its identity to the set of song identities |
| Storage.ContributorIdsAppend | Model/Entities/Contributor.cs:6-7 | appending a contributor adds exactly its identity |
| Storage.SongWordIdsGrow | Model/Entities/SongWord.cs:6-7 | appending links keeps the old identities and adds exactly the identities of the new links |
| Storage.SongWordsAppendValid | Model/SongsContext.cs:76-80 | links joining stored songs and words, keeping (SongId, WordId) unique and numbered from the counter, keep the link table valid |
| Storage.SongWordKeysIgnoreIds | Model/SongsContext.cs:76-80 | the (SongId, WordId) index does not depend on the identities given to new links |
| SongAnalyzer.StanzaRows | Model/SongAnalyzer.cs:183-199 | one stanza row per fragment, of the song, each ending where the running total after its fragment stands |
| SongAnalyzer.LineRows | Model/SongAnalyzer.cs:213-227 | one line row per fragment, of the song, each ending where the running total after its fragment stands |
| SongAnalyzer.RunningOffsets | Model/SongAnalyzer.cs:183-199 | each running offset is the previous offset plus the previous piece's length; every piece placed at its offset ends within the text; offsets strictly increase |
| SongAnalyzer.StanzaRowsLayout | Model/SongAnalyzer.cs:179-199 | for any separator, the rows of the pieces start at 0, are non-empty, end within the text, follow each other without gaps and have strictly increasing offsets |
| SongAnalyzer.StanzaLayout | Model/SongAnalyzer.cs:179-199 | one stanza row per non-empty fragment between double line breaks: the first at offset 0, each non-empty and ending within the text, each offset the previous offset plus the previous length, offsets strictly increasing |
| SongAnalyzer.LineLayout | Model/SongAnalyzer.cs:209-227 | the same layout for lines split on single line breaks |
| SongAnalyzer.AppendStanzasKeepsIndex | Model/SongsContext.cs:97-101 | the stanza rows of a new song keep the (SongId, Offset) index unique |
| SongAnalyzer.AppendLinesKeepsIndex | Model/SongsContext.cs:71-75 | the line rows of a new song keep the (SongId, Offset) index unique |
| SongAnalyzer.InsertSongStanzas | Model/SongAnalyzer.cs:177-205 | the rows returned and appended are exactly the stanza layout of the text; the store stays valid |
| SongAnalyzer.InsertSongLines | Model/SongAnalyzer.cs:207-233 | the rows returned and appended are exactly the line layout of the text; the store stays valid |
| SongAnalyzer.ExistingWords | Model/SongAnalyzer.cs:82 | the query for stored words returns only words whose text is one of the distinct tokens |
| SongAnalyzer.Absent | Model/SongAnalyzer.cs:84-88 | the missing-word filter keeps no text of the found set |
| SongAnalyzer.ExistingWordsMembers | Model/SongAnalyzer.cs:82 | the stored words selected are exactly the stored rows whose text is a distinct token |
| SongAnalyzer.ExistingWordsUnique | Model/SongAnalyzer.cs:82 | under the unique word-text index, the selected stored words have distinct texts |
| SongAnalyzer.AbsentMembers | Model/SongAnalyzer.cs:84-88 | the missing texts are exactly the distinct tokens not stored |
| SongAnalyzer.AbsentUnique | Model/SongAnalyzer.cs:76-88 | the missing texts contain no duplicates |
| SongAnalyzer.ExistingTextsAgree | Model/SongAnalyzer.cs:83 | for a token, being among the selected texts is the same as being stored |
| SongAnalyzer.AbsentAgrees | Model/SongAnalyzer.cs:83-84 | filtering against the selected texts or against all stored texts gives the same missing list |
| SongAnalyzer.MissingNotStored | Model/SongAnalyzer.cs:84-88 | no missing text is stored already, so inserting them keeps the word-text index |
| SongAnalyzer.SelectedWordsSound | Model/SongAnalyzer.cs:92 | every word returned has a token of the text as its text |
| SongAnalyzer.SelectedWordsCover | Model/SongAnalyzer.cs:92 | every distinct token has a returned word |
| SongAnalyzer.SelectedWordsUnique | Model/SongAnalyzer.cs:92 | the returned words have pairwise distinct texts |
| SongAnalyzer.SelectedWordsStored | Model/SongAnalyzer.cs:90-92 | every returned word is a stored row |
| SongAnalyzer.InsertWordsIfMissing | Model/SongAnalyzer.cs:73-93 | returns the word index of the text and one stored word per distinct token, with distinct texts, all stored; the new store is `WordsAdded` of the old one (the `NewWords` of the text appended, nothing else changed), and the words returned are the matching stored rows followed by the new rows |
| SongAnalyzer.MissingWordsInsertable | Model/SongAnalyzer.cs:82-90 | the new word rows have their texts' lengths, no text twice and no stored text, and filtering on the texts found is filtering on the whole store |
| SongAnalyzer.AddedWordsNumbered | Model/SongAnalyzer.cs:84-91 | the stored copies of the new rows keep their texts and lengths and take consecutive identities |
| SongAnalyzer.SelectedWordsFacts | Model/SongAnalyzer.cs:82-92 | the found words followed by the added ones have exactly the texts of the tokens, each once, and are all stored |
| SongAnalyzer.UniqueAcross | Model/SongAnalyzer.cs:92 | two word lists with unique texts, one inside a set of texts and one outside it, together have unique texts |
| SongAnalyzer.InsertedWordsFacts | Model/SongAnalyzer.cs:73-93 | the rows `InsertWordsIfMissing` adds are the `NewWords` of the text, and the words it returns cover the tokens once each and are stored |
| SongAnalyzer.StoredWordIdsDiffer | Model/SongsContext.cs:57 | stored words with different texts have different identities |
| SongAnalyzer.InsertSongWords | Model/SongAnalyzer.cs:56-71 | one link per word, in order, with the song, the word and its count from the index; the links have distinct word identities and are appended with fresh identities |
| SongAnalyzer.FindSong | Model/SongAnalyzer.cs:105-107 | the lookup by name finds a stored song of that name, and finds none exactly when no song has that name |
| SongAnalyzer.InsertSong | Model/SongAnalyzer.cs:95-118 | fails with "already exists", changing nothing, exactly when the name is stored; otherwise appends the song with the next identity and the text's length |
| SongAnalyzer.FindStoredSong | Model/SongsContext.cs:59 | under the unique name index, looking up a stored song's name finds that song |
| SongAnalyzer.FindContributor | Model/SongAnalyzer.cs:122-124 | the lookup by full name finds a stored contributor of that name, and finds none exactly when no contributor has it |
| SongAnalyzer.FindRole | Model/SongAnalyzer.cs:134-136 | the role lookup succeeds exactly when that (contributor, role) row is stored |
| SongAnalyzer.FindCredit | Model/SongAnalyzer.cs:162-164 | the credit lookup succeeds exactly when that (contributor, role, song) row is stored |
| SongAnalyzer.FindStoredContributor | Model/SongsContext.cs:58 | under the unique full-name index, looking up a stored contributor's name finds that contributor |
| SongAnalyzer.FindAppendedContributor | Model/SongAnalyzer.cs:126-129 | a contributor added under a new full name is the one that name finds afterwards |
| SongAnalyzer.AddCreditCredits | Model/SongAnalyzer.cs:120-175 | after crediting, the contributor holds the role and the credit on the song |
| SongAnalyzer.AddCreditKeepsCredited | Model/SongAnalyzer.cs:126-172 | crediting a contributor already credited in that role on that song changes nothing |
| SongAnalyzer.AddCreditIdempotent | Model/SongAnalyzer.cs:120-175 | crediting twice is the same as crediting once |
| SongAnalyzer.AddCredit | Model/SongAnalyzer.cs:120-175 | the specification of crediting: it only appends, at most one contributor, one role row and one credit, and touches no other table |
| SongAnalyzer.CreditedContributor | Model/SongAnalyzer.cs:122-132 | the contributor credited has the given full name; a stored one of that name is reused, otherwise the given one receives the next identity |
| SongAnalyzer.AddCreditKeepsCredits | Model/SongAnalyzer.cs:120-175 | crediting one contributor keeps every credit already given |
| SongAnalyzer.SongCredits | Model/SongAnalyzer.cs:50-52 | after the three credits, in the roles the code passes, all three hold |
| SongAnalyzer.InsertContributorIfMissing | Model/SongAnalyzer.cs:120-175 | the new state is `AddCredit` of the old one; the contributor is found by full name, the returned role row is (role, its identity), the credit holds, and nothing changes when it already held |
| SongAnalyzer.SongWordFor | Model/SongAnalyzer.cs:237 | the dictionary lookup finds a link of that word text, and finds none exactly when no link has it |
| SongAnalyzer.LocateWords | Model/SongAnalyzer.cs:237-256 | the dictionary lookups of the tokens fail exactly when some token has no link; otherwise the result is the `LocationRows` of the tokens |
| SongAnalyzer.LocationRows | Model/SongAnalyzer.cs:243-256 | one location per token; location i points at the song-word of token i's text, which is one of the given song-words |
| SongAnalyzer.CountRefs | Model/SongAnalyzer.cs:245-256 | the number of locations pointing at a song-word is at most the number of locations, and is 0 exactly when none points at it |
| SongAnalyzer.InsertWordLocations | Model/SongAnalyzer.cs:235-262 | duplicate word texts fail as a duplicate key; a token with no link fails as a missing key; rows the store refuses fail as refused; every failure changes nothing; on success the rows are one location per token at its running offset, pointing to its word's link |
| SongAnalyzer.LocationLayout | Model/SongAnalyzer.cs:243-256 | one location per token; offsets start at 0, step by token length and strictly increase; location i points to the link of token i's text |
| SongAnalyzer.SongWordOfItsText | Model/SongAnalyzer.cs:237 | with unique texts, a link's own text finds that link |
| SongAnalyzer.OtherTextOtherId | Model/SongAnalyzer.cs:250 | with unique identities, a different text finds a link with a different identity |
| SongAnalyzer.CountRefsStep | Model/SongAnalyzer.cs:245-256 | one more location adds one to a link's count exactly when it points at that link |
| SongAnalyzer.LocationCountPrefix | Model/SongAnalyzer.cs:245-256 | when location i points at a link exactly when token i is that link's text, the first n locations point at the link as often as the text occurs among the first n tokens |
| SongAnalyzer.LocationsPerSongWord | Model/SongAnalyzer.cs:245-256 | each link receives exactly as many locations as its text occurs among the tokens |
| SongAnalyzer.LocationsMatchOccurrences | Model/SongAnalyzer.cs:62 | for links built from the word index, each link's location count equals its NumberOfOccurrences |
| SongAnalyzer.FirstLocationsAccepted | Model/SongsContext.cs:81-85 | the locations of links that have none yet keep the (SongWordId, Offset) index, so the store accepts them |
| SongAnalyzer.LinksFromWords | Model/SongAnalyzer.cs:58-65 | links built from the returned words cover exactly the tokens of the text, once each |
| SongAnalyzer.NextIdUnused | Model/Entities/Song.cs:6-7 | the next identity is not yet referred to by any stanza, line or link |
| SongAnalyzer.SongStoredKept | Model/SongAnalyzer.cs:50-52 | crediting after the song is stored keeps the stored song content |
| SongAnalyzer.WordsOfTextStored | Model/SongAnalyzer.cs:82-92 | the returned words are stored and indexed, and every token of the text is a stored word |
| SongAnalyzer.SongStoredSteps | Model/SongAnalyzer.cs:42-46 | the five content steps in sequence store the song, its stanzas, lines, words and links, and no locations |
| SongAnalyzer.NewWords | Model/SongAnalyzer.cs:84-90 | the words a text adds: tokens not stored yet, with consecutive identities and their lengths |
| SongAnalyzer.LinkRows | Model/SongAnalyzer.cs:58-65 | a link counts its word at least once exactly when the word is a token of the text |
| SongAnalyzer.SongRowsAdded | Model/SongAnalyzer.cs:42-44 | the store after the first three content steps, as a function of the store before: the song appended under the next identity, then its stanza and line rows |
| SongAnalyzer.WordsAdded | Model/SongAnalyzer.cs:89-90 | the store after the missing-words step, as a function of the store before: the `NewWords` of the text appended, the counter moved past them |
| SongAnalyzer.FoundAndNew | Model/SongAnalyzer.cs:82-92 | the words the missing-words step returns: the stored words whose text is a distinct token, then the new ones, as the `Union` orders them |
| SongAnalyzer.LinksAdded | Model/SongAnalyzer.cs:58-67 | the store after the linking step, as a function of the store before: one `LinkRows` link per returned word appended, the counter moved past them |
| SongAnalyzer.SongContent | Model/SongAnalyzer.cs:42-46 | the store after the five content steps, as a function of the store before: `SongRowsAdded`, then `WordsAdded`, then `LinksAdded` with the `FoundAndNew` words |
| SongAnalyzer.SongContentFrame | Model/SongAnalyzer.cs:42-46 | the five content steps together (`SongContent`): one song appended under the next identity, words and links only appended, the counter moved past every new row, contributors, roles, credits and locations untouched |
| SongAnalyzer.Ingested | Model/SongAnalyzer.cs:42-52 | a whole ingestion: the content, then the three credits; the writer, the performer (as MusicComposer) and the music composer (as Performer) are credited on the song |
| SongAnalyzer.AddedAreNewWords | Model/SongAnalyzer.cs:84-91 | the words `InsertWordsIfMissing` adds are exactly the `NewWords` of the text |
| SongAnalyzer.LinksAreLinkRows | Model/SongAnalyzer.cs:58-65 | the links `InsertSongWords` makes from the word index are exactly the `LinkRows` of the text |
| SongAnalyzer.SongRowsStep | Model/SongAnalyzer.cs:42-44 | inserting the song, its stanzas and its lines is the `SongRowsAdded` step |
| SongAnalyzer.WordsStep | Model/SongAnalyzer.cs:45 | inserting the missing words is the `WordsAdded` step, and the words returned are `FoundAndNew` |
| SongAnalyzer.LinksStep | Model/SongAnalyzer.cs:46 | linking the words to the song is the `LinksAdded` step |
| SongAnalyzer.SongContentSteps | Model/SongAnalyzer.cs:42-46 | the five content steps, one table at a time, give `SongContent` |
| SongAnalyzer.WordsOfNewWords | Model/SongAnalyzer.cs:82-92 | the found and new words store every token, and the links to them are one per distinct token with its count |
| SongAnalyzer.ContentStoresSong | Model/SongAnalyzer.cs:42-46 | once its words and links cover the text, `SongContent` stores the song as `SongStored` describes |
| SongAnalyzer.SongContentStored | Model/SongAnalyzer.cs:42-46 | on any store with a valid word table, `SongContent` stores the song, its stanzas and lines, every token as a word, one link per distinct token with its count, and no location |
| SongAnalyzer.ProcessSong | Model/SongAnalyzer.cs:27-55 | fails, changing nothing, exactly when the name is already stored; otherwise the new store is exactly `Ingested` of the old one (nothing else changes), it stores the song and its stanzas, lines, words and one link per distinct token with its count, adds no locations, makes the name find the song, and credits the writer as Writer, the performer as MusicComposer and the music composer as Performer; the store stays valid |

## Left out

- The file system is not modelled. `File.ReadAllTextAsync` and `File.GetCreationTime` (Model/SongAnalyzer.cs:34, 37) become the `text` and `createDate` parameters of `ProcessSong`. The creation time is an `int`.
- `Environment.NewLine` is the `newLine` parameter.
- The `lines` array at Model/SongAnalyzer.cs:35 is computed but never used, so it is not modelled.
- Asynchrony is not modelled.
- The transaction (Model/SongAnalyzer.cs:40, 54) is not modelled. The steps run in sequence, and a song already stored fails before anything is written. That gives the transaction's all-or-nothing outcome, because no other step of the model can fail.
- PostgreSQL's per-table identity columns are not modelled. The model uses one shared counter for the tables whose identities other rows refer to (songs, words, song-word links, contributors). Identities of the remaining rows are not modelled, because nothing in the core reads them.
- The `[MaxLength]` column widths are not modelled: Model/Entities/Song.cs:12 and 17, and Model/Entities/Word.cs:12. A store refusal of an over-long name, path or token is therefore not modelled.
- `SongLine.SongStanzaId` and its required foreign key to `song_stanza` (Model/Entities/SongLine.cs:20-21, Model/SongsContext.cs:109-112) are not modelled. `InsertSongLines` never sets the field (Model/SongAnalyzer.cs:217-223), so every line row carries 0, which is no stanza's identity. If the database enforces the declared key, every line insert is refused and `ProcessSong` rolls back for any text that has a line. No file of the repository shows the database schema, so whether the key is enforced is not settled. The model's "fails exactly when the name is stored" holds only because this key is left out.
- The foreign keys from `ContributorTypeId` to the `contributor_type` lookup table (Model/SongsContext.cs:138-141, Model/Entities/SongComposer.cs:23-24) are not modelled, because the lookup table's rows are not part of the repository. The model's role identities are always 1, 2 or 3.
- Text with characters outside the Basic Multilingual Plane (emoji, for example) is outside the model. A Dafny `char` is a Unicode scalar value, while C# `Length` counts UTF-16 code units, two per such character. For such text every `Offset`, `WordLength` and `Length` of the model is short by one per character compared with the C# values. For text inside the Basic Multilingual Plane the two lengths agree.
- The order of rows returned by database queries is modelled as insertion order.
- Navigation properties are modelled only as the `Word` field of `SongWord`. The others (`Song`, `Contributor`) carry nothing beyond the foreign keys the model keeps.
- The rest of the EF Core context is not part of this model:
  - connection and logging setup;
  - the `Group`, `Phrase`, `WordGroup` and `PhraseWord` tables and their indexes;
  - the database views;
  - the similarity search.
- `DatasetLoader`, the statistics, the query result records, `ISongAnalyzer` and the user interface are not part of this model.
- C# `null` strings are modelled as `None` in `TrimToMaxLength`, which returns `None` for `None` as the source returns `null` for `null`.
