# expoMyNote note-list model

A Dafny model of the note-collection logic in the expoMyNote mobile app.
The app keeps every note in one list, stored as a single value under the
key `"notes"`. Four screens each read that list, change it in memory and
write it back:

- the dashboard (`app/index.tsx`) lists the notes as cards with a content preview;
- the note view (`app/Note.tsx`) shows one note, saves it back with an upsert and deletes it;
- the edit screen (`app/Update.tsx`) edits a draft and writes it over every note with its id;
- the create form (`app/Form.tsx`) builds a new note with a fresh id and appends it.

The model is functional. A `Note` is an immutable datatype with five string
fields. The stored value is an `Option<seq<Note>>`: `None` means nothing is
stored under the key. Each screen action is a pure function from the stored
value to the value written back. "No write" shows up as the result being the
unchanged `None`. The colour switch and the text helpers are pure functions
over strings.

Modules:

- `Notes` (`notes.dfy`): the record, the stored value, `find`/`findIndex` by id, id counting and uniqueness.
- `Palette` (`palette.dfy`): importance to card colour and text colour. The same switch is copied verbatim into four files, so it is defined once here.
- `TextUtil` (`text.dfy`): `truncateText`, and `split("T")[0]` on an ISO timestamp.
- `Dashboard`, `NoteScreen`, `UpdateScreen`, `FormScreen`: one module per screen.
- `Flows` (`flows.dfy`): properties where one screen writes and another reads.

Three id-matching behaviours are kept apart, as in the code:

- the edit screen replaces every note with the draft's id;
- the note view's upsert replaces only the first note with the id;
- the delete removes every note with the id.

`Flows.MatchingDiffers` proves that they differ when an id is stored twice
and the second stored copy differs from the note being saved.

Further facts about the code that the model keeps:

- Updating an id that is not stored still writes the list back unchanged; nothing reports a miss.
- Delete returns nothing and removes every note with the id, not just one.
- Importance is stored as the picker's string and is not normalised on read. Only the colour switch treats unknown strings as Reminder.
- The note view's save is an upsert keyed on the id the screen was opened with.

## Model

| member | source | states |
|---|---|---|
| Notes.FindIndex | app/Note.tsx:294 | returns -1 exactly when no note has the id; otherwise the index of a note with the id, and no earlier note has it |
| Notes.Find | app/Note.tsx:273 | finds nothing exactly when no note has the id; a found note has the id and is in the list |
| Notes.FindIsFirstMatch | app/Update.tsx:45 | `find` returns the note at the index `findIndex` returns, and both miss together |
| Notes.FindAtFirstIndex | app/Note.tsx:294-297 | whatever note is at the first index carrying the id is what a lookup returns |
| Notes.FindAppended | app/Form.tsx:44 | appending a note with a new id makes a lookup of that id return it |
| Notes.CountId | app/Note.tsx:314 | the number of notes with the id is at most the length, and is zero exactly when the id is absent |
| Notes.UniqueCountAtMostOne | app/Form.tsx:35 | in a list with unique ids, each id occurs at most once |
| Palette.Level | app/Update.tsx:146-156 | a picker value reads as the level it names; any other string reads as Reminder |
| Palette.LevelOfName | app/Form.tsx:92-100 | reading a level's picker value gives the level back; the default importance reads as Reminder |
| Palette.BackgroundColor | app/Note.tsx:254-265 | the string switch gives the same colour as reading the string as a level and taking that level's colour |
| Palette.TextColor | app/Note.tsx:250-252 | the text colour is white exactly when the importance reads as Important, and ink otherwise |
| Palette.NamedLevelsDistinct | app/index.tsx:69-80 | Reminder, Normal and Important get three different colours, and the level-to-colour map is injective |
| Palette.UnrecognisedIsReminder | app/Form.tsx:64-75 | a string that is not one of the three names gets the Reminder colour, the default importance's colour, and ink text |
| TextUtil.Truncate | app/index.tsx:59-62 | text within the limit is returned as is; longer text keeps exactly its first `maxLength` characters and ends in "..."; the result always starts with the first min(length, limit) characters and is at most limit + 3 long |
| TextUtil.TruncateIdempotent | app/index.tsx:59-62 | truncating a truncated preview changes nothing |
| TextUtil.DatePart | app/Form.tsx:37 | the date is a prefix of the timestamp with no 'T'; when shorter than the timestamp, the next character is 'T' |
| TextUtil.DatePartOfJoined | app/Update.tsx:85 | splitting "date" + "T" + "time" at 'T' gives back a T-free date |
| Dashboard.FetchNotes | app/index.tsx:30-39 | with a stored value the cards are that list in stored order; with none the cards stay as they were |
| Dashboard.FirstLoadShowsStored | app/index.tsx:27-35 | the first load shows the stored list, or no cards when nothing is stored; reloading unchanged storage changes nothing |
| Dashboard.RenderCardContent | app/index.tsx:64-67 | content up to 50 characters is shown whole; longer content shows its first 50 characters and "...", 53 in all |
| NoteScreen.FetchNote | app/Note.tsx:267-284 | the shown note is the first stored note with the id; with no stored value or no match the screen keeps its previous note |
| NoteScreen.HandleSave | app/Note.tsx:290-302 | always writes; with no shown note, writes the list as read (or `[]`); when the id is present, only the first match is replaced and length and every other entry stay; when absent, the note is appended |
| NoteScreen.SaveKeepsIdsUnique | app/Note.tsx:294-300 | if ids were unique and the shown note has the screen's id, they stay unique after the save |
| NoteScreen.SaveThenFetch | app/Note.tsx:296-299 | after saving a note with the screen's id, looking the id up returns that note |
| NoteScreen.Without | app/Note.tsx:314 | the filtered list is shorter than the input by exactly the number of notes with the id |
| NoteScreen.WithoutMembers | app/Note.tsx:314 | the filtered list holds exactly the notes whose id differs |
| NoteScreen.WithoutDistributes | app/Note.tsx:314 | filtering a concatenation is concatenating the filtered parts, so relative order is kept |
| NoteScreen.WithoutAbsent | app/Note.tsx:314 | filtering out an id no note has returns the list unchanged |
| NoteScreen.HandleDelete | app/Note.tsx:309-317 | with no stored value nothing is written; otherwise the written list has no note with the id, keeps every other note, and is shorter by the number of matches |
| NoteScreen.DeleteAbsentIsNoChange | app/Note.tsx:311-315 | deleting an absent id writes back exactly what was stored |
| NoteScreen.DeleteIdempotent | app/Note.tsx:309-317 | deleting twice is the same as deleting once |
| NoteScreen.WithoutKeepsUnique | app/Note.tsx:314 | filtering a list with unique ids gives a list with unique ids |
| NoteScreen.DeleteKeepsIdsUnique | app/Note.tsx:309-317 | if the stored ids were unique, the written list's ids are unique |
| NoteScreen.DeleteDropsOne | app/Note.tsx:314 | with unique ids, deleting a present id shortens the list by exactly one |
| UpdateScreen.InitialDraft | app/Update.tsx:30-36 | the first draft has the screen's id, empty date, title and content, and importance "Reminder" |
| UpdateScreen.LoadDraft | app/Update.tsx:38-56 | the draft becomes the first stored note with the id, or stays as it was; a draft that had the id still has it |
| UpdateScreen.ApplyEdit | app/Update.tsx:80-151 | an edit sets only its own field (a picked date cut at 'T'; a dismissed picker changes nothing); the id never changes |
| UpdateScreen.EditsKeepId | app/Update.tsx:133-150 | no run of edits changes the draft's id |
| UpdateScreen.EditsTitleIsLastTyped | app/Update.tsx:133-134 | after a run of edits the title is the last one typed, or the loaded title if none was typed |
| UpdateScreen.HandleUpdateNote | app/Update.tsx:58-72 | with no stored value nothing is written; otherwise length and order are kept, notes with another id are unchanged, notes with the draft's id become the draft, and an absent id writes the list unchanged |
| UpdateScreen.UpdateIdempotent | app/Update.tsx:63-65 | updating twice with the same draft is the same as updating once |
| UpdateScreen.UpdateKeepsIds | app/Update.tsx:63-65 | every position keeps its id, so unique ids stay unique |
| UpdateScreen.UpdateThenLoad | app/Update.tsx:64 | after an update that matched, looking up the draft's id returns the draft |
| FormScreen.InitialForm | app/Form.tsx:22-26 | the form starts with empty title and content, the current time, and importance "Reminder" |
| FormScreen.OnDateChange | app/Form.tsx:57-62 | a picked date replaces the form's date; a dismissed picker leaves the form unchanged; the other fields never change |
| FormScreen.NewNote | app/Form.tsx:34-40 | the new note has the fresh id, the form's title, content and importance, and the timestamp's part before the first 'T' as its date |
| FormScreen.HandleSave | app/Form.tsx:42-46 | exactly one note, the new one, is appended; the previous notes are unchanged and in order; with no stored value the list is just the new note |
| FormScreen.StoredDateIsIsoDate | app/Form.tsx:37 | an ISO timestamp "date" + "T" + "time" is stored as exactly its date |
| FormScreen.SaveKeepsIdsUnique | app/Form.tsx:35-44 | with a fresh id, unique stored ids stay unique |
| FormScreen.SaveThenFind | app/Form.tsx:43-44 | with a fresh id, looking it up after the save returns the new note |
| Flows.DeleteThenFetch | app/Note.tsx:309-317 | after a delete, the note view opened on that id finds no note |
| Flows.EditRound | app/Update.tsx:38-72 | load, edit and save: every note with the screen's id becomes the edited draft, and every other note is untouched |
| Flows.MatchingDiffers | app/Note.tsx:294-314 | with an id stored at positions i < j and the copy at j differing from the saved note, the update sets both positions to the note, the upsert sets the first match (at or before i) and leaves j as stored, and the delete removes at least two notes |
| Flows.CreateEditDeleteScenario | app/Form.tsx:32-51 | from empty storage: create A and B, giving [A, B]; edit A's content, changing nothing else; delete A, giving [B] |

## Left out

- Storage I/O: `AsyncStorage.getItem`/`setItem` are a read and a write of the `Option<seq<Note>>` value. Asynchrony, provider failures and the `catch` branches that log to the console are not modelled.
- JSON encoding and decoding: `JSON.stringify`/`JSON.parse` are taken to round-trip. A stored list always encodes to a non-empty string, so `if (storedNotes)` is modelled as "a value is present". A malformed stored value, which would throw in `JSON.parse`, is not modelled.
- Lost updates: two screens that read, change and write concurrently can overwrite each other's work. This is not modelled; actions are applied one after another.
- `uuid.v4()`: the fresh id is a parameter. Freshness is a precondition of the lemmas that need it.
- `Date`, `toISOString`, the date picker and the `Platform.OS` check: a date is its ISO string, and only the split at the first 'T' is modelled.
- Navigation, modals, `StyleSheet` objects, JSX rendering, and the card width `screenWidth * 0.9`, which is floating point and affects only layout.
- The commented-out earlier version of the note view in app/Note.tsx:1-216. It is dead code.
- The create form's `setTitle`, `setContent` and `setImportance` setters: each just stores the input. `NewNote` takes the form's fields as given.
- TextUtil.Truncate: characters stand for UTF-16 code units, which `length` and `slice` count. Splitting a surrogate pair is not distinguished.
