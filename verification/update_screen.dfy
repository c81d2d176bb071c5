/** The edit screen (`UpdateScreen`): it keeps a draft note, loads it from
    storage, lets the user change its fields one at a time, and writes it over
    every stored note that shares its id. */
module UpdateScreen {
  import opened Notes
  import TextUtil

  /** The draft before anything is loaded: the id the screen was opened with,
      empty text fields, and the default importance. */
  function InitialDraft(noteId: string): (draft: Note)
    ensures draft.id == noteId
    ensures draft.date == "" && draft.title == "" && draft.content == ""
    ensures draft.importance == DefaultImportance
  {
    Note(noteId, "", "", "", DefaultImportance)
  }

  /** `loadNote`: the draft becomes the first stored note carrying `noteId`;
      with no stored value or no such note it stays as it was. */
  function LoadDraft(stored: Storage, noteId: string, draft: Note): (loaded: Note)
    ensures stored.Some? && HasId(stored.value, noteId) ==>
              loaded == stored.value[FindIndex(stored.value, noteId)]
    ensures stored.None? || !HasId(stored.value, noteId) ==> loaded == draft
    ensures draft.id == noteId ==> loaded.id == noteId
  {
    match stored
    case None => draft
    case Some(notes) =>
      FindIsFirstMatch(notes, noteId);
      match Find(notes, noteId)
      case Some(n) => n
      case None => draft
  }

  /** One user action on the form. `DatePicked` carries the ISO string of the
      picked date, or nothing when the picker was dismissed. */
  datatype Edit =
    | DatePicked(selected: Option<string>)
    | TitleTyped(title: string)
    | ContentTyped(content: string)
    | ImportancePicked(importance: string)

  /** The draft after one edit: the edited field takes the new value (a picked
      date is cut to its date part) and every other field, the id included,
      stays as it was. */
  function ApplyEdit(draft: Note, edit: Edit): (edited: Note)
    ensures edited.id == draft.id
    ensures edited.date != draft.date ==> edit.DatePicked? && edit.selected.Some?
    ensures edited.title != draft.title ==> edit.TitleTyped?
    ensures edited.content != draft.content ==> edit.ContentTyped?
    ensures edited.importance != draft.importance ==> edit.ImportancePicked?
    ensures edit.DatePicked? && edit.selected.Some? ==> edited.date == TextUtil.DatePart(edit.selected.value)
    ensures edit.TitleTyped? ==> edited.title == edit.title
    ensures edit.ContentTyped? ==> edited.content == edit.content
    ensures edit.ImportancePicked? ==> edited.importance == edit.importance
  {
    match edit
    case DatePicked(selected) =>
      if selected.Some? then draft.(date := TextUtil.DatePart(selected.value)) else draft
    case TitleTyped(text) => draft.(title := text)
    case ContentTyped(text) => draft.(content := text)
    case ImportancePicked(value) => draft.(importance := value)
  }

  /** The draft after a run of edits, applied in order. */
  function ApplyEdits(draft: Note, edits: seq<Edit>): Note
    decreases |edits|
  {
    if |edits| == 0 then draft
    else ApplyEdits(ApplyEdit(draft, edits[0]), edits[1..])
  }

  /** The last title typed in `edits`, or `title` when none was typed. */
  function LastTitle(title: string, edits: seq<Edit>): string
    decreases |edits|
  {
    if |edits| == 0 then title
    else if edits[|edits| - 1].TitleTyped? then edits[|edits| - 1].title
    else LastTitle(title, edits[..|edits| - 1])
  }

  /** No run of edits changes the draft's id, so the draft keeps targeting the
      note it was loaded for. */
  lemma {:induction false} EditsKeepId(draft: Note, edits: seq<Edit>)
    ensures ApplyEdits(draft, edits).id == draft.id
    decreases |edits|
  {
    if |edits| > 0 {
      EditsKeepId(ApplyEdit(draft, edits[0]), edits[1..]);
    }
  }

  /** Running edits one after the other: a prefix, then the rest. */
  lemma {:induction false} ApplyEditsSplit(draft: Note, edits: seq<Edit>, cut: nat)
    requires cut <= |edits|
    ensures ApplyEdits(draft, edits) == ApplyEdits(ApplyEdits(draft, edits[..cut]), edits[cut..])
    decreases cut
  {
    if cut > 0 {
      assert edits[..cut][0] == edits[0];
      assert edits[..cut][1..] == edits[1..][..cut - 1];
      assert edits[cut..] == edits[1..][cut - 1..];
      ApplyEditsSplit(ApplyEdit(draft, edits[0]), edits[1..], cut - 1);
    }
  }

  /** The title field holds the last title typed, whatever other fields were
      edited in between. */
  lemma {:induction false} EditsTitleIsLastTyped(draft: Note, edits: seq<Edit>)
    ensures ApplyEdits(draft, edits).title == LastTitle(draft.title, edits)
    decreases |edits|
  {
    if |edits| > 0 {
      var n := |edits| - 1;
      ApplyEditsSplit(draft, edits, n);
      EditsTitleIsLastTyped(draft, edits[..n]);
      var before := ApplyEdits(draft, edits[..n]);
      assert edits[n..] == [edits[n]];
      assert ApplyEdits(before, [edits[n]]) == ApplyEdit(before, edits[n]);
    }
  }

  /** The `map` in `handleUpdateNote`: every note whose id is the draft's
      becomes `{ ...n, ...draft }`, which is the draft itself since the draft
      carries all five fields. */
  function ReplaceMatching(notes: seq<Note>, draft: Note): seq<Note>
  {
    seq(|notes|, i requires 0 <= i < |notes| => if notes[i].id == draft.id then draft else notes[i])
  }

  /** `handleUpdateNote`: with a stored value, write back the list with every
      note carrying the draft's id replaced by the draft, in place; with none,
      write nothing. */
  function HandleUpdateNote(stored: Storage, draft: Note): (written: Storage)
    ensures stored.None? ==> written.None?
    ensures stored.Some? ==> written.Some? && |written.value| == |stored.value|
    ensures stored.Some? ==>
              forall i :: 0 <= i < |stored.value| && stored.value[i].id != draft.id ==>
                written.value[i] == stored.value[i]
    ensures stored.Some? ==>
              forall i :: 0 <= i < |stored.value| && stored.value[i].id == draft.id ==>
                written.value[i] == draft
    ensures stored.Some? && !HasId(stored.value, draft.id) ==> written == stored
  {
    match stored
    case None => None
    case Some(notes) =>
      var updated := ReplaceMatching(notes, draft);
      assert !HasId(notes, draft.id) ==> updated == notes by {
        if !HasId(notes, draft.id) {
          assert forall i :: 0 <= i < |notes| ==> updated[i] == notes[i];
        }
      }
      Some(updated)
  }

  /** Updating twice with the same draft is updating once. */
  lemma UpdateIdempotent(stored: Storage, draft: Note)
    ensures HandleUpdateNote(HandleUpdateNote(stored, draft), draft) == HandleUpdateNote(stored, draft)
  {
    if stored.Some? {
      var once := HandleUpdateNote(stored, draft).value;
      var twice := HandleUpdateNote(Some(once), draft).value;
      assert forall i :: 0 <= i < |once| ==> twice[i] == once[i];
      assert twice == once;
    }
  }

  /** An update keeps every note's id at its position, so the ids stay unique
      if they were. */
  lemma UpdateKeepsIds(stored: Storage, draft: Note)
    requires stored.Some?
    ensures forall i :: 0 <= i < |stored.value| ==>
              HandleUpdateNote(stored, draft).value[i].id == stored.value[i].id
    ensures UniqueIds(stored.value) ==> UniqueIds(HandleUpdateNote(stored, draft).value)
  {
  }

  /** After an update that found its note, looking the draft's id up finds the
      draft. */
  lemma UpdateThenLoad(stored: Storage, draft: Note)
    requires stored.Some? && HasId(stored.value, draft.id)
    ensures Find(HandleUpdateNote(stored, draft).value, draft.id) == Some(draft)
  {
  }
}
