/** The create form (`FormScreen`): it collects a title, a date, content and
    an importance, builds a note with a fresh id and appends it to the stored
    list. */
module FormScreen {
  import opened Notes
  import TextUtil

  /** The form's state. `timestamp` stands for the chosen `Date` through its
      `toISOString` text; the clock and the date picker are outside the model. */
  datatype Form = Form(title: string, timestamp: string, content: string, importance: string)

  /** The form as first shown: empty text, the current time, and the default
      importance selected in the picker. */
  function InitialForm(now: string): (form: Form)
    ensures form.title == "" && form.content == ""
    ensures form.timestamp == now
    ensures form.importance == DefaultImportance
  {
    Form("", now, "", DefaultImportance)
  }

  /** `onDateChange`: a picked date replaces the chosen one; a dismissed
      picker (no date) leaves the form as it was. */
  function OnDateChange(form: Form, selected: Option<string>): (changed: Form)
    ensures changed.title == form.title && changed.content == form.content
    ensures changed.importance == form.importance
    ensures selected.Some? ==> changed.timestamp == selected.value
    ensures selected.None? ==> changed == form
  {
    match selected
    case Some(picked) => form.(timestamp := picked)
    case None => form
  }

  /** The note `_handleSave` builds: the fresh id (standing for `uuid.v4()`),
      the form's text and importance, and the timestamp cut at its first 'T'. */
  function NewNote(form: Form, freshId: string): (note: Note)
    ensures note.id == freshId
    ensures note.title == form.title && note.content == form.content
    ensures note.importance == form.importance
    ensures 'T' !in note.date
    ensures |note.date| <= |form.timestamp| && note.date == form.timestamp[..|note.date|]
    ensures |note.date| < |form.timestamp| ==> form.timestamp[|note.date|] == 'T'
  {
    Note(freshId, TextUtil.DatePart(form.timestamp), form.title, form.content, form.importance)
  }

  /** `_handleSave`: read the list (absent counts as empty), push the new
      note, write the list. */
  function HandleSave(stored: Storage, form: Form, freshId: string): (written: Storage)
    ensures written.Some?
    ensures |written.value| == |StoredOrEmpty(stored)| + 1
    ensures written.value[..|StoredOrEmpty(stored)|] == StoredOrEmpty(stored)
    ensures written.value[|StoredOrEmpty(stored)|] == NewNote(form, freshId)
    ensures stored.None? ==> written.value == [NewNote(form, freshId)]
  {
    var parsedNotes := StoredOrEmpty(stored);
    Some(parsedNotes + [NewNote(form, freshId)])
  }

  /** A timestamp in `toISOString` shape, a T-free date then 'T' then the
      time, is stored as exactly that date. */
  lemma StoredDateIsIsoDate(form: Form, freshId: string, date: string, time: string)
    requires 'T' !in date && form.timestamp == date + "T" + time
    ensures NewNote(form, freshId).date == date
  {
    TextUtil.DatePartOfJoined(date, time);
  }

  /** With a fresh id, saving keeps the stored ids unique. */
  lemma SaveKeepsIdsUnique(stored: Storage, form: Form, freshId: string)
    requires UniqueIds(StoredOrEmpty(stored))
    requires !HasId(StoredOrEmpty(stored), freshId)
    ensures UniqueIds(HandleSave(stored, form, freshId).value)
  {
  }

  /** With a fresh id, looking the id up after saving finds the new note. */
  lemma SaveThenFind(stored: Storage, form: Form, freshId: string)
    requires !HasId(StoredOrEmpty(stored), freshId)
    ensures Find(HandleSave(stored, form, freshId).value, freshId) == Some(NewNote(form, freshId))
  {
  }
}
