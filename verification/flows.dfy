/** Properties that span several screens: what one screen writes and another
    then reads, and how the three ways of matching an id differ. */
module Flows {
  import opened Notes
  import Dashboard
  import NoteScreen
  import UpdateScreen
  import FormScreen

  /** After a delete, opening the note view for that id finds nothing: the
      screen stays on its empty state. */
  lemma DeleteThenFetch(stored: Storage, noteId: string)
    ensures NoteScreen.FetchNote(NoteScreen.HandleDelete(stored, noteId), noteId, None) == None
  {
  }

  /** The edit screen's round: load the draft for `noteId`, apply the user's
      edits, save. Every stored note with that id becomes the edited draft, and
      the draft still carries `noteId`, so no other note is touched. */
  lemma EditRound(stored: Storage, noteId: string, edits: seq<UpdateScreen.Edit>)
    requires stored.Some?
    ensures var draft := UpdateScreen.ApplyEdits(UpdateScreen.LoadDraft(stored, noteId, UpdateScreen.InitialDraft(noteId)), edits);
            var written := UpdateScreen.HandleUpdateNote(stored, draft);
            && draft.id == noteId
            && |written.value| == |stored.value|
            && (forall i :: 0 <= i < |stored.value| && stored.value[i].id == noteId ==> written.value[i] == draft)
            && (forall i :: 0 <= i < |stored.value| && stored.value[i].id != noteId ==> written.value[i] == stored.value[i])
  {
    var loaded := UpdateScreen.LoadDraft(stored, noteId, UpdateScreen.InitialDraft(noteId));
    UpdateScreen.EditsKeepId(loaded, edits);
  }

  /** The edit screen and the note view match ids differently: with the
      draft's id stored at two positions, the second copy differing from the
      draft, the update rewrites both copies, the view's upsert rewrites only
      the first, and the delete removes both. */
  lemma MatchingDiffers(notes: seq<Note>, n: Note, i: nat, j: nat)
    requires i < j < |notes|
    requires notes[i].id == n.id && notes[j].id == n.id
    requires notes[j] != n
    ensures UpdateScreen.HandleUpdateNote(Some(notes), n).value[i] == n
    ensures UpdateScreen.HandleUpdateNote(Some(notes), n).value[j] == n
    ensures FindIndex(notes, n.id) <= i
    ensures NoteScreen.HandleSave(Some(notes), n.id, Some(n)).value[FindIndex(notes, n.id)] == n
    ensures NoteScreen.HandleSave(Some(notes), n.id, Some(n)).value[j] == notes[j]
    ensures |NoteScreen.HandleDelete(Some(notes), n.id).value| <= |notes| - 2
  {
    var k := FindIndex(notes, n.id);
    assert k <= i;
    assert CountId(notes, n.id) >= 2 by {
      CountAtLeastTwo(notes, n.id, i, j);
    }
  }

  /** Two positions carrying `id` count twice. */
  lemma {:induction false} CountAtLeastTwo(notes: seq<Note>, id: string, i: nat, j: nat)
    requires i < j < |notes|
    requires notes[i].id == id && notes[j].id == id
    ensures CountId(notes, id) >= 2
  {
    if i == 0 {
      assert notes[1..][j - 1].id == id;
      assert HasId(notes[1..], id);
    } else {
      CountAtLeastTwo(notes[1..], id, i - 1, j - 1);
    }
  }

  /** The create, list, edit and delete walk-through: from empty storage,
      create A then B, change A's content on the edit screen, then delete A.
      The list reads [A, B] after the creates, keeps A's other fields through
      the edit, and reads [B] after the delete. */
  lemma CreateEditDeleteScenario(formA: FormScreen.Form, formB: FormScreen.Form, a: string, b: string, newContent: string)
    requires a != b
    ensures var noteA := FormScreen.NewNote(formA, a);
            var noteB := FormScreen.NewNote(formB, b);
            var created := FormScreen.HandleSave(FormScreen.HandleSave(None, formA, a), formB, b);
            var draft := UpdateScreen.ApplyEdit(UpdateScreen.LoadDraft(created, a, UpdateScreen.InitialDraft(a)), UpdateScreen.ContentTyped(newContent));
            var edited := UpdateScreen.HandleUpdateNote(created, draft);
            && Dashboard.FetchNotes(None, Dashboard.InitialCards) == []
            && Dashboard.FetchNotes(created, Dashboard.InitialCards) == [noteA, noteB]
            && draft == noteA.(content := newContent)
            && Dashboard.FetchNotes(edited, Dashboard.InitialCards) == [noteA.(content := newContent), noteB]
            && NoteScreen.HandleDelete(edited, a) == Some([noteB])
  {
    var noteA := FormScreen.NewNote(formA, a);
    var noteB := FormScreen.NewNote(formB, b);
    var first := FormScreen.HandleSave(None, formA, a);
    assert first.value == [noteA];
    var created := FormScreen.HandleSave(first, formB, b);
    assert created.value == [noteA, noteB];
    assert FindIndex([noteA, noteB], a) == 0;
    var draft := noteA.(content := newContent);
    var edited := UpdateScreen.HandleUpdateNote(created, draft);
    assert edited.value[0] == draft && edited.value[1] == noteB;
    assert edited.value == [draft, noteB];
    assert UpdateScreen.LoadDraft(created, a, UpdateScreen.InitialDraft(a)) == noteA;
    assert NoteScreen.Without([draft, noteB], a) == [noteB];
    assert NoteScreen.HandleDelete(edited, a) == Some([noteB]);
  }
}
