/** The note view (`NoteScreen`): it shows the note whose id it was opened
    with, saves it back with an upsert, and deletes every note with that id. */
module NoteScreen {
  import opened Notes

  /** `fetchNote`: the note the screen shows after loading. It is the first
      stored note carrying `noteId`; with no stored value or no such note the
      screen keeps what it had (`null` on first load). */
  function FetchNote(stored: Storage, noteId: string, current: Option<Note>): (shown: Option<Note>)
    ensures stored.Some? && HasId(stored.value, noteId) ==>
              shown == Some(stored.value[FindIndex(stored.value, noteId)])
    ensures stored.None? || !HasId(stored.value, noteId) ==> shown == current
    ensures shown != current ==> shown.Some? && shown.value.id == noteId
  {
    match stored
    case None => current
    case Some(notes) =>
      FindIsFirstMatch(notes, noteId);
      match Find(notes, noteId)
      case Some(n) => Some(n)
      case None => current
  }

  /** `handleSave`: an upsert keyed on `noteId`. Absent storage counts as the
      empty list. The first note carrying `noteId` is replaced by the shown
      note; with no such note the shown note is appended; with no shown note
      the list is written back as read. A value is always written. */
  function HandleSave(stored: Storage, noteId: string, note: Option<Note>): (written: Storage)
    ensures written.Some?
    ensures note.None? ==> written.value == StoredOrEmpty(stored)
    ensures note.Some? && HasId(StoredOrEmpty(stored), noteId) ==>
              var notes := StoredOrEmpty(stored);
              var k := FindIndex(notes, noteId);
              && |written.value| == |notes|
              && written.value[k] == note.value
              && forall i :: 0 <= i < |notes| && i != k ==> written.value[i] == notes[i]
    ensures note.Some? && !HasId(StoredOrEmpty(stored), noteId) ==>
              && |written.value| == |StoredOrEmpty(stored)| + 1
              && written.value[..|StoredOrEmpty(stored)|] == StoredOrEmpty(stored)
              && written.value[|StoredOrEmpty(stored)|] == note.value
  {
    var notes := StoredOrEmpty(stored);
    var noteIndex := FindIndex(notes, noteId);
    if noteIndex != -1 && note.Some? then Some(notes[noteIndex := note.value])
    else if note.Some? then Some(notes + [note.value])
    else Some(notes)
  }

  /** `notes.filter((n) => n.id !== id)`. */
  function Without(notes: seq<Note>, id: string): (kept: seq<Note>)
    ensures |kept| == |notes| - CountId(notes, id)
  {
    if |notes| == 0 then []
    else if notes[0].id == id then Without(notes[1..], id)
    else [notes[0]] + Without(notes[1..], id)
  }

  /** The filter keeps exactly the notes whose id differs. */
  lemma {:induction false} WithoutMembers(notes: seq<Note>, id: string)
    ensures forall n :: n in Without(notes, id) <==> n in notes && n.id != id
  {
    if |notes| > 0 {
      WithoutMembers(notes[1..], id);
      assert notes == [notes[0]] + notes[1..];
    }
  }

  /** `handleDelete`: with a stored value, write back the list with every note
      carrying `noteId` removed; with none, write nothing. */
  function HandleDelete(stored: Storage, noteId: string): (written: Storage)
    ensures stored.None? ==> written.None?
    ensures stored.Some? ==> written.Some?
    ensures stored.Some? ==> !HasId(written.value, noteId)
    ensures stored.Some? ==> |written.value| == |stored.value| - CountId(stored.value, noteId)
    ensures stored.Some? ==> forall n :: n in written.value <==> n in stored.value && n.id != noteId
  {
    match stored
    case None => None
    case Some(notes) =>
      var kept := Without(notes, noteId);
      WithoutMembers(notes, noteId);
      assert !HasId(kept, noteId) by {
        forall i | 0 <= i < |kept|
          ensures kept[i].id != noteId
        {
          assert kept[i] in kept;
        }
      }
      Some(kept)
  }

  /** The filter keeps relative order: filtering a concatenation filters
      each part and concatenates the results. */
  lemma {:induction false} WithoutDistributes(a: seq<Note>, b: seq<Note>, id: string)
    ensures Without(a + b, id) == Without(a, id) + Without(b, id)
  {
    if |a| == 0 {
      assert a + b == b;
    } else {
      var ab := a + b;
      assert ab[0] == a[0];
      assert ab[1..] == a[1..] + b;
      WithoutDistributes(a[1..], b, id);
      if a[0].id != id {
        calc {
          Without(ab, id);
          [a[0]] + Without(a[1..] + b, id);
          [a[0]] + (Without(a[1..], id) + Without(b, id));
          ([a[0]] + Without(a[1..], id)) + Without(b, id);
        }
      }
    }
  }

  /** Filtering out an id that no note carries gives the list back. */
  lemma {:induction false} WithoutAbsent(notes: seq<Note>, id: string)
    requires !HasId(notes, id)
    ensures Without(notes, id) == notes
  {
    if |notes| > 0 {
      HasIdSplit(notes, id);
      WithoutAbsent(notes[1..], id);
    }
  }

  /** Deleting an id that no note carries writes the list back unchanged. */
  lemma DeleteAbsentIsNoChange(stored: Storage, noteId: string)
    requires stored.Some? ==> !HasId(stored.value, noteId)
    ensures HandleDelete(stored, noteId) == stored
  {
    if stored.Some? {
      WithoutAbsent(stored.value, noteId);
    }
  }

  /** Deleting twice is deleting once. */
  lemma DeleteIdempotent(stored: Storage, noteId: string)
    ensures HandleDelete(HandleDelete(stored, noteId), noteId) == HandleDelete(stored, noteId)
  {
    if stored.Some? {
      var once := HandleDelete(stored, noteId).value;
      assert once == Without(stored.value, noteId);
      WithoutAbsent(once, noteId);
    }
  }

  /** With unique ids, deleting an id that is present drops exactly one note. */
  lemma DeleteDropsOne(stored: Storage, noteId: string)
    requires stored.Some? && UniqueIds(stored.value) && HasId(stored.value, noteId)
    ensures |HandleDelete(stored, noteId).value| == |stored.value| - 1
  {
    UniqueCountAtMostOne(stored.value, noteId);
  }

  /** The filter never brings two notes with the same id together: a list
      with unique ids stays so. */
  lemma {:induction false} WithoutKeepsUnique(notes: seq<Note>, id: string)
    requires UniqueIds(notes)
    ensures UniqueIds(Without(notes, id))
  {
    if |notes| > 0 {
      var tail := notes[1..];
      assert UniqueIds(tail) by {
        forall i, j | 0 <= i < j < |tail|
          ensures tail[i].id != tail[j].id
        {
          assert tail[i] == notes[i + 1] && tail[j] == notes[j + 1];
        }
      }
      WithoutKeepsUnique(tail, id);
      if notes[0].id != id {
        var rest := Without(tail, id);
        WithoutMembers(tail, id);
        var kept := [notes[0]] + rest;
        forall i, j | 0 <= i < j < |kept|
          ensures kept[i].id != kept[j].id
        {
          if i == 0 {
            assert kept[j] == rest[j - 1] && rest[j - 1] in tail;
            var t :| 0 <= t < |tail| && tail[t] == rest[j - 1];
            assert tail[t] == notes[t + 1];
          } else {
            assert kept[i] == rest[i - 1] && kept[j] == rest[j - 1];
          }
        }
      }
    }
  }

  /** Deleting keeps stored ids unique. */
  lemma DeleteKeepsIdsUnique(stored: Storage, noteId: string)
    requires stored.Some? && UniqueIds(stored.value)
    ensures UniqueIds(HandleDelete(stored, noteId).value)
  {
    WithoutKeepsUnique(stored.value, noteId);
  }

  /** Saving keeps ids unique, provided a shown note carries `noteId` (it was
      found by that id). */
  lemma SaveKeepsIdsUnique(stored: Storage, noteId: string, note: Option<Note>)
    requires UniqueIds(StoredOrEmpty(stored))
    requires note.Some? ==> note.value.id == noteId
    ensures UniqueIds(HandleSave(stored, noteId, note).value)
  {
  }

  /** After saving a shown note found by `noteId`, looking `noteId` up again
      finds exactly that note. */
  lemma SaveThenFetch(stored: Storage, noteId: string, n: Note)
    requires n.id == noteId
    ensures Find(HandleSave(stored, noteId, Some(n)).value, noteId) == Some(n)
  {
    var notes := StoredOrEmpty(stored);
    var written := HandleSave(stored, noteId, Some(n)).value;
    if HasId(notes, noteId) {
      var k := FindIndex(notes, noteId);
      FindAtFirstIndex(written, noteId, k);
    } else {
      assert written == notes + [n];
      FindAppended(notes, n);
    }
  }
}
