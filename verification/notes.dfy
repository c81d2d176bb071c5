/** The note record every screen shares, the value stored under the "notes"
    key, and the id searches the screens run over the stored list. */
module Notes {

  /** An optional value: the absent storage value, or the `null` screen state. */
  datatype Option<+T> = None | Some(value: T)

  /** One stored note. Importance is kept as the raw string the picker wrote. */
  datatype Note = Note(id: string, date: string, title: string, content: string, importance: string)

  /** The value under the "notes" key: absent, or the decoded list in stored
      order. The JSON text itself is not modelled; decoding is taken to
      invert encoding. */
  type Storage = Option<seq<Note>>

  /** The importance a fresh draft or form starts with. */
  const DefaultImportance: string := "Reminder"

  /** The list a screen works on when it treats an absent value as `[]`. */
  function StoredOrEmpty(stored: Storage): seq<Note>
  {
    match stored
    case None => []
    case Some(notes) => notes
  }

  /** Some note in `notes` carries `id`. */
  predicate HasId(notes: seq<Note>, id: string)
  {
    exists i :: 0 <= i < |notes| && notes[i].id == id
  }

  /** No two notes in `notes` share an id. */
  predicate UniqueIds(notes: seq<Note>)
  {
    forall i, j :: 0 <= i < j < |notes| ==> notes[i].id != notes[j].id
  }

  /** A non-empty list carries `id` exactly when its head or its tail does. */
  lemma HasIdSplit(notes: seq<Note>, id: string)
    requires |notes| > 0
    ensures HasId(notes, id) <==> notes[0].id == id || HasId(notes[1..], id)
  {
  }

  /** `Array.prototype.findIndex` with the predicate `n.id === id`: the index
      of the first note carrying `id`, or -1 when there is none. */
  function FindIndex(notes: seq<Note>, id: string): (k: int)
    ensures -1 <= k < |notes|
    ensures k == -1 <==> !HasId(notes, id)
    ensures 0 <= k ==> notes[k].id == id
    ensures 0 <= k ==> forall j :: 0 <= j < k ==> notes[j].id != id
  {
    if |notes| == 0 then -1
    else if notes[0].id == id then 0
    else
      var k := FindIndex(notes[1..], id);
      HasIdSplit(notes, id);
      if k == -1 then -1 else k + 1
  }

  /** `Array.prototype.find` with the predicate `n.id === id`: the first note
      carrying `id`, if any. */
  function Find(notes: seq<Note>, id: string): (found: Option<Note>)
    ensures found.None? <==> !HasId(notes, id)
    ensures found.Some? ==> found.value.id == id && found.value in notes
  {
    if |notes| == 0 then None
    else if notes[0].id == id then Some(notes[0])
    else
      HasIdSplit(notes, id);
      Find(notes[1..], id)
  }

  /** How many notes in `notes` carry `id`. */
  function CountId(notes: seq<Note>, id: string): (c: nat)
    ensures c <= |notes|
    ensures c == 0 <==> !HasId(notes, id)
  {
    if |notes| == 0 then 0
    else
      HasIdSplit(notes, id);
      (if notes[0].id == id then 1 else 0) + CountId(notes[1..], id)
  }

  /** `find` and `findIndex` agree: the note `find` returns is the one at the
      index `findIndex` returns, and both report a miss together. */
  lemma {:induction false} FindIsFirstMatch(notes: seq<Note>, id: string)
    ensures Find(notes, id) == if HasId(notes, id) then Some(notes[FindIndex(notes, id)]) else None
  {
    if |notes| > 0 && notes[0].id != id {
      FindIsFirstMatch(notes[1..], id);
    }
  }

  /** A lookup finds whatever note occupies the first index carrying `id`. */
  lemma FindAtFirstIndex(notes: seq<Note>, id: string, k: nat)
    requires k < |notes| && notes[k].id == id
    requires forall j :: 0 <= j < k ==> notes[j].id != id
    ensures Find(notes, id) == Some(notes[k])
  {
    FindIsFirstMatch(notes, id);
    var f := FindIndex(notes, id);
    assert f == k by {
      assert 0 <= f by { assert HasId(notes, id); }
    }
  }

  /** Appending a note whose id is new makes a lookup of that id find it. */
  lemma {:induction false} FindAppended(notes: seq<Note>, n: Note)
    requires !HasId(notes, n.id)
    ensures Find(notes + [n], n.id) == Some(n)
  {
    var all := notes + [n];
    assert all[|notes|] == n;
    forall j | 0 <= j < |notes|
      ensures all[j].id != n.id
    {
      assert all[j] == notes[j];
    }
    FindAtFirstIndex(all, n.id, |notes|);
  }

  /** In a list with unique ids, an id occurs at most once. */
  lemma {:induction false} UniqueCountAtMostOne(notes: seq<Note>, id: string)
    requires UniqueIds(notes)
    ensures CountId(notes, id) <= 1
  {
    if |notes| > 0 {
      var tail := notes[1..];
      assert UniqueIds(tail) by {
        forall i, j | 0 <= i < j < |tail|
          ensures tail[i].id != tail[j].id
        {
          assert tail[i] == notes[i + 1] && tail[j] == notes[j + 1];
        }
      }
      UniqueCountAtMostOne(tail, id);
      if notes[0].id == id {
        assert !HasId(tail, id) by {
          forall i | 0 <= i < |tail|
            ensures tail[i].id != id
          {
            assert tail[i] == notes[i + 1];
          }
        }
      }
    }
  }
}
