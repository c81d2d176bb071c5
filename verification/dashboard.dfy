/** The card list (`DashboardScreen`): it loads the stored notes in stored
    order and shows each with a shortened content preview. */
module Dashboard {
  import opened Notes
  import TextUtil

  /** The cards before the first load. */
  const InitialCards: seq<Note> := []

  /** The number of content characters a card shows before the ellipsis. */
  const PreviewLength: nat := 50

  /** `fetchNotes`: with a stored value the cards become that list, unsorted;
      with none they stay as they were. */
  function FetchNotes(stored: Storage, cards: seq<Note>): (shown: seq<Note>)
    ensures stored.Some? ==> shown == stored.value
    ensures stored.None? ==> shown == cards
  {
    match stored
    case Some(notes) => notes
    case None => cards
  }

  /** The first load shows the stored list, or no cards when nothing is
      stored; reloading without a change in storage shows the same cards. */
  lemma FirstLoadShowsStored(stored: Storage, cards: seq<Note>)
    ensures FetchNotes(stored, InitialCards) == StoredOrEmpty(stored)
    ensures FetchNotes(stored, FetchNotes(stored, cards)) == FetchNotes(stored, cards)
  {
  }

  /** `renderCardContent`: the content truncated at `PreviewLength`. */
  function RenderCardContent(content: string): (preview: string)
    ensures |content| <= PreviewLength ==> preview == content
    ensures |content| > PreviewLength ==> |preview| == PreviewLength + 3
    ensures |content| > PreviewLength ==>
              preview[..PreviewLength] == content[..PreviewLength] && preview[PreviewLength..] == "..."
  {
    TextUtil.Truncate(content, PreviewLength)
  }
}
