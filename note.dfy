/**
 * The `Note` record: one row of the Notes table.
 *
 * `id` is the auto-generated primary key; the value NEW_NOTE_ID (0) means
 * "not stored yet", and the store assigns a fresh key when such a note is
 * saved. The other three fields are the ones the app reassigns.
 */
module Notes {

  /** The id of a note that has not been saved yet. */
  const NEW_NOTE_ID: int := 0

  datatype Note = Note(
    id: int,
    modifiedTimestamp: int,   // milliseconds since the epoch
    contents: string,
    favorited: bool)

  /** `Note()` with every field at its declared default: the in-memory draft. */
  const DraftNote: Note := Note(NEW_NOTE_ID, 0, "", false)

  /** The app's draft sentinel: a note whose id is not a positive key. */
  predicate IsDraft(n: Note) {
    n.id <= 0
  }

  /** `Note()` is an empty, unfavourited draft that has never been stamped. */
  lemma DraftNoteIsEmptyDraft()
    ensures IsDraft(DraftNote) && DraftNote.id == NEW_NOTE_ID
    ensures DraftNote.contents == [] && !DraftNote.favorited && DraftNote.modifiedTimestamp == 0
  {
  }
}
