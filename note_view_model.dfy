/**
 * `NoteViewModel`: the coordinator between the screens and the two stores.
 *
 * Reads are modelled as pure functions of one snapshot of the stores; the
 * writes are methods on a class that holds the DAO and the preference
 * repository. A note whose id is not positive is the in-memory draft: it is
 * never looked up, never deleted, and favouriting it inserts it.
 */
module ViewModel {
  import opened Wrappers
  import opened Resources
  import opened PreferenceValues
  import opened Notes
  import NoteTable
  import opened UserPreferences

  // ------------------------------------------------------ preference snapshot

  /** The UI-facing preference values. */
  datatype NotesUiState = NotesUiState(
    textSize: int,
    colorScheme: int,
    showFavorites: bool,
    selectedFont: int,
    currentNoteId: int)

  /** `NotesUiState()`: the snapshot shown before the store has been read. */
  const DefaultUiState: NotesUiState :=
    NotesUiState(TextSizeMediumId, ColorSchemeDefaultId, false, FontStyleDefaultId, NEW_NOTE_ID)

  /** Every enum-valued field holds one of its enum's ids. */
  predicate ValidUiState(s: NotesUiState) {
    IsTextSizeId(s.textSize) && IsColorSchemeId(s.colorScheme) && IsFontStyleId(s.selectedFont)
  }

  /**
   * The `combine` transform: validate the three enum-valued preferences and
   * pass the other two through. A valid raw id is kept exactly; an invalid one
   * is replaced by its enum's default.
   */
  function Snapshot(textSize: int, colorScheme: int, showFavorites: bool, selectedFont: int, currentNoteId: int)
    : (s: NotesUiState)
    ensures ValidUiState(s)
    ensures s.showFavorites == showFavorites && s.currentNoteId == currentNoteId
    ensures s.textSize == textSize <==> IsTextSizeId(textSize)
    ensures s.colorScheme == colorScheme <==> IsColorSchemeId(colorScheme)
    ensures s.selectedFont == selectedFont <==> IsFontStyleId(selectedFont)
    ensures !IsTextSizeId(textSize) ==> s.textSize == TextSizeMediumId
    ensures !IsColorSchemeId(colorScheme) ==> s.colorScheme == ColorSchemeDefaultId
    ensures !IsFontStyleId(selectedFont) ==> s.selectedFont == FontStyleDefaultId
  {
    NotesUiState(
      ValidateTextSize(textSize),
      ValidateColorScheme(colorScheme),
      showFavorites,
      ValidateFont(selectedFont),
      currentNoteId)
  }

  /**
   * `notesUiState` for one read of the preference store: the five getters
   * combined; nothing is emitted when the read fails with a non-I/O error.
   */
  function UiState(read: ReadOutcome): (s: Option<NotesUiState>)
    ensures s.None? <==> read.OtherFailure?
    ensures s.Some? ==> ValidUiState(s.value)
    ensures read.Loaded? ==>
              s == Some(Snapshot(read.prefs.textSize.GetOr(TextSizeMediumId),
                                 read.prefs.colorScheme.GetOr(ColorSchemeDefaultId),
                                 read.prefs.showFavorites.GetOr(false),
                                 read.prefs.selectedFont.GetOr(0),
                                 read.prefs.currentNoteId.GetOr(NEW_NOTE_ID)))
    ensures read.IOFailure? ==> s == Some(DefaultUiState)
  {
    match (UserPreferences.TextSize(read), UserPreferences.ColorScheme(read), ShowFavorites(read),
           SelectedFont(read), CurrentNoteId(read))
    case (Some(textSize), Some(colorScheme), Some(showFavorites), Some(selectedFont), Some(currentNoteId)) =>
      Some(Snapshot(textSize, colorScheme, showFavorites, selectedFont, currentNoteId))
    case _ => None
  }

  /** The initial snapshot is valid and validation leaves it as it is. */
  lemma DefaultUiStateIsStable()
    ensures ValidUiState(DefaultUiState)
    ensures Snapshot(DefaultUiState.textSize, DefaultUiState.colorScheme, DefaultUiState.showFavorites,
                     DefaultUiState.selectedFont, DefaultUiState.currentNoteId) == DefaultUiState
  {
  }

  /**
   * An empty store, or a read that fails with an I/O error, shows the initial
   * snapshot; in particular the unset font (raw 0) is validated to DEFAULT.
   */
  lemma EmptyStoreShowsDefaults()
    ensures UiState(Loaded(EmptyPrefs)) == Some(DefaultUiState)
    ensures UiState(IOFailure) == Some(DefaultUiState)
    ensures !IsFontStyleId(SelectedFont(Loaded(EmptyPrefs)).value)
  {
  }

  // ------------------------------------------------------------- note reads

  /** `getNoteById`: a fresh draft for a non-positive id, otherwise the table lookup. */
  function GetNoteById(t: NoteTable.Table, noteId: int): (r: Option<Note>)
    requires t.Valid()
    ensures noteId <= 0 ==> r == Some(DraftNote) && IsDraft(r.value)
    ensures noteId > 0 ==> (r.Some? <==> noteId in t.rows)
    ensures noteId > 0 && r.Some? ==> r.value == t.rows[noteId] && !IsDraft(r.value)
  {
    if noteId <= 0 then Some(DraftNote) else NoteTable.GetNoteById(t, noteId)
  }

  // ------------------------------------------------------------ note writes

  /** Both stores at one moment. */
  datatype Stores = Stores(table: NoteTable.Table, prefs: Prefs)

  /** What `toggleFavorite` leaves behind: the stores, and the caller's note object. */
  datatype ToggleOutcome = ToggleOutcome(stores: Stores, note: Note)

  /**
   * `toggleFavorite`. A draft is flipped in memory and upserted as it is (its
   * timestamp is not restamped), and the id the upsert hands back becomes the
   * current note id: the new key, or -1 if the non-positive id was already
   * stored. The in-memory note keeps its own id. A stored note gets
   * the single-column update to the negation of the caller's flag.
   */
  function ToggleFavoriteEffect(s: Stores, note: Note): (r: ToggleOutcome)
    requires s.table.Valid()
    ensures r.stores.table.Valid()
    ensures r.note.id == note.id
    ensures note.id <= 0 ==> r.note == note.(favorited := !note.favorited)
    ensures note.id <= 0 && note.id !in s.table.rows ==>
              && r.stores.prefs.currentNoteId.Some?
              && var id := r.stores.prefs.currentNoteId.value;
                 && r.stores.prefs == s.prefs.(currentNoteId := Some(id))
                 && id in r.stores.table.rows
                 && r.stores.table.rows[id] == r.note.(id := id)
                 && r.stores.table.rows.Keys == s.table.rows.Keys + {id}
                 && id !in s.table.rows
                 && (note.id == NEW_NOTE_ID ==> id > 0)
                 && (note.id != NEW_NOTE_ID ==> id == note.id)
                 && forall k :: k in s.table.rows && k != id ==> r.stores.table.rows[k] == s.table.rows[k]
    ensures note.id <= 0 && note.id in s.table.rows ==>
              && r.stores.prefs == s.prefs.(currentNoteId := Some(-1))
              && r.stores.table.rows == s.table.rows[note.id := r.note]
    ensures note.id > 0 ==>
              && r.note == note
              && r.stores.prefs == s.prefs
              && r.stores.table == NoteTable.SetFavorited(s.table, note.id, !note.favorited)
  {
    if note.id <= 0 then
      var flipped := note.(favorited := !note.favorited);
      var saved := NoteTable.Upsert(s.table, flipped);
      var returned := NoteTable.UpsertReturnedId(s.table, flipped);
      ToggleOutcome(Stores(saved.table, s.prefs.(currentNoteId := Some(returned))), flipped)
    else
      ToggleOutcome(Stores(NoteTable.SetFavorited(s.table, note.id, !note.favorited), s.prefs), note)
  }

  /**
   * Toggling a stored note, re-reading it, and toggling again restores both
   * stores exactly; the timestamp is never touched on the way.
   */
  lemma ToggleTwiceWithRereadRestores(s: Stores, note: Note)
    requires s.table.Valid()
    requires note.id > 0 && GetNoteById(s.table, note.id) == Some(note)
    ensures var first := ToggleFavoriteEffect(s, note);
            && GetNoteById(first.stores.table, note.id).Some?
            && var reread := GetNoteById(first.stores.table, note.id).value;
               && reread == note.(favorited := !note.favorited)
               && ToggleFavoriteEffect(first.stores, reread).stores == s
  {
  }

  /**
   * Toggling the same stale in-memory copy of a stored note twice repeats the
   * same write: the flag ends as the negation of the copy's, not as it began.
   */
  lemma ToggleTwiceStaleRepeats(s: Stores, note: Note)
    requires s.table.Valid()
    requires note.id > 0 && note.id in s.table.rows
    ensures var first := ToggleFavoriteEffect(s, note);
            && ToggleFavoriteEffect(first.stores, first.note) == first
            && first.stores.table.rows[note.id].favorited == !note.favorited
  {
  }

  /**
   * The new id reaches the app only through the current-note-id preference:
   * toggling the same in-memory draft twice inserts two rows, with opposite
   * flags, and the preference ends at the second one.
   */
  lemma ToggleDraftTwiceInsertsTwice(s: Stores, note: Note)
    requires s.table.Valid()
    requires note.id == NEW_NOTE_ID
    ensures var first := ToggleFavoriteEffect(s, note);
            var second := ToggleFavoriteEffect(first.stores, first.note);
            var id1 := first.stores.prefs.currentNoteId.value;
            var id2 := second.stores.prefs.currentNoteId.value;
            && first.note.id == NEW_NOTE_ID
            && id1 != id2
            && id1 !in s.table.rows && id2 !in s.table.rows
            && second.stores.table.rows.Keys == s.table.rows.Keys + {id1, id2}
            && |second.stores.table.rows| == |s.table.rows| + 2
            && second.stores.table.rows[id1].favorited == !note.favorited
            && second.stores.table.rows[id2].favorited == note.favorited
  {
  }

  /**
   * Saving stamps the note and upserts it: a draft lands under a fresh
   * positive id, and reading that id back gives the stamped note with its
   * contents and flag.
   */
  lemma SaveThenGetById(t: NoteTable.Table, note: Note, now: int)
    requires t.Valid()
    requires note.id >= 0
    ensures var saved := NoteTable.Upsert(t, note.(modifiedTimestamp := now));
            && saved.id > 0
            && (note.id == NEW_NOTE_ID ==> saved.id !in t.rows)
            && GetNoteById(saved.table, saved.id) == Some(note.(id := saved.id, modifiedTimestamp := now))
  {
  }

  /** Re-saving a stored note replaces its row and adds none. */
  lemma ResaveAddsNoRow(t: NoteTable.Table, note: Note, now: int)
    requires t.Valid()
    requires note.id in t.rows
    ensures var saved := NoteTable.Upsert(t, note.(modifiedTimestamp := now));
            && saved.id == note.id
            && saved.table.rows.Keys == t.rows.Keys
            && |saved.table.rows| == |t.rows|
            && saved.table.rows[note.id].modifiedTimestamp == now
  {
  }

  /** Deleting a note whose id has no row leaves the table unchanged. */
  lemma DeleteMissingChangesNothing(t: NoteTable.Table, note: Note)
    requires t.Valid()
    requires note.id !in t.rows
    ensures NoteTable.Delete(t, note) == t
  {
  }

  /**
   * Opening a new note, typing, and leaving with the edit flag set stores
   * exactly one new row holding the typed text, unfavourited.
   */
  lemma NewNoteTypedThenSaved(t: NoteTable.Table, text: string, now: int)
    requires t.Valid()
    ensures var draft := GetNoteById(t, NEW_NOTE_ID).value.(contents := text);
            var saved := NoteTable.Upsert(t, draft.(modifiedTimestamp := now));
            && saved.id > 0 && saved.id !in t.rows
            && saved.table.rows.Keys == t.rows.Keys + {saved.id}
            && saved.table.rows[saved.id].contents == text
            && !saved.table.rows[saved.id].favorited
  {
  }

  /** The view model, holding the two stores it coordinates. */
  class NoteViewModel {
    const repository: UserPreferencesRepository
    const dao: NoteTable.NoteDao

    ghost predicate Valid()
      reads this, dao
    {
      dao.Valid()
    }

    constructor (repository: UserPreferencesRepository, dao: NoteTable.NoteDao)
      requires dao.Valid()
      ensures Valid() && this.repository == repository && this.dao == dao
    {
      this.repository := repository;
      this.dao := dao;
    }

    /** `saveNote`: stamp the caller's note with the current time, then upsert it. */
    method SaveNote(note: Note, now: int) returns (stamped: Note)
      requires Valid()
      modifies dao
      ensures Valid()
      ensures stamped == note.(modifiedTimestamp := now)
      ensures dao.State() == NoteTable.Upsert(old(dao.State()), stamped).table
    {
      stamped := note.(modifiedTimestamp := now);
      var _ := dao.SaveNote(stamped);
    }

    /** `toggleFavorite`; `toggled` is the caller's note object afterwards. */
    method ToggleFavorite(note: Note) returns (toggled: Note)
      requires Valid()
      modifies dao, repository
      ensures Valid()
      ensures ToggleFavoriteEffect(Stores(old(dao.State()), old(repository.prefs)), note)
              == ToggleOutcome(Stores(dao.State(), repository.prefs), toggled)
    {
      if note.id <= 0 {
        toggled := note.(favorited := !note.favorited);
        var newId := dao.SaveNote(toggled);
        repository.SetCurrentNoteId(newId);
      } else {
        dao.ToggleFavorite(note.id, !note.favorited);
        toggled := note;
      }
    }

    /** `deleteNote`: only a stored (positive) id reaches the table. */
    method DeleteNote(note: Note)
      requires Valid()
      modifies dao
      ensures Valid()
      ensures note.id <= 0 ==> dao.State() == old(dao.State())
      ensures note.id > 0 ==> dao.State() == NoteTable.Delete(old(dao.State()), note)
    {
      if note.id > 0 {
        dao.DeleteNote(note);
      }
    }

    /** The editor's back action: save the note only if it was edited. */
    method ExitEditor(note: Note, edited: bool, now: int) returns (after: Note)
      requires Valid()
      modifies dao
      ensures Valid()
      ensures !edited ==> after == note && dao.State() == old(dao.State())
      ensures edited ==> after == note.(modifiedTimestamp := now)
                         && dao.State() == NoteTable.Upsert(old(dao.State()), after).table
    {
      after := note;
      if edited {
        after := SaveNote(note, now);
      }
    }

    method SaveTextSizePreference(textSize: int)
      modifies repository
      ensures repository.prefs == old(repository.prefs).(textSize := Some(textSize))
    {
      repository.SaveTextSizePreference(textSize);
    }

    method SaveColorSchemePreference(colorScheme: int)
      modifies repository
      ensures repository.prefs == old(repository.prefs).(colorScheme := Some(colorScheme))
    {
      repository.SaveColorSchemePreference(colorScheme);
    }

    method SaveSelectedFontPreference(selectedFont: int)
      modifies repository
      ensures repository.prefs == old(repository.prefs).(selectedFont := Some(selectedFont))
    {
      repository.SaveSelectedFontPreference(selectedFont);
    }

    method SaveShowFavoritesPreference(showFavorites: bool)
      modifies repository
      ensures repository.prefs == old(repository.prefs).(showFavorites := Some(showFavorites))
    {
      repository.SaveShowFavoritesPreference(showFavorites);
    }

    /** Records which note the editor has open. */
    method SetCurrentNoteId(noteId: int)
      modifies repository
      ensures repository.prefs == old(repository.prefs).(currentNoteId := Some(noteId))
    {
      repository.SetCurrentNoteId(noteId);
    }
  }
}
