/**
 * The key-value preference store behind `UserPreferencesRepository`.
 *
 * Five keys, each possibly unset. The setters write one key each in place;
 * each getter reads the store, treats an I/O failure as an empty store,
 * rethrows any other failure, and substitutes a fixed default for an unset key.
 */
module UserPreferences {
  import opened Wrappers
  import opened Resources
  import opened Notes

  /** The stored preferences: one optional value per key. */
  datatype Prefs = Prefs(
    textSize: Option<int>,        // "text_size"
    colorScheme: Option<int>,     // "color_scheme"
    showFavorites: Option<bool>,  // "show_favorites"
    selectedFont: Option<int>,    // "selected_font"
    currentNoteId: Option<int>)   // "current_note_id"

  /** `emptyPreferences()`. */
  const EmptyPrefs: Prefs := Prefs(None, None, None, None, None)

  /** One read of the store's data: its contents, or the failure that ended it. */
  datatype ReadOutcome = Loaded(prefs: Prefs) | IOFailure | OtherFailure

  /**
   * The `catch` step shared by every getter: an IOException is replaced by an
   * empty store, any other failure is rethrown (the getter then yields nothing).
   */
  function Recover(read: ReadOutcome): (p: Option<Prefs>)
    ensures read.OtherFailure? <==> p.None?
    ensures read.IOFailure? ==> p == Some(EmptyPrefs)
    ensures read.Loaded? ==> p == Some(read.prefs)
  {
    match read
    case Loaded(prefs) => Some(prefs)
    case IOFailure => Some(EmptyPrefs)
    case OtherFailure => None
  }

  /** The `textSize` flow: the stored id, or MEDIUM when unset. */
  function TextSize(read: ReadOutcome): (v: Option<int>)
    ensures v.None? <==> read.OtherFailure?
    ensures read.Loaded? && read.prefs.textSize.Some? ==> v == read.prefs.textSize
    ensures read.IOFailure? || (read.Loaded? && read.prefs.textSize.None?) ==> v == Some(TextSizeMediumId)
  {
    match Recover(read)
    case Some(p) => Some(p.textSize.GetOr(TextSizeMediumId))
    case None => None
  }

  /** The `colorScheme` flow: the stored id, or the system default when unset. */
  function ColorScheme(read: ReadOutcome): (v: Option<int>)
    ensures v.None? <==> read.OtherFailure?
    ensures read.Loaded? && read.prefs.colorScheme.Some? ==> v == read.prefs.colorScheme
    ensures read.IOFailure? || (read.Loaded? && read.prefs.colorScheme.None?) ==> v == Some(ColorSchemeDefaultId)
  {
    match Recover(read)
    case Some(p) => Some(p.colorScheme.GetOr(ColorSchemeDefaultId))
    case None => None
  }

  /** The `showFavorites` flow: the stored flag, or false when unset. */
  function ShowFavorites(read: ReadOutcome): (v: Option<bool>)
    ensures v.None? <==> read.OtherFailure?
    ensures read.Loaded? && read.prefs.showFavorites.Some? ==> v == read.prefs.showFavorites
    ensures read.IOFailure? || (read.Loaded? && read.prefs.showFavorites.None?) ==> v == Some(false)
  {
    match Recover(read)
    case Some(p) => Some(p.showFavorites.GetOr(false))
    case None => None
  }

  /** The `selectedFont` flow: the stored id, or the raw value 0 when unset (not a font id). */
  function SelectedFont(read: ReadOutcome): (v: Option<int>)
    ensures v.None? <==> read.OtherFailure?
    ensures read.Loaded? && read.prefs.selectedFont.Some? ==> v == read.prefs.selectedFont
    ensures read.IOFailure? || (read.Loaded? && read.prefs.selectedFont.None?) ==> v == Some(0)
  {
    match Recover(read)
    case Some(p) => Some(p.selectedFont.GetOr(0))
    case None => None
  }

  /** The `currentNoteId` flow: the stored id, or NEW_NOTE_ID when unset. */
  function CurrentNoteId(read: ReadOutcome): (v: Option<int>)
    ensures v.None? <==> read.OtherFailure?
    ensures read.Loaded? && read.prefs.currentNoteId.Some? ==> v == read.prefs.currentNoteId
    ensures read.IOFailure? || (read.Loaded? && read.prefs.currentNoteId.None?) ==> v == Some(NEW_NOTE_ID)
  {
    match Recover(read)
    case Some(p) => Some(p.currentNoteId.GetOr(NEW_NOTE_ID))
    case None => None
  }

  /** A failed read is indistinguishable from a read of an empty store. */
  lemma IOFailureReadsAsEmpty()
    ensures TextSize(IOFailure) == TextSize(Loaded(EmptyPrefs))
    ensures ColorScheme(IOFailure) == ColorScheme(Loaded(EmptyPrefs))
    ensures ShowFavorites(IOFailure) == ShowFavorites(Loaded(EmptyPrefs))
    ensures SelectedFont(IOFailure) == SelectedFont(Loaded(EmptyPrefs))
    ensures CurrentNoteId(IOFailure) == CurrentNoteId(Loaded(EmptyPrefs))
  {
  }

  // The five writes below are `dataStore.edit { preferences[KEY] = value }`.

  /** Text size written: read back unchanged, other four keys read as before. */
  lemma TextSizeWriteIsolated(p: Prefs, textSize: int)
    ensures TextSize(Loaded(p.(textSize := Some(textSize)))) == Some(textSize)
    ensures ColorScheme(Loaded(p.(textSize := Some(textSize)))) == ColorScheme(Loaded(p))
    ensures ShowFavorites(Loaded(p.(textSize := Some(textSize)))) == ShowFavorites(Loaded(p))
    ensures SelectedFont(Loaded(p.(textSize := Some(textSize)))) == SelectedFont(Loaded(p))
    ensures CurrentNoteId(Loaded(p.(textSize := Some(textSize)))) == CurrentNoteId(Loaded(p))
  {
  }

  lemma ColorSchemeWriteIsolated(p: Prefs, colorScheme: int)
    ensures ColorScheme(Loaded(p.(colorScheme := Some(colorScheme)))) == Some(colorScheme)
    ensures TextSize(Loaded(p.(colorScheme := Some(colorScheme)))) == TextSize(Loaded(p))
    ensures ShowFavorites(Loaded(p.(colorScheme := Some(colorScheme)))) == ShowFavorites(Loaded(p))
    ensures SelectedFont(Loaded(p.(colorScheme := Some(colorScheme)))) == SelectedFont(Loaded(p))
    ensures CurrentNoteId(Loaded(p.(colorScheme := Some(colorScheme)))) == CurrentNoteId(Loaded(p))
  {
  }

  lemma SelectedFontWriteIsolated(p: Prefs, selectedFont: int)
    ensures SelectedFont(Loaded(p.(selectedFont := Some(selectedFont)))) == Some(selectedFont)
    ensures TextSize(Loaded(p.(selectedFont := Some(selectedFont)))) == TextSize(Loaded(p))
    ensures ColorScheme(Loaded(p.(selectedFont := Some(selectedFont)))) == ColorScheme(Loaded(p))
    ensures ShowFavorites(Loaded(p.(selectedFont := Some(selectedFont)))) == ShowFavorites(Loaded(p))
    ensures CurrentNoteId(Loaded(p.(selectedFont := Some(selectedFont)))) == CurrentNoteId(Loaded(p))
  {
  }

  lemma ShowFavoritesWriteIsolated(p: Prefs, showFavorites: bool)
    ensures ShowFavorites(Loaded(p.(showFavorites := Some(showFavorites)))) == Some(showFavorites)
    ensures TextSize(Loaded(p.(showFavorites := Some(showFavorites)))) == TextSize(Loaded(p))
    ensures ColorScheme(Loaded(p.(showFavorites := Some(showFavorites)))) == ColorScheme(Loaded(p))
    ensures SelectedFont(Loaded(p.(showFavorites := Some(showFavorites)))) == SelectedFont(Loaded(p))
    ensures CurrentNoteId(Loaded(p.(showFavorites := Some(showFavorites)))) == CurrentNoteId(Loaded(p))
  {
  }

  lemma CurrentNoteIdWriteIsolated(p: Prefs, noteId: int)
    ensures CurrentNoteId(Loaded(p.(currentNoteId := Some(noteId)))) == Some(noteId)
    ensures TextSize(Loaded(p.(currentNoteId := Some(noteId)))) == TextSize(Loaded(p))
    ensures ColorScheme(Loaded(p.(currentNoteId := Some(noteId)))) == ColorScheme(Loaded(p))
    ensures ShowFavorites(Loaded(p.(currentNoteId := Some(noteId)))) == ShowFavorites(Loaded(p))
    ensures SelectedFont(Loaded(p.(currentNoteId := Some(noteId)))) == SelectedFont(Loaded(p))
  {
  }

  /** The repository, holding the store's contents in place. */
  class UserPreferencesRepository {
    var prefs: Prefs

    constructor (initial: Prefs)
      ensures prefs == initial
    {
      prefs := initial;
    }

    method SaveTextSizePreference(textSize: int)
      modifies this
      ensures prefs == old(prefs).(textSize := Some(textSize))
    {
      prefs := prefs.(textSize := Some(textSize));
    }

    method SaveColorSchemePreference(colorScheme: int)
      modifies this
      ensures prefs == old(prefs).(colorScheme := Some(colorScheme))
    {
      prefs := prefs.(colorScheme := Some(colorScheme));
    }

    method SaveSelectedFontPreference(selectedFont: int)
      modifies this
      ensures prefs == old(prefs).(selectedFont := Some(selectedFont))
    {
      prefs := prefs.(selectedFont := Some(selectedFont));
    }

    method SaveShowFavoritesPreference(showFavorites: bool)
      modifies this
      ensures prefs == old(prefs).(showFavorites := Some(showFavorites))
    {
      prefs := prefs.(showFavorites := Some(showFavorites));
    }

    method SetCurrentNoteId(noteId: int)
      modifies this
      ensures prefs == old(prefs).(currentNoteId := Some(noteId))
    {
      prefs := prefs.(currentNoteId := Some(noteId));
    }
  }
}
