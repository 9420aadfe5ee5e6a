# IvyNotes core, modelled in Dafny

IvyNotes is an Android note-taking app. Its core has three parts:

- **Notes table.** A Room table named `Notes`. Each row is a `Note`: an auto-generated id, a modification timestamp, the text and a favourite flag. `NoteDao` is the data-access interface for this table.
- **Preference store.** A DataStore that keeps five user preferences:
  - text size, colour scheme and font, each stored as the string resource id of one enum option;
  - whether only favourites are shown;
  - the id of the note currently open in the editor.
- **`NoteViewModel`.** It connects the screens to both stores. It combines the five preferences into one validated UI snapshot. It also adds the rules for the draft note, whose id is 0 and which is not stored yet.

The model has these files:

- `wrappers.dfy`: `Option`.
- `resources.dfy`: stand-in values for the Android `R.string` and `R.dimen` resource ids.
- `note.dfy`: the `Note` record.
- `preference_values.dfy`: the three preference enums, with their lookup maps and validators.
- `note_dao.dfy`: the table and its queries as pure functions over a `Table` value, plus a `NoteDao` class whose methods change a table held in fields.
- `preferences_repository.dfy`: the five preference getters as functions of one read of the store, plus the repository class with its five writes.
- `note_view_model.dfy`: the UI snapshot, the draft rules, the view model class and lemmas about sequences of operations.

How the table is modelled:

- **Table.** A map from id to row, plus the next id that SQLite's `AUTOINCREMENT` would hand out.
- **Upsert of id 0.** Room binds an id of 0 as NULL, so the row is inserted under a fresh key.
- **Upsert of another id.** The row with that id is replaced, or inserted if none exists. The key counter moves past that id.
- **Returned id.** `saveNote` hands back the new row's key when it inserts, and -1 when it updates an existing row.
- **Deleted ids.** They are never handed out again.
- **Ordering.** `ORDER BY modified_timestamp DESC` is modelled by repeatedly taking the row with the largest timestamp. When timestamps tie, the smaller id comes first.

How the preference store is modelled:

- A read of the store has one of three outcomes:
  - the stored values;
  - an I/O failure, which the getters turn into empty preferences;
  - any other failure, which the getters rethrow. In the model that becomes `None`.
- A key that was never written reads as its default.

In the Kotlin source, a `Note` is a mutable object. `saveNote` and `toggleFavorite` change the caller's copy of it. The model returns the updated note instead.

## Model

| member | source | states |
|---|---|---|
| PreferenceValues.AssociateBy | app/src/main/java/com/kbarber34/ivynotes/data/UserPreferenceValues.kt:27 | every key of the map maps to an entry carrying that key, and every entry's key is present |
| PreferenceValues.AssociateByFinds | app/src/main/java/com/kbarber34/ivynotes/data/UserPreferenceValues.kt:27 | when keys are distinct, looking up an entry's key finds that entry |
| PreferenceValues.TextSizeMapComplete | app/src/main/java/com/kbarber34/ivynotes/data/UserPreferenceValues.kt:9-27 | each text size option is found under its own string id, and each valid id is a key |
| PreferenceValues.ValidateTextSize | app/src/main/java/com/kbarber34/ivynotes/data/UserPreferenceValues.kt:34-36 | the result is always a valid text size id; a valid id is kept, anything else becomes MEDIUM |
| PreferenceValues.GetPrimaryDimen | app/src/main/java/com/kbarber34/ivynotes/data/UserPreferenceValues.kt:29-31 | a valid id gets its own option's dimension; anything else gets the medium font dimension |
| PreferenceValues.PrimaryDimenOfValidated | app/src/main/java/com/kbarber34/ivynotes/data/UserPreferenceValues.kt:29-36 | validating before the dimension lookup does not change the dimension |
| PreferenceValues.ColorSchemeMapComplete | app/src/main/java/com/kbarber34/ivynotes/data/UserPreferenceValues.kt:41-47 | each colour scheme option is found under its own string id, and each valid id is a key |
| PreferenceValues.ValidateColorScheme | app/src/main/java/com/kbarber34/ivynotes/data/UserPreferenceValues.kt:50-52 | the result is always a valid scheme id; a valid id is kept, anything else becomes SYSTEM_DEFAULT |
| PreferenceValues.FontStyleMapComplete | app/src/main/java/com/kbarber34/ivynotes/data/UserPreferenceValues.kt:57-79 | each font option is found under its own string id, and each valid id is a key |
| PreferenceValues.ValidateFont | app/src/main/java/com/kbarber34/ivynotes/data/UserPreferenceValues.kt:86-88 | the result is always a valid font id; a valid id is kept, anything else becomes DEFAULT |
| PreferenceValues.GetFontFamily | app/src/main/java/com/kbarber34/ivynotes/data/UserPreferenceValues.kt:81-83 | a valid id gets its own option's family; anything else gets the default family |
| PreferenceValues.FontFamilyOfValidated | app/src/main/java/com/kbarber34/ivynotes/data/UserPreferenceValues.kt:81-88 | validating before the family lookup does not change the family |
| PreferenceValues.ValidatorsIdempotent | app/src/main/java/com/kbarber34/ivynotes/data/UserPreferenceValues.kt:34-88 | each of the three validators, applied twice, gives the same result as applied once |
| Notes.DraftNoteIsEmptyDraft | app/src/main/java/com/kbarber34/ivynotes/data/Note.kt:8-18 | `Note()` has id NEW_NOTE_ID (so it is a draft), empty contents, timestamp 0 and is not favourited |
| NoteTable.GetNoteById | app/src/main/java/com/kbarber34/ivynotes/data/NoteDao.kt:17-18 | a note is found exactly when its id is a key, and it is that row, carrying that id |
| NoteTable.First | app/src/main/java/com/kbarber34/ivynotes/data/NoteDao.kt:11 | the chosen row has the largest timestamp; when timestamps tie, it has the smallest id among them |
| NoteTable.FirstUnique | app/src/main/java/com/kbarber34/ivynotes/data/NoteDao.kt:11 | at most one row is first; `First`'s contract gives the existence of such a row |
| NoteTable.ListingHasEachRowOnce | app/src/main/java/com/kbarber34/ivynotes/data/NoteDao.kt:11-12 | the ordered scan contains every row and only rows, with no id twice |
| NoteTable.ListingIsNewestFirst | app/src/main/java/com/kbarber34/ivynotes/data/NoteDao.kt:11-12 | along the ordered scan, timestamps never increase |
| NoteTable.Listing | app/src/main/java/com/kbarber34/ivynotes/data/NoteDao.kt:11 | the `ORDER BY modified_timestamp DESC` scan emits as many notes as there are rows |
| NoteTable.AllNotes | app/src/main/java/com/kbarber34/ivynotes/data/NoteDao.kt:11-12 | `getAllNotes` lists every stored row, only stored rows, no id twice and as many as the table holds, newest first |
| NoteTable.FavoriteRows | app/src/main/java/com/kbarber34/ivynotes/data/NoteDao.kt:14 | exactly the favourited rows are kept, unchanged |
| NoteTable.FavoritesOf | app/src/main/java/com/kbarber34/ivynotes/data/NoteDao.kt:14 | every element kept is favourited and comes from the list, and every favourited element of the list is kept |
| NoteTable.FavoritesAreFilteredListing | app/src/main/java/com/kbarber34/ivynotes/data/NoteDao.kt:11-15 | `getFavoriteNotes` equals `getAllNotes` with the unfavourited notes removed, order kept |
| NoteTable.FavoriteNotes | app/src/main/java/com/kbarber34/ivynotes/data/NoteDao.kt:14-15 | `getFavoriteNotes` is `getAllNotes` with the unfavourited notes removed, order kept; a note is listed exactly when `getAllNotes` lists it and it is favourited |
| NoteTable.Upsert | app/src/main/java/com/kbarber34/ivynotes/data/NoteDao.kt:23-26 | id 0 inserts under the counter's next key, which is fresh and positive; the counter never decreases and always moves past the key written, so a deleted key is not handed out again; any other id is inserted or replaced under itself; the stored row is the note carrying the key it is stored under; no other row changes; the table stays well-formed |
| NoteTable.SetFavorited | app/src/main/java/com/kbarber34/ivynotes/data/NoteDao.kt:20-21 | only the favourite column of the row with that id changes; the set of keys is kept; a missing id changes nothing |
| NoteTable.Delete | app/src/main/java/com/kbarber34/ivynotes/data/NoteDao.kt:28-29 | the key of the note's id is removed; other rows are kept; a later lookup of that id finds nothing |
| NoteTable.DraftIdNeverStored | app/src/main/java/com/kbarber34/ivynotes/data/Note.kt:9-10 | no row is ever stored under id 0 |
| NoteTable.UpsertStoredIdKeepsCount | app/src/main/java/com/kbarber34/ivynotes/data/NoteDao.kt:23-26 | upserting an already-stored id keeps the row count |
| NoteTable.UpsertDraftAddsOneRow | app/src/main/java/com/kbarber34/ivynotes/data/NoteDao.kt:23-26 | upserting a draft adds exactly one row |
| NoteTable.DeletedKeyNotReused | app/src/main/java/com/kbarber34/ivynotes/data/NoteDao.kt:23-29 | after a row is deleted, saving a new note (id 0) never lands under the deleted key |
| NoteTable.UpsertReturnedId | app/src/main/java/com/kbarber34/ivynotes/data/NoteDao.kt:23-26 | the id handed back is -1 when the note's id is already stored, and otherwise the key of the new row, which was not in the table before |
| NoteTable.NoteDao.constructor | app/src/main/java/com/kbarber34/ivynotes/data/NoteDatabase.kt:16-24 | a new database has an empty table |
| NoteTable.NoteDao.SaveNote | app/src/main/java/com/kbarber34/ivynotes/data/NoteDao.kt:23-26 | the new state is `Upsert` of the old state, and the returned id is `UpsertReturnedId` of it |
| NoteTable.NoteDao.ToggleFavorite | app/src/main/java/com/kbarber34/ivynotes/data/NoteDao.kt:20-21 | the new state is `SetFavorited` of the old state |
| NoteTable.NoteDao.DeleteNote | app/src/main/java/com/kbarber34/ivynotes/data/NoteDao.kt:28-29 | the new state is `Delete` of the old state |
| UserPreferences.Recover | app/src/main/java/com/kbarber34/ivynotes/data/UserPreferencesRepository.kt:62-68 | an I/O failure reads as empty preferences; any other failure yields nothing; a successful read passes through |
| UserPreferences.TextSize | app/src/main/java/com/kbarber34/ivynotes/data/UserPreferencesRepository.kt:61-72 | nothing exactly on a non-I/O failure; otherwise the stored text size, or MEDIUM when it is unset |
| UserPreferences.ColorScheme | app/src/main/java/com/kbarber34/ivynotes/data/UserPreferencesRepository.kt:75-86 | nothing exactly on a non-I/O failure; otherwise the stored scheme, or SYSTEM_DEFAULT when it is unset |
| UserPreferences.ShowFavorites | app/src/main/java/com/kbarber34/ivynotes/data/UserPreferencesRepository.kt:89-100 | nothing exactly on a non-I/O failure; otherwise the stored flag, or false when it is unset |
| UserPreferences.SelectedFont | app/src/main/java/com/kbarber34/ivynotes/data/UserPreferencesRepository.kt:103-114 | nothing exactly on a non-I/O failure; otherwise the stored font, or the raw 0 when it is unset |
| UserPreferences.CurrentNoteId | app/src/main/java/com/kbarber34/ivynotes/data/UserPreferencesRepository.kt:116-127 | nothing exactly on a non-I/O failure; otherwise the stored id, or NEW_NOTE_ID when it is unset |
| UserPreferences.IOFailureReadsAsEmpty | app/src/main/java/com/kbarber34/ivynotes/data/UserPreferencesRepository.kt:62-68 | each of the five getters reads the same after an I/O failure as from an empty store |
| UserPreferences.TextSizeWriteIsolated | app/src/main/java/com/kbarber34/ivynotes/data/UserPreferencesRepository.kt:30-34 | a written text size reads back exactly; the other four preferences read as before |
| UserPreferences.ColorSchemeWriteIsolated | app/src/main/java/com/kbarber34/ivynotes/data/UserPreferencesRepository.kt:36-40 | a written scheme reads back exactly; the other four preferences read as before |
| UserPreferences.SelectedFontWriteIsolated | app/src/main/java/com/kbarber34/ivynotes/data/UserPreferencesRepository.kt:42-46 | a written font reads back exactly; the other four preferences read as before |
| UserPreferences.ShowFavoritesWriteIsolated | app/src/main/java/com/kbarber34/ivynotes/data/UserPreferencesRepository.kt:48-52 | a written flag reads back exactly; the other four preferences read as before |
| UserPreferences.CurrentNoteIdWriteIsolated | app/src/main/java/com/kbarber34/ivynotes/data/UserPreferencesRepository.kt:54-58 | a written note id reads back exactly; the other four preferences read as before |
| UserPreferences.UserPreferencesRepository.constructor | app/src/main/java/com/kbarber34/ivynotes/data/UserPreferencesRepository.kt:19 | the repository starts over the given store contents |
| UserPreferences.UserPreferencesRepository.SaveTextSizePreference | app/src/main/java/com/kbarber34/ivynotes/data/UserPreferencesRepository.kt:30-34 | only the text size key is set |
| UserPreferences.UserPreferencesRepository.SaveColorSchemePreference | app/src/main/java/com/kbarber34/ivynotes/data/UserPreferencesRepository.kt:36-40 | only the colour scheme key is set |
| UserPreferences.UserPreferencesRepository.SaveSelectedFontPreference | app/src/main/java/com/kbarber34/ivynotes/data/UserPreferencesRepository.kt:42-46 | only the font key is set |
| UserPreferences.UserPreferencesRepository.SaveShowFavoritesPreference | app/src/main/java/com/kbarber34/ivynotes/data/UserPreferencesRepository.kt:48-52 | only the show-favourites key is set |
| UserPreferences.UserPreferencesRepository.SetCurrentNoteId | app/src/main/java/com/kbarber34/ivynotes/data/UserPreferencesRepository.kt:54-58 | only the current-note-id key is set |
| ViewModel.Snapshot | app/src/main/java/com/kbarber34/ivynotes/ui/NoteViewModel.kt:36-42 | the snapshot is always valid; each enum value is kept exactly when it is valid and is otherwise replaced by its default; the other two values pass through |
| ViewModel.UiState | app/src/main/java/com/kbarber34/ivynotes/ui/NoteViewModel.kt:30-47 | a non-I/O failure alone yields nothing; a successful read gives the snapshot of the stored values, each unset one replaced by its getter's default; an I/O failure gives the initial snapshot; every emitted snapshot is valid |
| ViewModel.DefaultUiStateIsStable | app/src/main/java/com/kbarber34/ivynotes/ui/NoteViewModel.kt:146-153 | `NotesUiState()` (`DefaultUiState`) is valid, and validating it changes nothing |
| ViewModel.EmptyStoreShowsDefaults | app/src/main/java/com/kbarber34/ivynotes/ui/NoteViewModel.kt:30-47 | an empty store, or an I/O failure, shows the initial snapshot; the unset font is not itself a valid id |
| ViewModel.GetNoteById | app/src/main/java/com/kbarber34/ivynotes/ui/NoteViewModel.kt:60-66 | a non-positive id gives a fresh draft; a positive id gives the stored row if there is one |
| ViewModel.ToggleFavoriteEffect | app/src/main/java/com/kbarber34/ivynotes/ui/NoteViewModel.kt:75-88 | a note with a non-positive id is flipped in memory and upserted, and the id the upsert hands back becomes the current note id: for an unstored id, the key of the new row, which was not in the table (a fresh positive key for id 0, the note's own id otherwise), with no other row changed; for a non-positive id already stored, -1, with only that row replaced. A note with a positive id gets only its favourite column set to the negation of the caller's flag, and the preferences are unchanged |
| ViewModel.ToggleTwiceWithRereadRestores | app/src/main/java/com/kbarber34/ivynotes/ui/NoteViewModel.kt:75-88 | toggling a stored note, reading it back and toggling again restores both stores exactly |
| ViewModel.ToggleTwiceStaleRepeats | app/src/main/java/com/kbarber34/ivynotes/ui/NoteViewModel.kt:75-88 | toggling the same stale copy of a stored note twice is the same as toggling it once |
| ViewModel.ToggleDraftTwiceInsertsTwice | app/src/main/java/com/kbarber34/ivynotes/ui/NoteViewModel.kt:78-81 | toggling the same in-memory draft twice inserts two distinct rows with opposite flags, and the draft keeps id 0 |
| ViewModel.SaveThenGetById | app/src/main/java/com/kbarber34/ivynotes/ui/NoteViewModel.kt:60-72 | after a save, reading back the returned positive id gives the stamped note |
| ViewModel.ResaveAddsNoRow | app/src/main/java/com/kbarber34/ivynotes/ui/NoteViewModel.kt:69-72 | re-saving a stored note keeps the keys and count and restamps the row |
| ViewModel.DeleteMissingChangesNothing | app/src/main/java/com/kbarber34/ivynotes/data/NoteDao.kt:28-29 | deleting an id with no row leaves the table unchanged |
| ViewModel.NewNoteTypedThenSaved | app/src/main/java/com/kbarber34/ivynotes/EditNoteActivity.kt:110-118 | opening a new note, typing and saving stores exactly one new row with that text, not favourited |
| ViewModel.NoteViewModel.constructor | app/src/main/java/com/kbarber34/ivynotes/ui/NoteViewModel.kt:25-28 | the view model holds the given repository and DAO |
| ViewModel.NoteViewModel.SaveNote | app/src/main/java/com/kbarber34/ivynotes/ui/NoteViewModel.kt:69-72 | the note is stamped with the given time, then upserted |
| ViewModel.NoteViewModel.ToggleFavorite | app/src/main/java/com/kbarber34/ivynotes/ui/NoteViewModel.kt:75-88 | the new stores and the caller's note are those of `ToggleFavoriteEffect` |
| ViewModel.NoteViewModel.DeleteNote | app/src/main/java/com/kbarber34/ivynotes/ui/NoteViewModel.kt:91-93 | a non-positive id changes nothing; a positive id deletes that row |
| ViewModel.NoteViewModel.ExitEditor | app/src/main/java/com/kbarber34/ivynotes/EditNoteActivity.kt:110-118 | leaving the editor saves the note only if it was edited |
| ViewModel.NoteViewModel.SaveTextSizePreference | app/src/main/java/com/kbarber34/ivynotes/ui/NoteViewModel.kt:99-103 | only the text size key is set |
| ViewModel.NoteViewModel.SaveColorSchemePreference | app/src/main/java/com/kbarber34/ivynotes/ui/NoteViewModel.kt:105-109 | only the colour scheme key is set |
| ViewModel.NoteViewModel.SaveSelectedFontPreference | app/src/main/java/com/kbarber34/ivynotes/ui/NoteViewModel.kt:111-115 | only the font key is set |
| ViewModel.NoteViewModel.SaveShowFavoritesPreference | app/src/main/java/com/kbarber34/ivynotes/ui/NoteViewModel.kt:117-121 | only the show-favourites key is set |
| ViewModel.NoteViewModel.SetCurrentNoteId | app/src/main/java/com/kbarber34/ivynotes/ui/NoteViewModel.kt:124-128 | only the current-note-id key is set |

## Left out

- Flows and coroutines. `Flow` emission, `stateIn`, the `WhileSubscribed(5_000)` timeout and `viewModelScope.launch` are not modelled. Each read is a function of one snapshot of the stores, and each write takes effect at once and in order.
- Clock. `System.currentTimeMillis()` is the parameter `now`.
- Logging. The `Log.e` call on an I/O failure is not modelled.
- Integer widths. `Int` and `Long` are not bounded. `newId.toInt()` would truncate an id above 2^31-1, and the model does not capture that.
- `getAllNotes` / `getFavoriteNotes` on the view model (NoteViewModel.kt lines 54 and 57) pass straight through to the DAO. `NoteTable.AllNotes` and `NoteTable.FavoriteNotes` model both layers.
- NoteTable.First: SQL leaves the order of rows with equal timestamps unspecified. The model fixes it by ascending id.
- Write failures. NoteTable.NoteDao.SaveNote, NoteTable.NoteDao.ToggleFavorite, NoteTable.NoteDao.DeleteNote and the five `UserPreferencesRepository` writes always succeed in the model. In the app, Room's upsert, update and delete and `dataStore.edit` can throw, and the exception propagates. One consequence is not captured: when the insert fails, `toggleFavorite` on a draft has already flipped the caller's note, yet no row is written and `currentNoteId` is not set.
- Caller mutation. Changes to the caller's `Note` object are modelled as returned values: `stamped`, `toggled` and `after`. Aliasing of that object between screens is not captured.
- Failures other than I/O. A read failure other than `IOException` is rethrown and ends the flow. The model represents this as `None`.
- The Android resource ids are stand-in constants. Their actual values are generated at build time. The model relies only on their being distinct and non-zero: zero is the unset-font default, which must not be a valid font id.
- Dimension and font resources. What they resolve to (a size in sp, a typeface) is not modelled. `FontFamily` is a four-way enum.
- Other parts of the app. The activities and Compose UI, `NoteDatabase` (Room setup), `IvyNotesApplication` and `NoteDataUtils` are not part of this model. The only exception is the editor's save-on-back rule, which `ExitEditor` models.
