/**
 * The Notes table behind `NoteDao`: rows keyed by their id, plus the
 * auto-increment counter that supplies fresh ids.
 *
 * The pure functions on `Table` state what each DAO query and write does;
 * the class `NoteDao` holds the table and performs the writes in place.
 */
module NoteTable {
  import opened Wrappers
  import opened Notes

  /** Every row is stored under its own id. */
  predicate KeyedById(rows: map<int, Note>) {
    forall k :: k in rows ==> rows[k].id == k
  }

  /**
   * The table state. `nextId` is the id the next auto-generated insert gets:
   * one more than the largest id ever inserted (the `autoGenerate` key is an
   * AUTOINCREMENT column, so a deleted id is never handed out again).
   */
  datatype Table = Table(rows: map<int, Note>, nextId: int) {
    ghost predicate Valid() {
      && nextId > NEW_NOTE_ID
      && KeyedById(rows)
      && forall k :: k in rows ==> k != NEW_NOTE_ID && k < nextId
    }
  }

  const EmptyTable: Table := Table(map[], NEW_NOTE_ID + 1)

  /** The result of an upsert: the new table and the id the row is stored under. */
  datatype UpsertResult = UpsertResult(table: Table, id: int)

  // --------------------------------------------------------------- queries

  /** `getNoteById`: the row with that id, or nothing (the flow emits null). */
  function GetNoteById(t: Table, noteId: int): (r: Option<Note>)
    requires t.Valid()
    ensures r.Some? <==> noteId in t.rows
    ensures r.Some? ==> r.value == t.rows[noteId] && r.value.id == noteId
  {
    if noteId in t.rows then Some(t.rows[noteId]) else None
  }

  /** Row `k` comes no later than any other row under ORDER BY modified_timestamp DESC (ties: smaller id first). */
  predicate IsFirst(rows: map<int, Note>, k: int) {
    && k in rows
    && forall j :: j in rows ==>
         rows[j].modifiedTimestamp < rows[k].modifiedTimestamp
         || (rows[j].modifiedTimestamp == rows[k].modifiedTimestamp && k <= j)
  }

  /** A map with no keys is the empty map. */
  lemma NoKeysMeansEmpty(rows: map<int, Note>)
    ensures (forall k :: k !in rows) ==> rows == map[]
  {
    if forall k :: k !in rows {
      var empty: map<int, Note> := map[];
      assert rows.Keys == empty.Keys;
    }
  }

  lemma SomeKey(rows: map<int, Note>) returns (x: int)
    requires rows != map[]
    ensures x in rows
  {
    NoKeysMeansEmpty(rows);
    x :| x in rows;
  }

  lemma {:induction false} FirstExists(rows: map<int, Note>)
    requires rows != map[]
    ensures exists k :: IsFirst(rows, k)
    decreases rows.Keys
  {
    var x := SomeKey(rows);
    var rest := rows - {x};
    if rest == map[] {
      forall j | j in rows ensures j == x {
        assert j !in rest;
      }
      assert IsFirst(rows, x);
    } else {
      FirstExists(rest);
      var k :| IsFirst(rest, k);
      if rows[x].modifiedTimestamp > rows[k].modifiedTimestamp
         || (rows[x].modifiedTimestamp == rows[k].modifiedTimestamp && x <= k) {
        forall j | j in rows
          ensures rows[j].modifiedTimestamp < rows[x].modifiedTimestamp
                  || (rows[j].modifiedTimestamp == rows[x].modifiedTimestamp && x <= j)
        {
          if j != x { assert j in rest; }
        }
        assert IsFirst(rows, x);
      } else {
        forall j | j in rows
          ensures rows[j].modifiedTimestamp < rows[k].modifiedTimestamp
                  || (rows[j].modifiedTimestamp == rows[k].modifiedTimestamp && k <= j)
        {
          if j != x { assert j in rest; }
        }
        assert IsFirst(rows, k);
      }
    }
  }

  /** The key of the row that the ordered scan emits first. */
  function First(rows: map<int, Note>): (k: int)
    requires rows != map[]
    ensures IsFirst(rows, k)
  {
    FirstExists(rows);
    var k :| k in rows && IsFirst(rows, k);
    k
  }

  /** `SELECT * ... ORDER BY modified_timestamp DESC` over the given rows. */
  function Listing(rows: map<int, Note>): (r: seq<Note>)
    ensures |r| == |rows|
    decreases rows.Keys
  {
    if rows == map[] then []
    else
      var k := First(rows);
      assert rows.Keys == (rows - {k}).Keys + {k};
      [rows[k]] + Listing(rows - {k})
  }

  /** The ordered scan emits every row, only rows, and each row once. */
  lemma ListingHasEachRowOnce(rows: map<int, Note>)
    requires KeyedById(rows)
    ensures forall n :: n in Listing(rows) ==> n.id in rows && rows[n.id] == n
    ensures forall k :: k in rows ==> rows[k] in Listing(rows)
    ensures forall i, j :: 0 <= i < j < |Listing(rows)| ==> Listing(rows)[i].id != Listing(rows)[j].id
  {
    ListingOnlyRows(rows);
    ListingAllRows(rows);
    ListingIdsDistinct(rows);
  }

  lemma {:induction false} ListingOnlyRows(rows: map<int, Note>)
    requires KeyedById(rows)
    ensures forall n :: n in Listing(rows) ==> n.id in rows && rows[n.id] == n
    decreases rows.Keys
  {
    if rows != map[] {
      var k := First(rows);
      ListingOnlyRows(rows - {k});
      assert Listing(rows) == [rows[k]] + Listing(rows - {k});
    }
  }

  lemma {:induction false} ListingAllRows(rows: map<int, Note>)
    ensures forall k :: k in rows ==> rows[k] in Listing(rows)
    decreases rows.Keys
  {
    if rows != map[] {
      var k := First(rows);
      var rest := rows - {k};
      ListingAllRows(rest);
      var s := Listing(rows);
      assert s == [rows[k]] + Listing(rest);
      forall k' | k' in rows ensures rows[k'] in s {
        if k' != k { assert rest[k'] == rows[k']; }
      }
    }
  }

  lemma {:induction false} ListingIdsDistinct(rows: map<int, Note>)
    requires KeyedById(rows)
    ensures forall i, j :: 0 <= i < j < |Listing(rows)| ==> Listing(rows)[i].id != Listing(rows)[j].id
    decreases rows.Keys
  {
    if rows != map[] {
      var k := First(rows);
      var rest := rows - {k};
      ListingIdsDistinct(rest);
      ListingOnlyRows(rest);
      var s := Listing(rows);
      assert s == [rows[k]] + Listing(rest);
      forall i, j | 0 <= i < j < |s| ensures s[i].id != s[j].id {
        assert s[j] == Listing(rest)[j - 1];
        assert s[j] in Listing(rest);
        if i > 0 { assert s[i] == Listing(rest)[i - 1]; }
      }
    }
  }

  /** The ordered scan emits timestamps in non-increasing order. */
  lemma {:induction false} ListingIsNewestFirst(rows: map<int, Note>)
    requires KeyedById(rows)
    ensures forall i, j :: 0 <= i < j < |Listing(rows)| ==>
              Listing(rows)[i].modifiedTimestamp >= Listing(rows)[j].modifiedTimestamp
    decreases rows.Keys
  {
    if rows != map[] {
      var k := First(rows);
      var rest := rows - {k};
      ListingIsNewestFirst(rest);
      ListingHasEachRowOnce(rest);
      var s := Listing(rows);
      assert s == [rows[k]] + Listing(rest);
      forall i, j | 0 <= i < j < |s| ensures s[i].modifiedTimestamp >= s[j].modifiedTimestamp {
        var n := Listing(rest)[j - 1];
        assert n in Listing(rest);
        assert s[j] == n && n.id in rows && rows[n.id] == n;
      }
    }
  }

  /** The rows whose `favorited` column is true. */
  function FavoriteRows(rows: map<int, Note>): (f: map<int, Note>)
    ensures forall k :: k in f <==> k in rows && rows[k].favorited
    ensures forall k :: k in f ==> f[k] == rows[k]
  {
    map k | k in rows && rows[k].favorited :: rows[k]
  }

  /** The favourited notes of a sequence, in their order there. */
  function FavoritesOf(s: seq<Note>): (r: seq<Note>)
    ensures forall i :: 0 <= i < |r| ==> r[i].favorited && r[i] in s
    ensures forall i :: 0 <= i < |s| && s[i].favorited ==> s[i] in r
  {
    if s == [] then []
    else (if s[0].favorited then [s[0]] else []) + FavoritesOf(s[1..])
  }

  /** `getAllNotes`: every stored row exactly once, newest first. */
  function AllNotes(t: Table): (r: seq<Note>)
    requires t.Valid()
    ensures |r| == |t.rows|
    ensures forall k :: k in t.rows ==> t.rows[k] in r
    ensures forall n :: n in r ==> n.id in t.rows && t.rows[n.id] == n
    ensures forall i, j :: 0 <= i < j < |r| ==>
              r[i].id != r[j].id && r[i].modifiedTimestamp >= r[j].modifiedTimestamp
  {
    ListingHasEachRowOnce(t.rows);
    ListingIsNewestFirst(t.rows);
    Listing(t.rows)
  }

  /**
   * `getFavoriteNotes`: the listing of `getAllNotes` with the unfavourited
   * notes dropped, order kept.
   */
  function FavoriteNotes(t: Table): (r: seq<Note>)
    requires t.Valid()
    ensures r == FavoritesOf(AllNotes(t))
    ensures forall n :: n in r <==> n in AllNotes(t) && n.favorited
  {
    FavoritesAreFilteredListing(t.rows);
    Listing(FavoriteRows(t.rows))
  }

  /**
   * `getFavoriteNotes` is `getAllNotes` with the unfavourited rows dropped:
   * the same rows in the same relative order.
   */
  lemma {:induction false} FavoritesAreFilteredListing(rows: map<int, Note>)
    requires KeyedById(rows)
    ensures Listing(FavoriteRows(rows)) == FavoritesOf(Listing(rows))
    decreases rows.Keys
  {
    if rows == map[] {
      assert FavoriteRows(rows) == map[];
    } else {
      var k := First(rows);
      FavoritesAreFilteredListing(rows - {k});
      if rows[k].favorited {
        FavoritedFirstStep(rows, k);
      } else {
        UnfavoritedFirstStep(rows, k);
      }
    }
  }

  /** Inductive step when the newest row is a favourite: it heads both listings. */
  lemma FavoritedFirstStep(rows: map<int, Note>, k: int)
    requires rows != map[] && k == First(rows) && rows[k].favorited
    requires Listing(FavoriteRows(rows - {k})) == FavoritesOf(Listing(rows - {k}))
    ensures Listing(FavoriteRows(rows)) == FavoritesOf(Listing(rows))
  {
    FirstOfFavorites(rows, k);
    FavoriteRowsWithout(rows, k);
    var s := Listing(rows);
    assert s == [rows[k]] + Listing(rows - {k});
    assert s[1..] == Listing(rows - {k});
    assert Listing(FavoriteRows(rows)) == [rows[k]] + Listing(FavoriteRows(rows - {k}));
    assert FavoritesOf(s) == [s[0]] + FavoritesOf(s[1..]);
  }

  /** Inductive step when the newest row is not a favourite: it is skipped by both. */
  lemma UnfavoritedFirstStep(rows: map<int, Note>, k: int)
    requires rows != map[] && k == First(rows) && !rows[k].favorited
    requires Listing(FavoriteRows(rows - {k})) == FavoritesOf(Listing(rows - {k}))
    ensures Listing(FavoriteRows(rows)) == FavoritesOf(Listing(rows))
  {
    FavoriteRowsWithout(rows, k);
    var s := Listing(rows);
    assert s[0] == rows[k] && s[1..] == Listing(rows - {k});
    assert FavoritesOf(s) == FavoritesOf(s[1..]);
  }

  /** Dropping a row commutes with keeping the favourites. */
  lemma FavoriteRowsWithout(rows: map<int, Note>, k: int)
    requires k in rows
    ensures FavoriteRows(rows) - {k} == FavoriteRows(rows - {k})
    ensures !rows[k].favorited ==> FavoriteRows(rows) == FavoriteRows(rows - {k})
  {
    assert (FavoriteRows(rows) - {k}).Keys == FavoriteRows(rows - {k}).Keys;
    if !rows[k].favorited {
      assert FavoriteRows(rows).Keys == FavoriteRows(rows - {k}).Keys;
    }
  }

  /** The newest row, when it is a favourite, is also the newest favourite. */
  lemma FirstOfFavorites(rows: map<int, Note>, k: int)
    requires rows != map[] && k == First(rows) && rows[k].favorited
    ensures k in FavoriteRows(rows) && First(FavoriteRows(rows)) == k
  {
    var f := FavoriteRows(rows);
    assert IsFirst(f, k);
    FirstUnique(f, k, First(f));
  }

  lemma FirstUnique(rows: map<int, Note>, k1: int, k2: int)
    requires IsFirst(rows, k1) && IsFirst(rows, k2)
    ensures k1 == k2
  {
  }

  // ---------------------------------------------------------------- writes

  /**
   * `@Upsert saveNote`. A note with id 0 is inserted under a fresh id (Room
   * binds 0 as NULL and the database assigns the key); a note with any other
   * id replaces the row with that id, or is inserted under it.
   */
  function Upsert(t: Table, note: Note): (r: UpsertResult)
    requires t.Valid()
    ensures r.table.Valid()
    ensures r.id in r.table.rows && r.table.rows[r.id] == note.(id := r.id)
    ensures note.id == NEW_NOTE_ID ==> r.id > 0 && r.id !in t.rows
    ensures note.id != NEW_NOTE_ID ==> r.id == note.id
    ensures note.id == NEW_NOTE_ID ==> r.id == t.nextId
    ensures r.table.nextId >= t.nextId && r.table.nextId > r.id
    ensures r.table.rows.Keys == t.rows.Keys + {r.id}
    ensures forall k :: k in t.rows && k != r.id ==> r.table.rows[k] == t.rows[k]
  {
    if note.id == NEW_NOTE_ID then
      var id := t.nextId;
      UpsertResult(Table(t.rows[id := note.(id := id)], id + 1), id)
    else
      var next := if note.id < t.nextId then t.nextId else note.id + 1;
      UpsertResult(Table(t.rows[note.id := note], next), note.id)
  }

  /**
   * The id `@Upsert` hands back: the key of the new row when it inserts, and
   * -1 when the id is already stored and it updates that row instead.
   */
  function UpsertReturnedId(t: Table, note: Note): (r: int)
    requires t.Valid()
    ensures note.id in t.rows ==> r == -1
    ensures note.id !in t.rows ==> r == Upsert(t, note).id && r !in t.rows
  {
    if note.id in t.rows then -1 else Upsert(t, note).id
  }

  /** `UPDATE Notes SET favorited = :favorited WHERE id = :id`: at most one row changes, in one column. */
  function SetFavorited(t: Table, id: int, favorited: bool): (r: Table)
    requires t.Valid()
    ensures r.Valid()
    ensures r.nextId == t.nextId && r.rows.Keys == t.rows.Keys
    ensures id in t.rows ==> r.rows[id] == t.rows[id].(favorited := favorited)
    ensures forall k :: k in t.rows && k != id ==> r.rows[k] == t.rows[k]
  {
    if id in t.rows then Table(t.rows[id := t.rows[id].(favorited := favorited)], t.nextId) else t
  }

  /** `@Delete deleteNote`: removes the row whose key is the note's id, if any. */
  function Delete(t: Table, note: Note): (r: Table)
    requires t.Valid()
    ensures r.Valid()
    ensures r.nextId == t.nextId && r.rows.Keys == t.rows.Keys - {note.id}
    ensures forall k :: k in r.rows ==> r.rows[k] == t.rows[k]
    ensures GetNoteById(r, note.id).None?
  {
    Table(t.rows - {note.id}, t.nextId)
  }

  /** The id 0 of a draft is never the key of a stored row. */
  lemma DraftIdNeverStored(t: Table)
    requires t.Valid()
    ensures GetNoteById(t, DraftNote.id).None?
  {
  }

  /** An upsert of an already stored id keeps the row count. */
  lemma UpsertStoredIdKeepsCount(t: Table, note: Note)
    requires t.Valid() && note.id in t.rows
    ensures |Upsert(t, note).table.rows| == |t.rows|
  {
  }

  /** AUTOINCREMENT: a key freed by a delete is not handed to the next new note. */
  lemma DeletedKeyNotReused(t: Table, note: Note, draft: Note)
    requires t.Valid() && note.id in t.rows && draft.id == NEW_NOTE_ID
    ensures Upsert(Delete(t, note), draft).id != note.id
  {
  }

  /** An upsert of a draft adds exactly one row. */
  lemma UpsertDraftAddsOneRow(t: Table, note: Note)
    requires t.Valid() && note.id == NEW_NOTE_ID
    ensures |Upsert(t, note).table.rows| == |t.rows| + 1
  {
  }

  // ----------------------------------------------------------------- class

  /** The DAO with its table held in place. */
  class NoteDao {
    var rows: map<int, Note>
    var nextId: int

    function State(): Table
      reads this
    {
      Table(rows, nextId)
    }

    ghost predicate Valid()
      reads this
    {
      State().Valid()
    }

    constructor ()
      ensures Valid() && State() == EmptyTable
    {
      rows := map[];
      nextId := NEW_NOTE_ID + 1;
    }

    method SaveNote(note: Note) returns (id: int)
      requires Valid()
      modifies this
      ensures Valid()
      ensures State() == Upsert(old(State()), note).table
      ensures id == UpsertReturnedId(old(State()), note)
    {
      if note.id == NEW_NOTE_ID {
        id := nextId;
        rows := rows[id := note.(id := id)];
        nextId := nextId + 1;
      } else {
        id := if note.id in rows then -1 else note.id;
        rows := rows[note.id := note];
        if nextId <= note.id {
          nextId := note.id + 1;
        }
      }
    }

    method ToggleFavorite(id: int, favorited: bool)
      requires Valid()
      modifies this
      ensures Valid()
      ensures State() == SetFavorited(old(State()), id, favorited)
    {
      if id in rows {
        rows := rows[id := rows[id].(favorited := favorited)];
      }
    }

    method DeleteNote(note: Note)
      requires Valid()
      modifies this
      ensures Valid()
      ensures State() == Delete(old(State()), note)
    {
      rows := rows - {note.id};
    }
  }
}
