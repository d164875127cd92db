/**
 * The artist table and `ArtistService` (service/src/artist.rs), with the table
 * held in memory. A row carries the columns of the artist entity: an id the
 * database assigns on insert, a name, a path and an optional folder checksum.
 * Ids come from an auto-incrementing counter: every insert takes the next
 * value, so ids grow along the table and are never reused.
 */
module Artists {
  import opened Common

  datatype Artist = Artist(id: int, name: string, path: string, checksum: Option<string>)

  /** The body of `ArtistService::create`. */
  datatype ArtistCreate = ArtistCreate(name: string, path: string, checksum: Option<string>)

  /** The body of `ArtistService::alter`: a field that is `None` is left as it was. */
  datatype ArtistAlter = ArtistAlter(name: Option<string>, path: Option<string>, checksum: Option<string>)

  /** The ids of the rows, in table order. */
  function Ids(rows: seq<Artist>): (r: seq<int>)
    ensures |r| == |rows| && forall i :: 0 <= i < |rows| ==> r[i] == rows[i].id
  {
    seq(|rows|, i requires 0 <= i < |rows| => rows[i].id)
  }

  /** The ids come from the table's auto-incrementing counter. */
  predicate TableOk(rows: seq<Artist>, nextId: int) {
    IdsOk(Ids(rows), nextId)
  }

  /** The row `create` inserts when the counter stands at `id`. */
  function NewArtist(id: int, body: ArtistCreate): Artist {
    Artist(id, body.name, body.path, body.checksum)
  }

  /** `get_by_id`: the row with primary key `id`, or `None` when there is none. */
  function FindById(rows: seq<Artist>, id: int): (r: Option<Artist>)
    ensures r.Some? ==> r.value in rows && r.value.id == id
    ensures r.None? <==> forall a :: a in rows ==> a.id != id
  {
    match IndexOf(Ids(rows), id)
    case None => None
    case Some(k) => Some(rows[k])
  }

  /** In a well-formed table the row at position `k` is the one `get_by_id` finds for its id. */
  lemma {:induction false} FindByIdAt(rows: seq<Artist>, nextId: int, k: int)
    requires TableOk(rows, nextId) && 0 <= k < |rows|
    ensures FindById(rows, rows[k].id) == Some(rows[k])
  {
    IndexOfAt(Ids(rows), nextId, k);
  }

  /** Inserting a row with the next id keeps the table well formed; no row had that id before. */
  lemma {:induction false} CreateKeepsTableOk(rows: seq<Artist>, nextId: int, body: ArtistCreate)
    requires TableOk(rows, nextId)
    ensures TableOk(rows + [NewArtist(nextId, body)], nextId + 1)
    ensures FindById(rows, nextId) == None
  {
    assert Ids(rows + [NewArtist(nextId, body)]) == Ids(rows) + [nextId];
    IdsOkInsert(Ids(rows), nextId);
  }

  /** Whether the row's name contains `n`: the filter of `get_by_name` and `exists`. */
  predicate NameMatches(a: Artist, n: string) {
    Contains(a.name, n)
  }

  /**
   * `get_by_name`: one row whose name contains `n`. The query has no ordering,
   * so the model takes the first such row in table order.
   */
  function GetByName(rows: seq<Artist>, n: string): (r: Option<Artist>)
    ensures r.Some? ==> r.value in rows && NameMatches(r.value, n)
    ensures r.None? <==> forall a :: a in rows ==> !NameMatches(a, n)
    decreases |rows|
  {
    if rows == [] then None
    else if NameMatches(rows[0], n) then Some(rows[0])
    else GetByName(rows[1..], n)
  }

  /** `exists`: the number of rows whose name contains `n` is positive. */
  function Exists(rows: seq<Artist>, n: string): (b: bool) {
    |Filter(rows, (a: Artist) => NameMatches(a, n))| > 0
  }

  /** `exists(n)` holds exactly when some name contains `n`, that is, when `get_by_name(n)` finds a row. */
  lemma {:induction false} ExistsIffGetByName(rows: seq<Artist>, n: string)
    ensures Exists(rows, n) <==> exists a :: a in rows && NameMatches(a, n)
    ensures Exists(rows, n) <==> GetByName(rows, n).Some?
  {
    var m := Filter(rows, (a: Artist) => NameMatches(a, n));
    if |m| > 0 {
      assert m[0] in m;
    }
    if a :| a in rows && NameMatches(a, n) {
      assert a in m;
    }
  }

  /** Every name contains the empty string, so `exists("")` holds exactly when the table is not empty. */
  lemma {:induction false} ExistsEmptyName(rows: seq<Artist>)
    ensures Exists(rows, "") <==> rows != []
  {
    if rows != [] {
      assert OccursAt(rows[0].name, "", 0);
      assert NameMatches(rows[0], "");
    }
    ExistsIffGetByName(rows, "");
  }

  /**
   * The row `alter` writes back: each field of the body that is `Some` replaces
   * the stored one, the others and the id are kept.
   */
  function Merge(a: Artist, body: ArtistAlter): Artist {
    var name := if body.name.Some? then body.name.value else a.name;
    var path := if body.path.Some? then body.path.value else a.path;
    var checksum := if body.checksum.Some? then Some(body.checksum.value) else a.checksum;
    Artist(a.id, name, path, checksum)
  }

  /** A checksum, once stored, is never reset to `None` by `alter`; a given checksum is stored. */
  lemma {:induction false} MergeKeepsChecksum(a: Artist, body: ArtistAlter)
    ensures Merge(a, body).id == a.id
    ensures a.checksum.Some? ==> Merge(a, body).checksum.Some?
    ensures body.checksum.Some? ==> Merge(a, body).checksum == body.checksum
    ensures body.checksum.None? ==> Merge(a, body).checksum == a.checksum
  {
  }

  /** An alteration with every field `None` changes nothing. */
  lemma {:induction false} MergeNothing(a: Artist)
    ensures Merge(a, ArtistAlter(None, None, None)) == a
  {
  }

  /** Applying the same alteration twice is the same as applying it once. */
  lemma {:induction false} MergeIdempotent(a: Artist, body: ArtistAlter)
    ensures Merge(Merge(a, body), body) == Merge(a, body)
  {
  }

  /** A checksum-only alteration, as the scanner issues it, keeps the name and the path. */
  lemma {:induction false} ChecksumOnlyKeepsNameAndPath(a: Artist, c: string)
    ensures Merge(a, ArtistAlter(None, None, Some(c))) == a.(checksum := Some(c))
  {
  }

  /**
   * The table after `alter(id, body)`: `None` when no row has that id (the
   * `unwrap` of the lookup panics), else the table with that row merged.
   */
  function AlterRows(rows: seq<Artist>, id: int, body: ArtistAlter): (r: Option<seq<Artist>>)
    ensures r.None? <==> FindById(rows, id).None?
    ensures r.Some? ==> |r.value| == |rows|
  {
    match IndexOf(Ids(rows), id)
    case None => None
    case Some(k) => Some(rows[k := Merge(rows[k], body)])
  }

  /** `alter` changes only the row with that id, only in the fields given, and keeps the table well formed. */
  lemma {:induction false} AlterRowsEffect(rows: seq<Artist>, nextId: int, id: int, body: ArtistAlter)
    requires TableOk(rows, nextId) && FindById(rows, id).Some?
    ensures AlterRows(rows, id, body).Some?
    ensures TableOk(AlterRows(rows, id, body).value, nextId)
    ensures forall i :: 0 <= i < |rows| ==>
      AlterRows(rows, id, body).value[i] == if rows[i].id == id then Merge(rows[i], body) else rows[i]
  {
    var k := IndexOf(Ids(rows), id).value;
    forall i | 0 <= i < |rows| && rows[i].id == id ensures i == k {
      IndexOfAt(Ids(rows), nextId, i);
    }
    assert Ids(AlterRows(rows, id, body).value) == Ids(rows);
  }

  /** The in-memory stand-in for `ArtistService`: the artist table and its id counter. */
  class ArtistService {
    var rows: seq<Artist>
    var nextId: int

    predicate Valid()
      reads this
    {
      TableOk(rows, nextId)
    }

    /** A service over an empty table. */
    constructor ()
      ensures Valid() && rows == [] && nextId == 1
    {
      rows := [];
      nextId := 1;
    }

    /** `get_all`: every row, in table order. */
    method GetAll() returns (all: seq<Artist>)
      ensures all == rows
    {
      all := rows;
    }

    /** `create`: one new row with the body's fields and a fresh id; every other row stays. */
    method Create(body: ArtistCreate) returns (row: Artist)
      requires Valid()
      modifies this
      ensures Valid()
      ensures row == NewArtist(old(nextId), body) && FindById(old(rows), row.id) == None
      ensures rows == old(rows) + [row] && nextId == old(nextId) + 1
    {
      CreateKeepsTableOk(rows, nextId, body);
      row := Artist(nextId, body.name, body.path, body.checksum);
      rows := rows + [row];
      nextId := nextId + 1;
    }

    /**
     * `alter`: loads the row with that id, overwrites the fields the body
     * gives, one by one, and writes the row back. With no such row the lookup's
     * `unwrap` panics: the result is `None` and nothing changes.
     */
    method Alter(id: int, body: ArtistAlter) returns (r: Option<Artist>)
      requires Valid()
      modifies this
      ensures Valid() && nextId == old(nextId)
      ensures r.None? <==> FindById(old(rows), id).None?
      ensures r.None? ==> rows == old(rows)
      ensures r.Some? ==> r == Some(Merge(FindById(old(rows), id).value, body))
      ensures r.Some? ==> Some(rows) == AlterRows(old(rows), id, body)
    {
      var k := IndexOf(Ids(rows), id);
      if k.None? {
        return None;
      }
      AlterRowsEffect(rows, nextId, id, body);
      var artist := rows[k.value];
      if body.name.Some? {
        artist := artist.(name := body.name.value);
      }
      if body.path.Some? {
        artist := artist.(path := body.path.value);
      }
      if body.checksum.Some? {
        artist := artist.(checksum := Some(body.checksum.value));
      }
      rows := rows[k.value := artist];
      r := Some(artist);
    }
  }
}
