/**
 * The album table and `AlbumService` (service/src/album.rs), with the table
 * held in memory. A row carries an id the database assigns on insert, a
 * title, a path, a release year and the id of the artist it belongs to.
 */
module Albums {
  import opened Common

  datatype Album = Album(id: int, title: string, path: string, releaseYear: int, artistId: int)

  /** The body of `AlbumService::create`. */
  datatype AlbumCreate = AlbumCreate(title: string, path: string, releaseYear: int, artistId: int)

  /** The ids of the rows, in table order. */
  function Ids(rows: seq<Album>): (r: seq<int>)
    ensures |r| == |rows| && forall i :: 0 <= i < |rows| ==> r[i] == rows[i].id
  {
    seq(|rows|, i requires 0 <= i < |rows| => rows[i].id)
  }

  /** The ids come from the table's auto-incrementing counter. */
  predicate TableOk(rows: seq<Album>, nextId: int) {
    IdsOk(Ids(rows), nextId)
  }

  /** The row `create` inserts when the counter stands at `id`. */
  function NewAlbum(id: int, body: AlbumCreate): Album {
    Album(id, body.title, body.path, body.releaseYear, body.artistId)
  }

  /** `get_by_id`: the row with primary key `id`, or `None` when there is none. */
  function FindById(rows: seq<Album>, id: int): (r: Option<Album>)
    ensures r.Some? ==> r.value in rows && r.value.id == id
    ensures r.None? <==> forall a :: a in rows ==> a.id != id
  {
    match IndexOf(Ids(rows), id)
    case None => None
    case Some(k) => Some(rows[k])
  }

  /** In a well-formed table the row at position `k` is the one `get_by_id` finds for its id. */
  lemma {:induction false} FindByIdAt(rows: seq<Album>, nextId: int, k: int)
    requires TableOk(rows, nextId) && 0 <= k < |rows|
    ensures FindById(rows, rows[k].id) == Some(rows[k])
  {
    IndexOfAt(Ids(rows), nextId, k);
  }

  /** Inserting a row with the next id keeps the table well formed; no row had that id before. */
  lemma {:induction false} CreateKeepsTableOk(rows: seq<Album>, nextId: int, body: AlbumCreate)
    requires TableOk(rows, nextId)
    ensures TableOk(rows + [NewAlbum(nextId, body)], nextId + 1)
    ensures FindById(rows, nextId) == None
  {
    assert Ids(rows + [NewAlbum(nextId, body)]) == Ids(rows) + [nextId];
    IdsOkInsert(Ids(rows), nextId);
  }

  /** Appending rows never hides an existing row from `get_by_id`. */
  lemma {:induction false} FindByIdExtend(rows: seq<Album>, more: seq<Album>, nextId: int, id: int)
    requires TableOk(rows + more, nextId) && FindById(rows, id).Some?
    ensures FindById(rows + more, id) == FindById(rows, id)
  {
    var k := IndexOf(Ids(rows), id).value;
    assert (rows + more)[k] == rows[k];
    FindByIdAt(rows + more, nextId, k);
  }

  /** Whether the row belongs to the artist with id `artistId`. */
  predicate ByArtist(a: Album, artistId: int) {
    a.artistId == artistId
  }

  /**
   * `get_by_artist_id`: the albums of that artist, in table order, or `None`
   * when there is none (an empty result is mapped to `None`).
   */
  function GetByArtistId(rows: seq<Album>, artistId: int): (r: Option<seq<Album>>)
    ensures r.None? <==> forall a :: a in rows ==> !ByArtist(a, artistId)
    ensures r.Some? ==> r.value != []
    ensures r.Some? ==> forall a :: a in r.value <==> a in rows && ByArtist(a, artistId)
  {
    var matching := Filter(rows, (a: Album) => ByArtist(a, artistId));
    if matching == [] then None
    else
      assert matching[0] in matching;
      Some(matching)
  }

  /** Whether the row's title contains `t`: the filter of `exists`. */
  predicate TitleMatches(a: Album, t: string) {
    Contains(a.title, t)
  }

  /** `exists`: the number of rows whose title contains `t` is positive. */
  function Exists(rows: seq<Album>, t: string): (b: bool) {
    |Filter(rows, (a: Album) => TitleMatches(a, t))| > 0
  }

  /** `exists(t)` holds exactly when some album title contains `t`. */
  lemma {:induction false} ExistsIff(rows: seq<Album>, t: string)
    ensures Exists(rows, t) <==> exists a :: a in rows && TitleMatches(a, t)
  {
    var m := Filter(rows, (a: Album) => TitleMatches(a, t));
    if |m| > 0 {
      assert m[0] in m;
    }
    if a :| a in rows && TitleMatches(a, t) {
      assert a in m;
    }
  }

  /** The in-memory stand-in for `AlbumService`: the album table and its id counter. */
  class AlbumService {
    var rows: seq<Album>
    var nextId: int

    predicate Valid()
      reads this
    {
      TableOk(rows, nextId)
    }

    /** A service over an empty table. */
    constructor ()
      ensures Valid() && rows == [] && nextId == 1
    {
      rows := [];
      nextId := 1;
    }

    /** `get_all`: every row, in table order. */
    method GetAll() returns (all: seq<Album>)
      ensures all == rows
    {
      all := rows;
    }

    /** `create`: one new row with the body's fields and a fresh id; every other row stays. */
    method Create(body: AlbumCreate) returns (row: Album)
      requires Valid()
      modifies this
      ensures Valid()
      ensures row == NewAlbum(old(nextId), body) && FindById(old(rows), row.id) == None
      ensures rows == old(rows) + [row] && nextId == old(nextId) + 1
    {
      CreateKeepsTableOk(rows, nextId, body);
      row := Album(nextId, body.title, body.path, body.releaseYear, body.artistId);
      rows := rows + [row];
      nextId := nextId + 1;
    }
  }
}
