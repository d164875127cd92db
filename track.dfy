/**
 * The track table and `TrackService` (service/src/track.rs), with the table
 * held in memory. A row carries an id the database assigns on insert, a
 * title, a path, a track number, a duration and the id of its album.
 */
module Tracks {
  import opened Common
  import Albums

  datatype Track = Track(id: int, title: string, path: string, trackNumber: int, duration: int, albumId: int)

  /** The body of `TrackService::create`. */
  datatype TrackCreate = TrackCreate(title: string, path: string, trackNumber: int, duration: int, albumId: int)

  /** The ids of the rows, in table order. */
  function Ids(rows: seq<Track>): (r: seq<int>)
    ensures |r| == |rows| && forall i :: 0 <= i < |rows| ==> r[i] == rows[i].id
  {
    seq(|rows|, i requires 0 <= i < |rows| => rows[i].id)
  }

  /** The ids come from the table's auto-incrementing counter. */
  predicate TableOk(rows: seq<Track>, nextId: int) {
    IdsOk(Ids(rows), nextId)
  }

  /** The row `create` inserts when the counter stands at `id`. */
  function NewTrack(id: int, body: TrackCreate): Track {
    Track(id, body.title, body.path, body.trackNumber, body.duration, body.albumId)
  }

  /** `get_by_id`: the row with primary key `id`, or `None` when there is none. */
  function FindById(rows: seq<Track>, id: int): (r: Option<Track>)
    ensures r.Some? ==> r.value in rows && r.value.id == id
    ensures r.None? <==> forall t :: t in rows ==> t.id != id
  {
    match IndexOf(Ids(rows), id)
    case None => None
    case Some(k) => Some(rows[k])
  }

  /** In a well-formed table the row at position `k` is the one `get_by_id` finds for its id. */
  lemma {:induction false} FindByIdAt(rows: seq<Track>, nextId: int, k: int)
    requires TableOk(rows, nextId) && 0 <= k < |rows|
    ensures FindById(rows, rows[k].id) == Some(rows[k])
  {
    IndexOfAt(Ids(rows), nextId, k);
  }

  /** Inserting a row with the next id keeps the table well formed; no row had that id before. */
  lemma {:induction false} CreateKeepsTableOk(rows: seq<Track>, nextId: int, body: TrackCreate)
    requires TableOk(rows, nextId)
    ensures TableOk(rows + [NewTrack(nextId, body)], nextId + 1)
    ensures FindById(rows, nextId) == None
  {
    assert Ids(rows + [NewTrack(nextId, body)]) == Ids(rows) + [nextId];
    IdsOkInsert(Ids(rows), nextId);
  }

  /** Whether the row belongs to the album with id `albumId`. */
  predicate OnAlbum(t: Track, albumId: int) {
    t.albumId == albumId
  }

  /**
   * `get_all_by_album`: the tracks related to `album` through their album id,
   * in table order, possibly none.
   */
  function GetAllByAlbum(rows: seq<Track>, album: Albums.Album): (r: seq<Track>)
    ensures forall t :: t in r <==> t in rows && OnAlbum(t, album.id)
  {
    Filter(rows, (t: Track) => OnAlbum(t, album.id))
  }

  /**
   * `get_by_album_id`: the tracks of that album, in table order, or `None`
   * when there is none (an empty result is mapped to `None`).
   */
  function GetByAlbumId(rows: seq<Track>, albumId: int): (r: Option<seq<Track>>)
    ensures r.None? <==> forall t :: t in rows ==> !OnAlbum(t, albumId)
    ensures r.Some? ==> r.value != []
    ensures r.Some? ==> forall t :: t in r.value <==> t in rows && OnAlbum(t, albumId)
  {
    var matching := Filter(rows, (t: Track) => OnAlbum(t, albumId));
    if matching == [] then None
    else
      assert matching[0] in matching;
      Some(matching)
  }

  /** Both album queries select the same rows: `get_by_album_id` is `get_all_by_album` with empty mapped to `None`. */
  lemma {:induction false} AlbumQueriesAgree(rows: seq<Track>, album: Albums.Album)
    ensures GetByAlbumId(rows, album.id) == if GetAllByAlbum(rows, album) == [] then None else Some(GetAllByAlbum(rows, album))
  {
  }

  /** A track appended to the table shows up in its album's tracks, after those already there. */
  lemma {:induction false} GetAllByAlbumAppend(rows: seq<Track>, t: Track, album: Albums.Album)
    ensures GetAllByAlbum(rows + [t], album) ==
      GetAllByAlbum(rows, album) + (if OnAlbum(t, album.id) then [t] else [])
    decreases |rows|
  {
    if rows == [] {
      assert Filter([t], (x: Track) => OnAlbum(x, album.id)) == (if OnAlbum(t, album.id) then [t] else []) + Filter([t][1..], (x: Track) => OnAlbum(x, album.id));
    } else {
      assert (rows + [t])[1..] == rows[1..] + [t];
      GetAllByAlbumAppend(rows[1..], t, album);
    }
  }

  /** The in-memory stand-in for `TrackService`: the track table and its id counter. */
  class TrackService {
    var rows: seq<Track>
    var nextId: int

    predicate Valid()
      reads this
    {
      TableOk(rows, nextId)
    }

    /** A service over an empty table. */
    constructor ()
      ensures Valid() && rows == [] && nextId == 1
    {
      rows := [];
      nextId := 1;
    }

    /** `get_all`: every row, in table order. */
    method GetAll() returns (all: seq<Track>)
      ensures all == rows
    {
      all := rows;
    }

    /** `create`: one new row with the body's fields and a fresh id; every other row stays. */
    method Create(body: TrackCreate) returns (row: Track)
      requires Valid()
      modifies this
      ensures Valid()
      ensures row == NewTrack(old(nextId), body) && FindById(old(rows), row.id) == None
      ensures rows == old(rows) + [row] && nextId == old(nextId) + 1
    {
      CreateKeepsTableOk(rows, nextId, body);
      row := Track(nextId, body.title, body.path, body.trackNumber, body.duration, body.albumId);
      rows := rows + [row];
      nextId := nextId + 1;
    }
  }
}
