/**
 * The three-level reconciliation of `Scanner::scan_library`, `scan_artist` and
 * `scan_album` (scanner/src/lib.rs:28-157), as functions from the catalog
 * before a call to the outcome of the call. These are the specification the
 * imperative `Library.Scanner` methods are proved to implement, and the value
 * the lemmas in `AlbumScanProps` and `LibraryScanProps` speak about.
 *
 * Each level takes a snapshot of the catalog once, before its loop, and never
 * refreshes it; the loop then visits the directory's children in the order the
 * tree gives them. A panic (an `unwrap` or `expect` on a failed lookup or
 * parse) ends the whole scan: the outcome is then `ok == false` with the
 * catalog as it stood when the panic happened.
 *
 * The scans are written over the three name recognisers they use, passed as
 * a `Naming` value; `SourceNaming` holds the scanner's own (`ParseAlbumDir`,
 * `extract_track_info` of `get_filename_stem`, and `is_audio_file`). The lemmas about the scans
 * therefore hold whatever the recognisers return.
 */
module Reconcile {
  import opened Common
  import opened Names
  import opened FileTree
  import opened Fingerprint
  import Artists
  import Albums
  import Tracks

  /** The whole catalog: the three tables and their id counters. */
  datatype Db = Db(
    artists: seq<Artists.Artist>, nextArtistId: int,
    albums: seq<Albums.Album>, nextAlbumId: int,
    tracks: seq<Tracks.Track>, nextTrackId: int)

  predicate DbValid(db: Db) {
    Artists.TableOk(db.artists, db.nextArtistId)
    && Albums.TableOk(db.albums, db.nextAlbumId)
    && Tracks.TableOk(db.tracks, db.nextTrackId)
  }

  /** How a scan ended (`ok == false` after a panic) and the catalog it left. */
  datatype Outcome = Outcome(ok: bool, db: Db)

  /** What `extract_track_info` makes of the file name `name`, through its stem. */
  function TrackOf(name: string): TrackParse {
    ExtractTrackInfo(FileStem(name))
  }

  /** The recognisers for album directory names, track file names and audio file names. */
  datatype Naming = Naming(albumDir: string -> Option<AlbumDir>, track: string -> TrackParse, audio: string -> bool)

  /** The recognisers of scanner/src/lib.rs. */
  const SourceNaming: Naming := Naming(ParseAlbumDir, TrackOf, IsAudioFile)

  /** The duration every new track gets: real durations are not read. */
  const PlaceholderDuration: int := 1337

  /** The catalog after `ArtistService::create(body)`. */
  function AddArtist(db: Db, body: Artists.ArtistCreate): Db {
    db.(artists := db.artists + [Artists.NewArtist(db.nextArtistId, body)], nextArtistId := db.nextArtistId + 1)
  }

  /** The catalog after `AlbumService::create(body)`. */
  function AddAlbum(db: Db, body: Albums.AlbumCreate): Db {
    db.(albums := db.albums + [Albums.NewAlbum(db.nextAlbumId, body)], nextAlbumId := db.nextAlbumId + 1)
  }

  /** The catalog after `TrackService::create(body)`. */
  function AddTrack(db: Db, body: Tracks.TrackCreate): Db {
    db.(tracks := db.tracks + [Tracks.NewTrack(db.nextTrackId, body)], nextTrackId := db.nextTrackId + 1)
  }

  // ---------------------------------------------------------------------------
  // scan_album
  // ---------------------------------------------------------------------------

  /** The titles of the given tracks, in order. */
  function Titles(ts: seq<Tracks.Track>): (r: seq<string>)
    ensures |r| == |ts| && forall i :: 0 <= i < |ts| ==> r[i] == ts[i].title
  {
    seq(|ts|, i requires 0 <= i < |ts| => ts[i].title)
  }

  /** An entry `scan_album` turns into a track: a non-hidden regular file with an audio extension. */
  predicate AudioCandidate(naming: Naming, e: Entry) {
    !IsHidden(e.name) && e.File? && naming.audio(e.name)
  }

  /**
   * One entry of the album loop, given the titles stored before the loop: skip
   * it, fail when its stem does not parse, skip it when its title is stored, or
   * create a track for it.
   */
  function AlbumStep(db: Db, naming: Naming, path: string, albumId: int, stored: seq<string>, e: Entry): Outcome {
    if !AudioCandidate(naming, e) then Outcome(true, db)
    else match naming.track(e.name)
      case Parsed(info) =>
        if info.title in stored then Outcome(true, db)
        else Outcome(true, AddTrack(db,
          Tracks.TrackCreate(info.title, Join(path, e.name), info.trackNumber, PlaceholderDuration, albumId)))
      case _ => Outcome(false, db)
  }

  /** The album loop over the entries `es`, stopping at the first failure. */
  function AlbumLoop(db: Db, naming: Naming, path: string, albumId: int, stored: seq<string>, es: seq<Entry>): Outcome
    decreases |es|
  {
    if es == [] then Outcome(true, db)
    else
      var o := AlbumStep(db, naming, path, albumId, stored, es[0]);
      if !o.ok then o else AlbumLoop(o.db, naming, path, albumId, stored, es[1..])
  }

  /**
   * `scan_album` of the directory `path` with children `es` for the album with
   * id `albumId`: fails when no album has that id, else snapshots the album's
   * track titles and runs the loop.
   */
  function ScanAlbum(db: Db, naming: Naming, path: string, es: seq<Entry>, albumId: int): Outcome {
    match Albums.FindById(db.albums, albumId)
    case None => Outcome(false, db)
    case Some(album) => AlbumLoop(db, naming, path, albumId, Titles(Tracks.GetAllByAlbum(db.tracks, album)), es)
  }

  // ---------------------------------------------------------------------------
  // scan_artist
  // ---------------------------------------------------------------------------

  /** The `HashMap` from title to id collected from the album rows: a later row overwrites an earlier one. */
  function AlbumMap(rows: seq<Albums.Album>): map<string, int>
    decreases |rows|
  {
    if rows == [] then map[]
    else AlbumMap(rows[..|rows| - 1])[rows[|rows| - 1].title := rows[|rows| - 1].id]
  }

  /**
   * One entry of the artist loop, given the album snapshot: skip it unless it
   * is a non-hidden directory whose name parses; reuse the album of that title,
   * whoever owns it, or create one (with the artist directory as its path);
   * then scan the album directory.
   */
  function ArtistStep(db: Db, naming: Naming, path: string, artistId: int, albums: map<string, int>, e: Entry): Outcome {
    if IsHidden(e.name) || !e.Dir? then Outcome(true, db)
    else match naming.albumDir(e.name)
      case None => Outcome(true, db)
      case Some(dir) =>
        if dir.title in albums then ScanAlbum(db, naming, Join(path, e.name), e.children, albums[dir.title])
        else
          ScanAlbum(AddAlbum(db, Albums.AlbumCreate(dir.title, path, dir.year, artistId)), naming,
            Join(path, e.name), e.children, db.nextAlbumId)
  }

  /** The artist loop over the entries `es`, stopping at the first failure. */
  function ArtistLoop(db: Db, naming: Naming, path: string, artistId: int, albums: map<string, int>, es: seq<Entry>): Outcome
    decreases |es|
  {
    if es == [] then Outcome(true, db)
    else
      var o := ArtistStep(db, naming, path, artistId, albums, es[0]);
      if !o.ok then o else ArtistLoop(o.db, naming, path, artistId, albums, es[1..])
  }

  /** `scan_artist` of the directory `path` with children `es`: snapshot all albums, then loop. */
  function ScanArtist(db: Db, naming: Naming, path: string, es: seq<Entry>, artistId: int): Outcome {
    ArtistLoop(db, naming, path, artistId, AlbumMap(db.albums), es)
  }

  // ---------------------------------------------------------------------------
  // scan_library
  // ---------------------------------------------------------------------------

  /** The `HashMap` from name to id and checksum collected from the artist rows: a later row overwrites an earlier one. */
  function ArtistMap(rows: seq<Artists.Artist>): map<string, (int, Option<string>)>
    decreases |rows|
  {
    if rows == [] then map[]
    else
      var last := rows[|rows| - 1];
      ArtistMap(rows[..|rows| - 1])[last.name := (last.id, last.checksum)]
  }

  /** The fingerprint `hash_artist_folder` computes for an artist directory with children `cs`. */
  function FolderHash(digest: string -> string, cs: seq<Entry>): string {
    digest(HashInput(cs))
  }

  /** The alteration `scan_library` issues: set the checksum, leave name and path alone. */
  function SetChecksum(hash: string): Artists.ArtistAlter {
    Artists.ArtistAlter(None, None, Some(hash))
  }

  /**
   * One entry of the library loop, given the artist snapshot: skip it unless it
   * is a non-hidden directory; an unknown name creates an artist (with the
   * library root as its path) and scans it; a known name whose stored checksum
   * is missing or differs gets the new checksum and is rescanned; a matching
   * checksum skips it.
   */
  function LibraryStep(db: Db, naming: Naming, root: string, digest: string -> string,
                       artists: map<string, (int, Option<string>)>, e: Entry): Outcome
  {
    if IsHidden(e.name) || !e.Dir? then Outcome(true, db)
    else
      var hash := FolderHash(digest, e.children);
      if e.name in artists then
        var (id, stored) := artists[e.name];
        if stored == Some(hash) then Outcome(true, db)
        else match Artists.AlterRows(db.artists, id, SetChecksum(hash))
          case None => Outcome(false, db)
          case Some(rows) => ScanArtist(db.(artists := rows), naming, Join(root, e.name), e.children, id)
      else
        ScanArtist(AddArtist(db, Artists.ArtistCreate(e.name, root, Some(hash))), naming,
          Join(root, e.name), e.children, db.nextArtistId)
  }

  /** The library loop over the entries `es`, stopping at the first failure. */
  function LibraryLoop(db: Db, naming: Naming, root: string, digest: string -> string,
                       artists: map<string, (int, Option<string>)>, es: seq<Entry>): Outcome
    decreases |es|
  {
    if es == [] then Outcome(true, db)
    else
      var o := LibraryStep(db, naming, root, digest, artists, es[0]);
      if !o.ok then o else LibraryLoop(o.db, naming, root, digest, artists, es[1..])
  }

  /** `scan_library` of the library root `root` with children `es`: snapshot all artists, then loop. */
  function ScanLibrary(db: Db, naming: Naming, root: string, digest: string -> string, es: seq<Entry>): Outcome {
    LibraryLoop(db, naming, root, digest, ArtistMap(db.artists), es)
  }
}
