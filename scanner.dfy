/**
 * `Scanner` (scanner/src/lib.rs:16-158): the three scan methods, written as the
 * loops of the source over the catalog services, each proved to leave the
 * catalog exactly as the corresponding `Reconcile` function says.
 *
 * The file system is an input: `ScanLibrary` receives the children of the
 * library root as a tree, and each nested scan receives the children of the
 * directory it scans. The BLAKE3 digest is the `digest` field.
 */
module Library {
  import opened Common
  import opened Names
  import opened FileTree
  import opened Fingerprint
  import Artists
  import Albums
  import Tracks
  import Reconcile

  class Scanner {
    const artistService: Artists.ArtistService
    const albumService: Albums.AlbumService
    const trackService: Tracks.TrackService
    const libraryPath: string
    /** The hash `hash_artist_folder` finalizes, applied to everything fed to it. */
    const digest: string -> string

    /** The catalog the three services hold. */
    function State(): Reconcile.Db
      reads artistService, albumService, trackService
    {
      Reconcile.Db(artistService.rows, artistService.nextId, albumService.rows, albumService.nextId,
        trackService.rows, trackService.nextId)
    }

    predicate Valid()
      reads artistService, albumService, trackService
    {
      Reconcile.DbValid(State())
    }

    /** `Scanner::new`. */
    constructor (artistService: Artists.ArtistService, albumService: Albums.AlbumService,
                 trackService: Tracks.TrackService, libraryPath: string, digest: string -> string)
      ensures this.artistService == artistService && this.albumService == albumService
      ensures this.trackService == trackService
      ensures this.libraryPath == libraryPath && this.digest == digest
    {
      this.artistService := artistService;
      this.albumService := albumService;
      this.trackService := trackService;
      this.libraryPath := libraryPath;
      this.digest := digest;
    }

    /** `scan_library` over the children `entries` of the library root. */
    method ScanLibrary(entries: seq<Entry>) returns (ok: bool)
      requires Valid()
      modifies artistService, albumService, trackService
      ensures Valid()
      ensures Reconcile.Outcome(ok, State()) == Reconcile.ScanLibrary(old(State()), Reconcile.SourceNaming, libraryPath, digest, entries)
    {
      var allArtists := artistService.GetAll();
      var artistMap := Reconcile.ArtistMap(allArtists);
      assert entries[0..] == entries;
      var i := 0;
      while i < |entries|
        invariant 0 <= i <= |entries|
        invariant Valid()
        invariant Reconcile.LibraryLoop(State(), Reconcile.SourceNaming, libraryPath, digest, artistMap, entries[i..])
          == Reconcile.ScanLibrary(old(State()), Reconcile.SourceNaming, libraryPath, digest, entries)
      {
        assert entries[i..][0] == entries[i] && entries[i..][1..] == entries[i + 1..];
        ok := ScanLibraryEntry(artistMap, entries[i]);
        if !ok {
          return;
        }
        i := i + 1;
      }
      ok := true;
    }

    /**
     * One turn of the loop of `scan_library`, given the artist snapshot, with
     * the source's two branches for a missing and for a differing checksum.
     */
    method ScanLibraryEntry(artistMap: map<string, (int, Option<string>)>, entry: Entry) returns (ok: bool)
      requires Valid()
      modifies artistService, albumService, trackService
      ensures Valid()
      ensures Reconcile.Outcome(ok, State()) == Reconcile.LibraryStep(old(State()), Reconcile.SourceNaming, libraryPath, digest, artistMap, entry)
    {
      if IsHidden(entry.name) {
        return true;
      }
      if entry.Dir? {
        var currentHash := HashArtistFolder(digest, entry.children);
        if entry.name in artistMap {
          var (artistId, storedHash) := artistMap[entry.name];
          if storedHash.None? {
            ghost var before := State();
            var altered := artistService.Alter(artistId, Artists.ArtistAlter(None, None, Some(currentHash)));
            if altered.None? {
              return false;
            }
            assert State() == before.(artists := artistService.rows);
            ok := ScanArtist(Join(libraryPath, entry.name), entry.children, artistId);
            return;
          }
          if storedHash.value != currentHash {
            ghost var before := State();
            var altered := artistService.Alter(artistId, Artists.ArtistAlter(None, None, Some(currentHash)));
            if altered.None? {
              return false;
            }
            assert State() == before.(artists := artistService.rows);
            ok := ScanArtist(Join(libraryPath, entry.name), entry.children, artistId);
          } else {
            return true;
          }
        } else {
          ghost var before := State();
          var body := Artists.ArtistCreate(entry.name, libraryPath, Some(currentHash));
          var artist := artistService.Create(body);
          assert State() == Reconcile.AddArtist(before, body) && artist.id == before.nextArtistId;
          ok := ScanArtist(Join(libraryPath, entry.name), entry.children, artist.id);
        }
        return;
      }
      ok := true;
    }

    /** `scan_artist` over the children `entries` of the artist directory `path`. */
    method ScanArtist(path: string, entries: seq<Entry>, artistId: int) returns (ok: bool)
      requires Valid()
      modifies albumService, trackService
      ensures Valid()
      ensures Reconcile.Outcome(ok, State()) == Reconcile.ScanArtist(old(State()), Reconcile.SourceNaming, path, entries, artistId)
    {
      var artistAlbums := albumService.GetAll();
      var albumsMap := Reconcile.AlbumMap(artistAlbums);
      assert entries[0..] == entries;
      var i := 0;
      while i < |entries|
        invariant 0 <= i <= |entries|
        invariant Valid()
        invariant Reconcile.ArtistLoop(State(), Reconcile.SourceNaming, path, artistId, albumsMap, entries[i..])
          == Reconcile.ScanArtist(old(State()), Reconcile.SourceNaming, path, entries, artistId)
      {
        assert entries[i..][0] == entries[i] && entries[i..][1..] == entries[i + 1..];
        ok := ScanArtistEntry(path, artistId, albumsMap, entries[i]);
        if !ok {
          return;
        }
        i := i + 1;
      }
      ok := true;
    }

    /** One turn of the loop of `scan_artist`, given the album snapshot. */
    method ScanArtistEntry(path: string, artistId: int, albumsMap: map<string, int>, entry: Entry) returns (ok: bool)
      requires Valid()
      modifies albumService, trackService
      ensures Valid()
      ensures Reconcile.Outcome(ok, State()) == Reconcile.ArtistStep(old(State()), Reconcile.SourceNaming, path, artistId, albumsMap, entry)
    {
      if IsHidden(entry.name) {
        return true;
      }
      if entry.Dir? {
        var dir := ParseAlbumDir(entry.name);
        if dir.None? {
          return true;
        }
        if dir.value.title in albumsMap {
          ok := ScanAlbum(Join(path, entry.name), entry.children, albumsMap[dir.value.title]);
        } else {
          ghost var before := State();
          var body := Albums.AlbumCreate(dir.value.title, path, dir.value.year, artistId);
          var album := albumService.Create(body);
          assert State() == Reconcile.AddAlbum(before, body) && album.id == before.nextAlbumId;
          ok := ScanAlbum(Join(path, entry.name), entry.children, album.id);
        }
        return;
      }
      ok := true;
    }

    /** `scan_album` over the children `entries` of the album directory `path`. */
    method ScanAlbum(path: string, entries: seq<Entry>, albumId: int) returns (ok: bool)
      requires Valid()
      modifies trackService
      ensures Valid()
      ensures Reconcile.Outcome(ok, State()) == Reconcile.ScanAlbum(old(State()), Reconcile.SourceNaming, path, entries, albumId)
    {
      var album := Albums.FindById(albumService.rows, albumId);
      if album.None? {
        return false;
      }
      var albumTracks := Tracks.GetAllByAlbum(trackService.rows, album.value);
      var storedTracks := Reconcile.Titles(albumTracks);
      assert entries[0..] == entries;
      var i := 0;
      while i < |entries|
        invariant 0 <= i <= |entries|
        invariant Valid()
        invariant Reconcile.AlbumLoop(State(), Reconcile.SourceNaming, path, albumId, storedTracks, entries[i..])
          == Reconcile.ScanAlbum(old(State()), Reconcile.SourceNaming, path, entries, albumId)
      {
        assert entries[i..][0] == entries[i] && entries[i..][1..] == entries[i + 1..];
        ok := ScanAlbumEntry(path, albumId, storedTracks, entries[i]);
        if !ok {
          return;
        }
        i := i + 1;
      }
      ok := true;
    }

    /** One turn of the loop of `scan_album`, given the titles stored before the loop. */
    method ScanAlbumEntry(path: string, albumId: int, storedTracks: seq<string>, entry: Entry) returns (ok: bool)
      requires Valid()
      modifies trackService
      ensures Valid()
      ensures Reconcile.Outcome(ok, State()) == Reconcile.AlbumStep(old(State()), Reconcile.SourceNaming, path, albumId, storedTracks, entry)
    {
      if IsHidden(entry.name) {
        return true;
      }
      if entry.File? && IsAudioFile(entry.name) {
        var trackData := ExtractTrackInfo(FileStem(entry.name));
        if !trackData.Parsed? {
          return false;
        }
        if trackData.info.title !in storedTracks {
          ghost var before := State();
          var body := Tracks.TrackCreate(trackData.info.title, Join(path, entry.name),
            trackData.info.trackNumber, Reconcile.PlaceholderDuration, albumId);
          var track := trackService.Create(body);
          assert State() == Reconcile.AddTrack(before, body);
        }
      }
      ok := true;
    }
  }
}
