/**
 * What `scan_album` and `scan_artist` (scanner/src/lib.rs:89-157) do to the
 * catalog: which rows they add, with which fields, what they leave alone, and
 * when they fail.
 */
module AlbumScanProps {
  import opened Common
  import opened Names
  import opened FileTree
  import opened Reconcile
  import Albums
  import Tracks

  // ---------------------------------------------------------------------------
  // scan_album
  // ---------------------------------------------------------------------------

  /** `b` differs from `a` only by tracks appended to the track table. */
  predicate TracksAppended(a: Db, b: Db) {
    b.artists == a.artists && b.nextArtistId == a.nextArtistId
    && b.albums == a.albums && b.nextAlbumId == a.nextAlbumId
    && a.tracks <= b.tracks && a.nextTrackId <= b.nextTrackId
  }

  /** A track the album loop creates: from one of its audio files, whose title was not stored. */
  predicate CreatedTrack(naming: Naming, t: Tracks.Track, path: string, albumId: int, stored: seq<string>, es: seq<Entry>) {
    t.duration == PlaceholderDuration && t.albumId == albumId && t.title !in stored
    && exists e :: (e in es && AudioCandidate(naming, e) && t.path == Join(path, e.name)
      && naming.track(e.name) == Parsed(TrackInfo(t.title, t.trackNumber)))
  }

  /** Widening the visited entries keeps a created track created from one of them. */
  lemma {:induction false} CreatedTrackWiden(naming: Naming, t: Tracks.Track, path: string, albumId: int, stored: seq<string>,
                          es: seq<Entry>, more: seq<Entry>)
    requires CreatedTrack(naming, t, path, albumId, stored, es)
    requires forall e :: e in es ==> e in more
    ensures CreatedTrack(naming, t, path, albumId, stored, more)
  {
    var e :| e in es && AudioCandidate(naming, e) && t.path == Join(path, e.name)
      && naming.track(e.name) == Parsed(TrackInfo(t.title, t.trackNumber));
    assert e in more;
  }

  /** One turn of the album loop appends at most one track, made from the entry it visits. */
  lemma {:induction false} AlbumStepKeeps(db: Db, naming: Naming, path: string, albumId: int, stored: seq<string>, e: Entry)
    requires DbValid(db)
    ensures var o := AlbumStep(db, naming, path, albumId, stored, e);
      DbValid(o.db) && TracksAppended(db, o.db) && |o.db.tracks| <= |db.tracks| + 1
      && (|o.db.tracks| == |db.tracks| + 1 ==> CreatedTrack(naming, o.db.tracks[|db.tracks|], path, albumId, stored, [e]))
  {
    if AudioCandidate(naming, e) && naming.track(e.name).Parsed? && naming.track(e.name).info.title !in stored {
      var info := naming.track(e.name).info;
      var body := Tracks.TrackCreate(info.title, Join(path, e.name), info.trackNumber, PlaceholderDuration, albumId);
      Tracks.CreateKeepsTableOk(db.tracks, db.nextTrackId, body);
      assert e in [e];
    }
  }

  /** The album loop only appends tracks and keeps the catalog well formed, whether or not it fails. */
  lemma {:induction false} AlbumLoopKeeps(db: Db, naming: Naming, path: string, albumId: int, stored: seq<string>, es: seq<Entry>)
    requires DbValid(db)
    ensures DbValid(AlbumLoop(db, naming, path, albumId, stored, es).db)
    ensures TracksAppended(db, AlbumLoop(db, naming, path, albumId, stored, es).db)
    decreases |es|
  {
    if es != [] {
      var o := AlbumStep(db, naming, path, albumId, stored, es[0]);
      AlbumStepKeeps(db, naming, path, albumId, stored, es[0]);
      if o.ok {
        AlbumLoopKeeps(o.db, naming, path, albumId, stored, es[1..]);
      }
    }
  }

  /** `scan_album` only appends tracks and keeps the catalog well formed. */
  lemma {:induction false} ScanAlbumKeeps(db: Db, naming: Naming, path: string, es: seq<Entry>, albumId: int)
    requires DbValid(db)
    ensures DbValid(ScanAlbum(db, naming, path, es, albumId).db)
    ensures TracksAppended(db, ScanAlbum(db, naming, path, es, albumId).db)
  {
    var album := Albums.FindById(db.albums, albumId);
    if album.Some? {
      AlbumLoopKeeps(db, naming, path, albumId, Titles(Tracks.GetAllByAlbum(db.tracks, album.value)), es);
    }
  }

  /**
   * Every track the album loop appends has the placeholder duration, the given
   * album id, a title not stored at loop start, and the full path, number and
   * title of one of the audio files it visited.
   */
  lemma {:induction false} AlbumLoopNewTracks(db: Db, naming: Naming, path: string, albumId: int, stored: seq<string>, es: seq<Entry>)
    requires DbValid(db)
    ensures var after := AlbumLoop(db, naming, path, albumId, stored, es).db;
      forall i :: |db.tracks| <= i < |after.tracks| ==> CreatedTrack(naming, after.tracks[i], path, albumId, stored, es)
    decreases |es|
  {
    if es != [] {
      var e := es[0];
      var o := AlbumStep(db, naming, path, albumId, stored, e);
      AlbumStepKeeps(db, naming, path, albumId, stored, e);
      if |o.db.tracks| == |db.tracks| + 1 {
        CreatedTrackWiden(naming, o.db.tracks[|db.tracks|], path, albumId, stored, [e], es);
      }
      if o.ok {
        var after := AlbumLoop(o.db, naming, path, albumId, stored, es[1..]).db;
        assert AlbumLoop(db, naming, path, albumId, stored, es).db == after;
        AlbumLoopKeeps(o.db, naming, path, albumId, stored, es[1..]);
        AlbumLoopNewTracks(o.db, naming, path, albumId, stored, es[1..]);
        assert forall j :: |o.db.tracks| <= j < |AlbumLoop(o.db, naming, path, albumId, stored, es[1..]).db.tracks| ==>
          CreatedTrack(naming, AlbumLoop(o.db, naming, path, albumId, stored, es[1..]).db.tracks[j], path, albumId, stored, es[1..]);
        assert forall e' :: e' in es[1..] ==> e' in es;
        forall i | |db.tracks| <= i < |after.tracks|
          ensures CreatedTrack(naming, after.tracks[i], path, albumId, stored, es)
        {
          if i >= |o.db.tracks| {
            CreatedTrackWiden(naming, after.tracks[i], path, albumId, stored, es[1..], es);
          } else {
            assert after.tracks[i] == o.db.tracks[i];
          }
        }
      }
    }
  }

  /**
   * Every track `scan_album` appends has the placeholder duration, the given
   * album id, a title the album did not have at the start, and the full path,
   * number and title of one of the audio files of the directory.
   */
  lemma {:induction false} ScanAlbumNewTracks(db: Db, naming: Naming, path: string, es: seq<Entry>, albumId: int)
    requires DbValid(db) && Albums.FindById(db.albums, albumId).Some?
    ensures var after := ScanAlbum(db, naming, path, es, albumId).db;
      var stored := Titles(Tracks.GetAllByAlbum(db.tracks, Albums.FindById(db.albums, albumId).value));
      forall i :: |db.tracks| <= i < |after.tracks| ==> CreatedTrack(naming, after.tracks[i], path, albumId, stored, es)
  {
    var album := Albums.FindById(db.albums, albumId).value;
    var stored := Titles(Tracks.GetAllByAlbum(db.tracks, album));
    assert ScanAlbum(db, naming, path, es, albumId) == AlbumLoop(db, naming, path, albumId, stored, es);
    AlbumLoopNewTracks(db, naming, path, albumId, stored, es);
  }

  /** The album loop succeeds exactly when the stem of every audio file it visits parses. */
  lemma {:induction false} AlbumLoopOkIff(db: Db, naming: Naming, path: string, albumId: int, stored: seq<string>, es: seq<Entry>)
    ensures AlbumLoop(db, naming, path, albumId, stored, es).ok <==>
      forall e :: e in es && AudioCandidate(naming, e) ==> naming.track(e.name).Parsed?
    decreases |es|
  {
    if es != [] {
      var o := AlbumStep(db, naming, path, albumId, stored, es[0]);
      AlbumLoopOkIff(o.db, naming, path, albumId, stored, es[1..]);
      assert forall e :: e in es <==> e == es[0] || e in es[1..];
    }
  }

  /**
   * `scan_album` fails exactly when no album has the given id (the `unwrap` of
   * line 130) or some audio file's stem does not parse (the `unwrap` of line 138).
   */
  lemma {:induction false} ScanAlbumOkIff(db: Db, naming: Naming, path: string, es: seq<Entry>, albumId: int)
    ensures ScanAlbum(db, naming, path, es, albumId).ok <==>
      Albums.FindById(db.albums, albumId).Some?
      && forall e :: e in es && AudioCandidate(naming, e) ==> naming.track(e.name).Parsed?
  {
    var album := Albums.FindById(db.albums, albumId);
    if album.Some? {
      AlbumLoopOkIff(db, naming, path, albumId, Titles(Tracks.GetAllByAlbum(db.tracks, album.value)), es);
    }
  }

  /** The album with id `albumId` has a track titled `title` in `tracks`. */
  predicate HasTrack(tracks: seq<Tracks.Track>, albumId: int, title: string) {
    exists t :: t in tracks && t.albumId == albumId && t.title == title
  }

  /** A track of the album stays one when tracks are appended. */
  lemma {:induction false} HasTrackGrow(a: seq<Tracks.Track>, b: seq<Tracks.Track>, albumId: int, title: string)
    requires a <= b && HasTrack(a, albumId, title)
    ensures HasTrack(b, albumId, title)
  {
    var t :| t in a && t.albumId == albumId && t.title == title;
    var k :| 0 <= k < |a| && a[k] == t;
    assert b[k] == t;
  }

  /** After one turn of the album loop, the title of the audio file it visited is a track of the album. */
  lemma {:induction false} AlbumStepComplete(db: Db, naming: Naming, path: string, albumId: int, stored: seq<string>, e: Entry)
    requires forall s :: s in stored ==> HasTrack(db.tracks, albumId, s)
    requires AudioCandidate(naming, e) && naming.track(e.name).Parsed?
    ensures HasTrack(AlbumStep(db, naming, path, albumId, stored, e).db.tracks, albumId, naming.track(e.name).info.title)
  {
    var o := AlbumStep(db, naming, path, albumId, stored, e);
    var info := naming.track(e.name).info;
    if info.title in stored {
      assert o.db == db;
    } else {
      assert o.db.tracks[|db.tracks|] in o.db.tracks;
    }
  }

  /**
   * After a successful album loop, the title of every audio file it visited is
   * a track of the album: stored before, or created by the loop.
   */
  lemma {:induction false} AlbumLoopComplete(db: Db, naming: Naming, path: string, albumId: int, stored: seq<string>, es: seq<Entry>)
    requires DbValid(db)
    requires forall s :: s in stored ==> HasTrack(db.tracks, albumId, s)
    requires AlbumLoop(db, naming, path, albumId, stored, es).ok
    ensures forall e :: e in es && AudioCandidate(naming, e) && naming.track(e.name).Parsed? ==>
      HasTrack(AlbumLoop(db, naming, path, albumId, stored, es).db.tracks, albumId, naming.track(e.name).info.title)
    decreases |es|
  {
    if es != [] {
      var e := es[0];
      var o := AlbumStep(db, naming, path, albumId, stored, e);
      var after := AlbumLoop(o.db, naming, path, albumId, stored, es[1..]).db;
      assert AlbumLoop(db, naming, path, albumId, stored, es).db == after;
      AlbumStepKeeps(db, naming, path, albumId, stored, e);
      forall s | s in stored ensures HasTrack(o.db.tracks, albumId, s) {
        HasTrackGrow(db.tracks, o.db.tracks, albumId, s);
      }
      AlbumLoopKeeps(o.db, naming, path, albumId, stored, es[1..]);
      AlbumLoopComplete(o.db, naming, path, albumId, stored, es[1..]);
      if AudioCandidate(naming, e) && naming.track(e.name).Parsed? {
        AlbumStepComplete(db, naming, path, albumId, stored, e);
        HasTrackGrow(o.db.tracks, after.tracks, albumId, naming.track(e.name).info.title);
      }
      assert forall e' :: e' in es ==> e' == e || e' in es[1..];
    }
  }

  /**
   * After a successful `scan_album`, every audio file of the directory has a
   * track with its parsed title on the album.
   */
  lemma {:induction false} ScanAlbumComplete(db: Db, naming: Naming, path: string, es: seq<Entry>, albumId: int)
    requires DbValid(db) && ScanAlbum(db, naming, path, es, albumId).ok
    ensures forall e :: e in es && AudioCandidate(naming, e) && naming.track(e.name).Parsed? ==>
      HasTrack(ScanAlbum(db, naming, path, es, albumId).db.tracks, albumId, naming.track(e.name).info.title)
  {
    var album := Albums.FindById(db.albums, albumId).value;
    var albumTracks := Tracks.GetAllByAlbum(db.tracks, album);
    var stored := Titles(albumTracks);
    forall s | s in stored ensures HasTrack(db.tracks, albumId, s) {
      var k :| 0 <= k < |stored| && stored[k] == s;
      assert albumTracks[k] in albumTracks;
    }
    AlbumLoopComplete(db, naming, path, albumId, stored, es);
  }

  /**
   * Some track from position `lo` on has the path `p`, the parsed title and
   * number `info`, the placeholder duration and the album id `albumId`.
   */
  predicate HasFileTrack(tracks: seq<Tracks.Track>, lo: nat, albumId: int, p: string, info: TrackInfo) {
    exists i :: lo <= i < |tracks| && tracks[i].path == p && tracks[i].title == info.title
      && tracks[i].trackNumber == info.trackNumber && tracks[i].duration == PlaceholderDuration && tracks[i].albumId == albumId
  }

  /** Appending tracks and lowering `lo` keep a file's track. */
  lemma {:induction false} HasFileTrackWiden(tracks: seq<Tracks.Track>, longer: seq<Tracks.Track>, lo: nat, lower: nat,
                                             albumId: int, p: string, info: TrackInfo)
    requires HasFileTrack(tracks, lo, albumId, p, info) && tracks <= longer && lower <= lo
    ensures HasFileTrack(longer, lower, albumId, p, info)
  {
    var i :| lo <= i < |tracks| && tracks[i].path == p && tracks[i].title == info.title
      && tracks[i].trackNumber == info.trackNumber && tracks[i].duration == PlaceholderDuration && tracks[i].albumId == albumId;
    assert longer[i] == tracks[i];
  }

  /**
   * One turn on an audio file whose parsed title is not stored succeeds and
   * appends exactly one track, for that file, with its path.
   */
  lemma {:induction false} AlbumStepCreatesTrack(db: Db, naming: Naming, path: string, albumId: int, stored: seq<string>, e: Entry)
    requires AudioCandidate(naming, e) && naming.track(e.name).Parsed? && naming.track(e.name).info.title !in stored
    ensures var o := AlbumStep(db, naming, path, albumId, stored, e);
      o.ok && |o.db.tracks| == |db.tracks| + 1 && o.db.tracks[..|db.tracks|] == db.tracks
      && HasFileTrack(o.db.tracks, |db.tracks|, albumId, Join(path, e.name), naming.track(e.name).info)
  {
    var o := AlbumStep(db, naming, path, albumId, stored, e);
    assert o.db.tracks[|db.tracks|].path == Join(path, e.name);
  }

  /**
   * After a successful album loop, every audio file it visited whose parsed
   * title was not stored has a track of its own among the appended ones: with
   * its full path, its title and number, the placeholder duration and the album id.
   */
  lemma {:induction false} AlbumLoopCreatesEach(db: Db, naming: Naming, path: string, albumId: int, stored: seq<string>, es: seq<Entry>)
    requires DbValid(db) && AlbumLoop(db, naming, path, albumId, stored, es).ok
    ensures forall e :: e in es && AudioCandidate(naming, e) && naming.track(e.name).Parsed? && naming.track(e.name).info.title !in stored ==>
      HasFileTrack(AlbumLoop(db, naming, path, albumId, stored, es).db.tracks, |db.tracks|, albumId, Join(path, e.name), naming.track(e.name).info)
    decreases |es|
  {
    if es != [] {
      var e := es[0];
      var o := AlbumStep(db, naming, path, albumId, stored, e);
      var after := AlbumLoop(o.db, naming, path, albumId, stored, es[1..]).db;
      assert AlbumLoop(db, naming, path, albumId, stored, es).db == after;
      AlbumStepKeeps(db, naming, path, albumId, stored, e);
      AlbumLoopKeeps(o.db, naming, path, albumId, stored, es[1..]);
      AlbumLoopCreatesEach(o.db, naming, path, albumId, stored, es[1..]);
      forall e' | e' in es && AudioCandidate(naming, e') && naming.track(e'.name).Parsed? && naming.track(e'.name).info.title !in stored
        ensures HasFileTrack(after.tracks, |db.tracks|, albumId, Join(path, e'.name), naming.track(e'.name).info)
      {
        if e' == e {
          AlbumStepCreatesTrack(db, naming, path, albumId, stored, e);
          HasFileTrackWiden(o.db.tracks, after.tracks, |db.tracks|, |db.tracks|, albumId, Join(path, e.name), naming.track(e.name).info);
        } else {
          assert e' in es[1..];
          HasFileTrackWiden(after.tracks, after.tracks, |o.db.tracks|, |db.tracks|, albumId, Join(path, e'.name), naming.track(e'.name).info);
        }
      }
    }
  }

  /**
   * After a successful `scan_album`, every audio file of the directory whose
   * parsed title the album did not have has a track of its own, with its path.
   */
  lemma {:induction false} ScanAlbumCreatesEach(db: Db, naming: Naming, path: string, es: seq<Entry>, albumId: int)
    requires DbValid(db) && ScanAlbum(db, naming, path, es, albumId).ok
    ensures Albums.FindById(db.albums, albumId).Some?
    ensures var stored := Titles(Tracks.GetAllByAlbum(db.tracks, Albums.FindById(db.albums, albumId).value));
      forall e :: e in es && AudioCandidate(naming, e) && naming.track(e.name).Parsed? && naming.track(e.name).info.title !in stored ==>
        HasFileTrack(ScanAlbum(db, naming, path, es, albumId).db.tracks, |db.tracks|, albumId, Join(path, e.name), naming.track(e.name).info)
  {
    ScanAlbumOkIff(db, naming, path, es, albumId);
    var stored := Titles(Tracks.GetAllByAlbum(db.tracks, Albums.FindById(db.albums, albumId).value));
    assert ScanAlbum(db, naming, path, es, albumId) == AlbumLoop(db, naming, path, albumId, stored, es);
    AlbumLoopCreatesEach(db, naming, path, albumId, stored, es);
  }

  /**
   * The stored titles are not refreshed inside the loop: two audio files whose
   * stems give the same new title both become tracks.
   */
  lemma {:induction false} SameTitleTwice(db: Db, naming: Naming, path: string, albumId: int, stored: seq<string>, e1: Entry, e2: Entry, title: string)
    requires AudioCandidate(naming, e1) && AudioCandidate(naming, e2) && title !in stored
    requires naming.track(e1.name).Parsed? && naming.track(e1.name).info.title == title
    requires naming.track(e2.name).Parsed? && naming.track(e2.name).info.title == title
    ensures var after := AlbumLoop(db, naming, path, albumId, stored, [e1, e2]);
      after.ok && |after.db.tracks| == |db.tracks| + 2
      && after.db.tracks[|db.tracks|].title == title && after.db.tracks[|db.tracks| + 1].title == title
  {
    var o1 := AlbumStep(db, naming, path, albumId, stored, e1);
    assert [e1, e2][1..] == [e2];
    assert [e2][1..] == [];
    assert AlbumLoop(db, naming, path, albumId, stored, [e1, e2]) == AlbumLoop(o1.db, naming, path, albumId, stored, [e2]);
  }

  // ---------------------------------------------------------------------------
  // scan_artist
  // ---------------------------------------------------------------------------

  /** `b` differs from `a` only by albums and tracks appended to their tables. */
  predicate ArtistsUnchanged(a: Db, b: Db) {
    b.artists == a.artists && b.nextArtistId == a.nextArtistId
    && a.albums <= b.albums && a.nextAlbumId <= b.nextAlbumId
    && a.tracks <= b.tracks && a.nextTrackId <= b.nextTrackId
  }

  /** An entry `scan_artist` and `scan_library` descend into: a directory whose name is not hidden. */
  predicate VisibleDir(e: Entry) {
    !IsHidden(e.name) && e.Dir?
  }

  /**
   * An album the artist loop creates: its title was not in the snapshot, its
   * path is the artist directory, it belongs to the artist being scanned, and
   * its title and year are those of one of the visited directories.
   */
  predicate CreatedAlbum(naming: Naming, a: Albums.Album, path: string, artistId: int, albums: map<string, int>, es: seq<Entry>) {
    a.path == path && a.artistId == artistId && a.title !in albums
    && exists e :: (e in es && VisibleDir(e) && naming.albumDir(e.name) == Some(AlbumDir(a.title, a.releaseYear)))
  }

  /** The album a visited directory names when its title is new: appended with the artist directory as its path. */
  lemma {:induction false} ArtistStepCreates(db: Db, naming: Naming, path: string, artistId: int, albums: map<string, int>,
                                             e: Entry, dir: AlbumDir)
    requires DbValid(db) && VisibleDir(e) && naming.albumDir(e.name) == Some(dir) && dir.title !in albums
    ensures DbValid(ArtistStep(db, naming, path, artistId, albums, e).db)
    ensures ArtistsUnchanged(db, ArtistStep(db, naming, path, artistId, albums, e).db)
    ensures |ArtistStep(db, naming, path, artistId, albums, e).db.albums| == |db.albums| + 1
    ensures CreatedAlbum(naming, ArtistStep(db, naming, path, artistId, albums, e).db.albums[|db.albums|], path, artistId, albums, [e])
  {
    var body := Albums.AlbumCreate(dir.title, path, dir.year, artistId);
    var mid := AddAlbum(db, body);
    Albums.CreateKeepsTableOk(db.albums, db.nextAlbumId, body);
    assert ArtistStep(db, naming, path, artistId, albums, e) == ScanAlbum(mid, naming, Join(path, e.name), e.children, db.nextAlbumId);
    ScanAlbumKeeps(mid, naming, Join(path, e.name), e.children, db.nextAlbumId);
    assert ScanAlbum(mid, naming, Join(path, e.name), e.children, db.nextAlbumId).db.albums[|db.albums|] == mid.albums[|db.albums|];
    assert e in [e];
  }

  /** One turn of the artist loop appends at most one album and then only tracks. */
  lemma {:induction false} ArtistStepKeeps(db: Db, naming: Naming, path: string, artistId: int, albums: map<string, int>, e: Entry)
    requires DbValid(db)
    ensures DbValid(ArtistStep(db, naming, path, artistId, albums, e).db)
    ensures ArtistsUnchanged(db, ArtistStep(db, naming, path, artistId, albums, e).db)
    ensures |ArtistStep(db, naming, path, artistId, albums, e).db.albums| <= |db.albums| + 1
    ensures |ArtistStep(db, naming, path, artistId, albums, e).db.albums| == |db.albums| + 1 ==>
      CreatedAlbum(naming, ArtistStep(db, naming, path, artistId, albums, e).db.albums[|db.albums|], path, artistId, albums, [e])
  {
    if VisibleDir(e) && naming.albumDir(e.name).Some? {
      var dir := naming.albumDir(e.name).value;
      if dir.title in albums {
        assert ArtistStep(db, naming, path, artistId, albums, e) == ScanAlbum(db, naming, Join(path, e.name), e.children, albums[dir.title]);
        ScanAlbumKeeps(db, naming, Join(path, e.name), e.children, albums[dir.title]);
      } else {
        ArtistStepCreates(db, naming, path, artistId, albums, e, dir);
      }
    }
  }

  /** The artist loop never touches the artist table, only appends albums and tracks, and keeps the catalog well formed. */
  lemma {:induction false} ArtistLoopKeeps(db: Db, naming: Naming, path: string, artistId: int, albums: map<string, int>, es: seq<Entry>)
    requires DbValid(db)
    ensures DbValid(ArtistLoop(db, naming, path, artistId, albums, es).db)
    ensures ArtistsUnchanged(db, ArtistLoop(db, naming, path, artistId, albums, es).db)
    decreases |es|
  {
    if es != [] {
      var o := ArtistStep(db, naming, path, artistId, albums, es[0]);
      ArtistStepKeeps(db, naming, path, artistId, albums, es[0]);
      if o.ok {
        ArtistLoopKeeps(o.db, naming, path, artistId, albums, es[1..]);
      }
    }
  }

  /** `scan_artist` never touches the artist table, only appends albums and tracks, and keeps the catalog well formed. */
  lemma {:induction false} ScanArtistKeeps(db: Db, naming: Naming, path: string, es: seq<Entry>, artistId: int)
    requires DbValid(db)
    ensures DbValid(ScanArtist(db, naming, path, es, artistId).db)
    ensures ArtistsUnchanged(db, ScanArtist(db, naming, path, es, artistId).db)
  {
    ArtistLoopKeeps(db, naming, path, artistId, AlbumMap(db.albums), es);
  }

  /** Widening the visited entries keeps a created album created from one of them. */
  lemma {:induction false} CreatedAlbumWiden(naming: Naming, a: Albums.Album, path: string, artistId: int, albums: map<string, int>,
                          es: seq<Entry>, more: seq<Entry>)
    requires CreatedAlbum(naming, a, path, artistId, albums, es)
    requires forall e :: e in es ==> e in more
    ensures CreatedAlbum(naming, a, path, artistId, albums, more)
  {
    var e :| e in es && VisibleDir(e) && naming.albumDir(e.name) == Some(AlbumDir(a.title, a.releaseYear));
    assert e in more;
  }

  /**
   * Every album the artist loop appends has the artist directory as its path,
   * the artist's id, a title absent from the snapshot, and the title and year
   * parsed from one of the visited directories.
   */
  lemma {:induction false} ArtistLoopNewAlbums(db: Db, naming: Naming, path: string, artistId: int, albums: map<string, int>, es: seq<Entry>)
    requires DbValid(db)
    ensures var after := ArtistLoop(db, naming, path, artistId, albums, es).db;
      forall i :: |db.albums| <= i < |after.albums| ==> CreatedAlbum(naming, after.albums[i], path, artistId, albums, es)
    decreases |es|
  {
    if es != [] {
      var e := es[0];
      var o := ArtistStep(db, naming, path, artistId, albums, e);
      ArtistStepKeeps(db, naming, path, artistId, albums, e);
      assert e in es;
      if |o.db.albums| == |db.albums| + 1 {
        CreatedAlbumWiden(naming, o.db.albums[|db.albums|], path, artistId, albums, [e], es);
      }
      if !o.ok {
        assert ArtistLoop(db, naming, path, artistId, albums, es) == o;
      } else {
        var after := ArtistLoop(o.db, naming, path, artistId, albums, es[1..]).db;
        assert ArtistLoop(db, naming, path, artistId, albums, es).db == after;
        ArtistLoopKeeps(o.db, naming, path, artistId, albums, es[1..]);
        ArtistLoopNewAlbums(o.db, naming, path, artistId, albums, es[1..]);
        assert forall j :: |o.db.albums| <= j < |ArtistLoop(o.db, naming, path, artistId, albums, es[1..]).db.albums| ==>
          CreatedAlbum(naming, ArtistLoop(o.db, naming, path, artistId, albums, es[1..]).db.albums[j], path, artistId, albums, es[1..]);
        if |o.db.albums| == |db.albums| + 1 {
          assert after.albums[|db.albums|] == o.db.albums[|db.albums|];
        }
        assert forall e' :: e' in es[1..] ==> e' in es;
        CreatedAlbumsJoin(naming, path, artistId, albums, after.albums, |db.albums|, |o.db.albums|, es[1..], es);
      }
    }
  }

  /** The album of the first turn, if any, and those created from the rest of the entries were all created from the entries. */
  lemma {:induction false} CreatedAlbumsJoin(naming: Naming, path: string, artistId: int, albums: map<string, int>,
                                             rows: seq<Albums.Album>, lo: nat, mid: nat, rest: seq<Entry>, es: seq<Entry>)
    requires mid == lo <= |rows| || (mid == lo + 1 <= |rows| && CreatedAlbum(naming, rows[lo], path, artistId, albums, es))
    requires forall i :: mid <= i < |rows| ==> CreatedAlbum(naming, rows[i], path, artistId, albums, rest)
    requires forall e :: e in rest ==> e in es
    ensures forall i :: lo <= i < |rows| ==> CreatedAlbum(naming, rows[i], path, artistId, albums, es)
  {
    forall i | mid <= i < |rows| ensures CreatedAlbum(naming, rows[i], path, artistId, albums, es) {
      CreatedAlbumWiden(naming, rows[i], path, artistId, albums, rest, es);
    }
  }

  /**
   * Album lookup is by title alone: when every album directory's title is
   * already known, no album is created and the artist id is irrelevant, so the
   * directories are filed under albums whoever owns them.
   */
  lemma {:induction false} ArtistIdIrrelevantForKnownTitles(db: Db, naming: Naming, path: string, a1: int, a2: int,
                                                           albums: map<string, int>, es: seq<Entry>)
    requires forall e :: e in es && VisibleDir(e) && naming.albumDir(e.name).Some? ==> naming.albumDir(e.name).value.title in albums
    ensures ArtistLoop(db, naming, path, a1, albums, es) == ArtistLoop(db, naming, path, a2, albums, es)
    decreases |es|
  {
    if es != [] {
      assert es[0] in es;
      assert ArtistStep(db, naming, path, a1, albums, es[0]) == ArtistStep(db, naming, path, a2, albums, es[0]);
      var o := ArtistStep(db, naming, path, a1, albums, es[0]);
      ArtistIdIrrelevantForKnownTitles(o.db, naming, path, a1, a2, albums, es[1..]);
    }
  }

  /** The snapshot's ids are ids of rows of the album table. */
  predicate AlbumIdsIn(albums: map<string, int>, rows: seq<Albums.Album>) {
    forall title :: title in albums ==> Albums.FindById(rows, albums[title]).Some?
  }

  /** Every id in the album snapshot is the id of a row: the one it was collected from. */
  lemma {:induction false} AlbumMapIdsIn(rows: seq<Albums.Album>)
    ensures AlbumIdsIn(AlbumMap(rows), rows)
  {
    forall title | title in AlbumMap(rows) ensures Albums.FindById(rows, AlbumMap(rows)[title]).Some? {
      var k := LastTitled(rows, title);
      assert rows[k] in rows;
    }
  }

  /** Snapshot ids stay rows as the artist loop appends albums. */
  lemma {:induction false} AlbumIdsExtend(albums: map<string, int>, a: Db, b: Db)
    requires ArtistsUnchanged(a, b) && AlbumIdsIn(albums, a.albums)
    ensures AlbumIdsIn(albums, b.albums)
  {
    forall title | title in albums ensures Albums.FindById(b.albums, albums[title]).Some? {
      var r := Albums.FindById(a.albums, albums[title]).value;
      var k :| 0 <= k < |a.albums| && a.albums[k] == r;
      assert b.albums[k] == r && b.albums[k] in b.albums;
    }
  }

  /**
   * A visible directory whose title is in the snapshot creates no album: its
   * audio files are scanned into the album whose id the snapshot holds for
   * that title, whichever artist owns it, against the titles that album had,
   * and the step fails exactly when one of their stems does not parse.
   */
  lemma {:induction false} ArtistStepKnownTitle(db: Db, naming: Naming, path: string, artistId: int, albums: map<string, int>,
                                                e: Entry, dir: AlbumDir)
    requires DbValid(db) && VisibleDir(e) && naming.albumDir(e.name) == Some(dir) && dir.title in albums
    requires Albums.FindById(db.albums, albums[dir.title]).Some?
    ensures DbValid(ArtistStep(db, naming, path, artistId, albums, e).db)
    ensures TracksAppended(db, ArtistStep(db, naming, path, artistId, albums, e).db)
    ensures var after := ArtistStep(db, naming, path, artistId, albums, e).db;
      var stored := Titles(Tracks.GetAllByAlbum(db.tracks, Albums.FindById(db.albums, albums[dir.title]).value));
      forall i :: |db.tracks| <= i < |after.tracks| ==>
        CreatedTrack(naming, after.tracks[i], Join(path, e.name), albums[dir.title], stored, e.children)
    ensures ArtistStep(db, naming, path, artistId, albums, e).ok <==>
      forall c :: c in e.children && AudioCandidate(naming, c) ==> naming.track(c.name).Parsed?
  {
    var id := albums[dir.title];
    assert ArtistStep(db, naming, path, artistId, albums, e) == ScanAlbum(db, naming, Join(path, e.name), e.children, id);
    ScanAlbumKeeps(db, naming, Join(path, e.name), e.children, id);
    ScanAlbumNewTracks(db, naming, Join(path, e.name), e.children, id);
    ScanAlbumOkIff(db, naming, Join(path, e.name), e.children, id);
  }

  /**
   * The album a track of the directory titled `title` is filed under: the one
   * the snapshot holds for the title when it is known, else one with that title
   * among the rows from position `lo` on (those the artist loop appended).
   */
  predicate FiledUnder(albumId: int, title: string, albums: map<string, int>, rows: seq<Albums.Album>, lo: nat) {
    if title in albums then albumId == albums[title]
    else exists k :: lo <= k < |rows| && rows[k].title == title && rows[k].id == albumId
  }

  /**
   * The track `t` comes from the audio file `c` of the visited album directory
   * `e`, with that file's path, number and title, and is filed under the
   * directory's album.
   */
  predicate FiledFrom(naming: Naming, t: Tracks.Track, path: string, albums: map<string, int>, e: Entry, c: Entry,
                      rows: seq<Albums.Album>, lo: nat) {
    VisibleDir(e) && naming.albumDir(e.name).Some? && c in e.children && AudioCandidate(naming, c)
    && t.path == Join(Join(path, e.name), c.name) && naming.track(c.name) == Parsed(TrackInfo(t.title, t.trackNumber))
    && FiledUnder(t.albumId, naming.albumDir(e.name).value.title, albums, rows, lo)
  }

  /** A track the artist loop creates: the placeholder duration, from an audio file of one of the visited album directories. */
  predicate FiledTrack(naming: Naming, t: Tracks.Track, path: string, albums: map<string, int>, es: seq<Entry>,
                       rows: seq<Albums.Album>, lo: nat) {
    t.duration == PlaceholderDuration && exists e, c :: e in es && e.Dir? && c in e.children && FiledFrom(naming, t, path, albums, e, c, rows, lo)
  }

  /** A track `scan_album` created in a visited album directory is a filed track of the artist loop. */
  lemma {:induction false} FiledFromCreated(naming: Naming, t: Tracks.Track, path: string, albums: map<string, int>, e: Entry,
                                            rows: seq<Albums.Album>, lo: nat, stored: seq<string>)
    requires VisibleDir(e) && naming.albumDir(e.name).Some?
    requires CreatedTrack(naming, t, Join(path, e.name), t.albumId, stored, e.children)
    requires FiledUnder(t.albumId, naming.albumDir(e.name).value.title, albums, rows, lo)
    ensures FiledTrack(naming, t, path, albums, [e], rows, lo)
  {
    var c :| c in e.children && AudioCandidate(naming, c) && t.path == Join(Join(path, e.name), c.name)
      && naming.track(c.name) == Parsed(TrackInfo(t.title, t.trackNumber));
    assert e in [e] && FiledFrom(naming, t, path, albums, e, c, rows, lo);
  }

  /** Extending the rows and lowering `lo` keep the album a track is filed under. */
  lemma {:induction false} FiledUnderWiden(albumId: int, title: string, albums: map<string, int>,
                                           rows: seq<Albums.Album>, longer: seq<Albums.Album>, lo: nat, lower: nat)
    requires FiledUnder(albumId, title, albums, rows, lo)
    requires rows <= longer && lower <= lo
    ensures FiledUnder(albumId, title, albums, longer, lower)
  {
    if title !in albums {
      var k :| lo <= k < |rows| && rows[k].title == title && rows[k].id == albumId;
      assert longer[k] == rows[k];
    }
  }

  /** Widening the visited entries, extending the rows and lowering `lo` keep a track filed. */
  lemma {:induction false} FiledTrackWiden(naming: Naming, t: Tracks.Track, path: string, albums: map<string, int>,
                                           es: seq<Entry>, more: seq<Entry>, rows: seq<Albums.Album>, longer: seq<Albums.Album>,
                                           lo: nat, lower: nat)
    requires FiledTrack(naming, t, path, albums, es, rows, lo)
    requires forall e :: e in es ==> e in more
    requires rows <= longer && lower <= lo
    ensures FiledTrack(naming, t, path, albums, more, longer, lower)
  {
    var e, c :| e in es && e.Dir? && c in e.children && FiledFrom(naming, t, path, albums, e, c, rows, lo);
    FiledUnderWiden(t.albumId, naming.albumDir(e.name).value.title, albums, rows, longer, lo, lower);
    assert e in more;
    assert FiledFrom(naming, t, path, albums, e, c, longer, lower);
  }

  /** The tracks a directory with a known title gets are filed under the snapshot's album for that title. */
  lemma {:induction false} ArtistStepKnownTracks(db: Db, naming: Naming, path: string, artistId: int, albums: map<string, int>,
                                                 e: Entry, dir: AlbumDir)
    requires DbValid(db) && VisibleDir(e) && naming.albumDir(e.name) == Some(dir) && dir.title in albums
    ensures var after := ArtistStep(db, naming, path, artistId, albums, e).db;
      forall i :: |db.tracks| <= i < |after.tracks| ==> FiledTrack(naming, after.tracks[i], path, albums, [e], after.albums, |db.albums|)
  {
    var after := ArtistStep(db, naming, path, artistId, albums, e).db;
    var id := albums[dir.title];
    if Albums.FindById(db.albums, id).Some? {
      ArtistStepKnownTitle(db, naming, path, artistId, albums, e, dir);
      var stored := Titles(Tracks.GetAllByAlbum(db.tracks, Albums.FindById(db.albums, id).value));
      forall i | |db.tracks| <= i < |after.tracks|
        ensures FiledTrack(naming, after.tracks[i], path, albums, [e], after.albums, |db.albums|)
      {
        FiledFromCreated(naming, after.tracks[i], path, albums, e, after.albums, |db.albums|, stored);
      }
    } else {
      assert ArtistStep(db, naming, path, artistId, albums, e) == Outcome(false, db);
    }
  }

  /** The tracks a directory with a new title gets are filed under the album the step creates. */
  lemma {:induction false} ArtistStepNewTitleTracks(db: Db, naming: Naming, path: string, artistId: int, albums: map<string, int>,
                                                    e: Entry, dir: AlbumDir)
    requires DbValid(db) && VisibleDir(e) && naming.albumDir(e.name) == Some(dir) && dir.title !in albums
    ensures var after := ArtistStep(db, naming, path, artistId, albums, e).db;
      forall i :: |db.tracks| <= i < |after.tracks| ==> FiledTrack(naming, after.tracks[i], path, albums, [e], after.albums, |db.albums|)
  {
    var after := ArtistStep(db, naming, path, artistId, albums, e).db;
    var id := db.nextAlbumId;
    var body := Albums.AlbumCreate(dir.title, path, dir.year, artistId);
    var mid := AddAlbum(db, body);
    Albums.CreateKeepsTableOk(db.albums, db.nextAlbumId, body);
    Albums.FindByIdAt(mid.albums, mid.nextAlbumId, |db.albums|);
    assert ArtistStep(db, naming, path, artistId, albums, e) == ScanAlbum(mid, naming, Join(path, e.name), e.children, id);
    ScanAlbumKeeps(mid, naming, Join(path, e.name), e.children, id);
    ScanAlbumNewTracks(mid, naming, Join(path, e.name), e.children, id);
    var stored := Titles(Tracks.GetAllByAlbum(mid.tracks, Albums.FindById(mid.albums, id).value));
    assert after.albums[|db.albums|] == Albums.NewAlbum(id, body);
    forall i | |db.tracks| <= i < |after.tracks|
      ensures FiledTrack(naming, after.tracks[i], path, albums, [e], after.albums, |db.albums|)
    {
      FiledFromCreated(naming, after.tracks[i], path, albums, e, after.albums, |db.albums|, stored);
    }
  }

  /** The tracks one turn of the artist loop appends are filed under the visited directory's album. */
  lemma {:induction false} ArtistStepNewTracks(db: Db, naming: Naming, path: string, artistId: int, albums: map<string, int>, e: Entry)
    requires DbValid(db)
    ensures var after := ArtistStep(db, naming, path, artistId, albums, e).db;
      forall i :: |db.tracks| <= i < |after.tracks| ==> FiledTrack(naming, after.tracks[i], path, albums, [e], after.albums, |db.albums|)
  {
    if VisibleDir(e) && naming.albumDir(e.name).Some? {
      var dir := naming.albumDir(e.name).value;
      if dir.title in albums {
        ArtistStepKnownTracks(db, naming, path, artistId, albums, e, dir);
      } else {
        ArtistStepNewTitleTracks(db, naming, path, artistId, albums, e, dir);
      }
    }
  }

  /**
   * Every track the artist loop appends has the placeholder duration and the
   * path, number and title of an audio file in one of the visited album
   * directories, and is filed under the album the snapshot holds for that
   * directory's title or, for a new title, under an album the loop created
   * with that title.
   */
  lemma {:induction false} ArtistLoopNewTracks(db: Db, naming: Naming, path: string, artistId: int, albums: map<string, int>, es: seq<Entry>)
    requires DbValid(db)
    ensures var after := ArtistLoop(db, naming, path, artistId, albums, es).db;
      forall i :: |db.tracks| <= i < |after.tracks| ==> FiledTrack(naming, after.tracks[i], path, albums, es, after.albums, |db.albums|)
    decreases |es|
  {
    if es != [] {
      var e := es[0];
      var o := ArtistStep(db, naming, path, artistId, albums, e);
      ArtistStepKeeps(db, naming, path, artistId, albums, e);
      ArtistStepNewTracks(db, naming, path, artistId, albums, e);
      assert e in es;
      if !o.ok {
        forall i | |db.tracks| <= i < |o.db.tracks|
          ensures FiledTrack(naming, o.db.tracks[i], path, albums, es, o.db.albums, |db.albums|)
        {
          FiledTrackWiden(naming, o.db.tracks[i], path, albums, [e], es, o.db.albums, o.db.albums, |db.albums|, |db.albums|);
        }
      } else {
        var after := ArtistLoop(o.db, naming, path, artistId, albums, es[1..]).db;
        assert ArtistLoop(db, naming, path, artistId, albums, es).db == after;
        ArtistLoopKeeps(o.db, naming, path, artistId, albums, es[1..]);
        ArtistLoopNewTracks(o.db, naming, path, artistId, albums, es[1..]);
        assert forall j :: |o.db.tracks| <= j < |ArtistLoop(o.db, naming, path, artistId, albums, es[1..]).db.tracks| ==>
          FiledTrack(naming, ArtistLoop(o.db, naming, path, artistId, albums, es[1..]).db.tracks[j], path, albums, es[1..],
            ArtistLoop(o.db, naming, path, artistId, albums, es[1..]).db.albums, |o.db.albums|);
        assert forall e' :: e' in es[1..] ==> e' in es;
        forall i | |db.tracks| <= i < |after.tracks|
          ensures FiledTrack(naming, after.tracks[i], path, albums, es, after.albums, |db.albums|)
        {
          if i >= |o.db.tracks| {
            FiledTrackWiden(naming, after.tracks[i], path, albums, es[1..], es, after.albums, after.albums, |o.db.albums|, |db.albums|);
          } else {
            assert after.tracks[i] == o.db.tracks[i];
            FiledTrackWiden(naming, o.db.tracks[i], path, albums, [e], es, o.db.albums, after.albums, |db.albums|, |db.albums|);
          }
        }
      }
    }
  }

  /**
   * Every track `scan_artist` appends comes from an audio file of one of its
   * album directories and is filed under the album the title snapshot holds
   * for that directory's title (the last album so titled, whichever artist owns
   * it), or, for a new title, under an album the scan created with that title.
   */
  lemma {:induction false} ScanArtistNewTracks(db: Db, naming: Naming, path: string, es: seq<Entry>, artistId: int)
    requires DbValid(db)
    ensures var after := ScanArtist(db, naming, path, es, artistId).db;
      forall i :: |db.tracks| <= i < |after.tracks| ==>
        FiledTrack(naming, after.tracks[i], path, AlbumMap(db.albums), es, after.albums, |db.albums|)
  {
    var m := AlbumMap(db.albums);
    var after := ArtistLoop(db, naming, path, artistId, m, es).db;
    assert ScanArtist(db, naming, path, es, artistId).db == after;
    ArtistLoopNewTracks(db, naming, path, artistId, m, es);
    assert forall i :: |db.tracks| <= i < |ArtistLoop(db, naming, path, artistId, m, es).db.tracks| ==>
      FiledTrack(naming, ArtistLoop(db, naming, path, artistId, m, es).db.tracks[i], path, m, es,
        ArtistLoop(db, naming, path, artistId, m, es).db.albums, |db.albums|);
  }

  /** The audio files of an entry the artist loop scans as an album all have stems that parse. */
  predicate AlbumFilesParse(naming: Naming, e: Entry) {
    VisibleDir(e) && naming.albumDir(e.name).Some? ==>
      forall c :: c in e.children && AudioCandidate(naming, c) ==> naming.track(c.name).Parsed?
  }

  /**
   * With every snapshot id a row, a turn of the artist loop fails exactly when
   * an audio stem of the album directory does not parse: the album lookup of
   * `scan_album` finds the reused or the new album.
   */
  lemma {:induction false} ArtistStepOkIff(db: Db, naming: Naming, path: string, artistId: int, albums: map<string, int>, e: Entry)
    requires DbValid(db) && AlbumIdsIn(albums, db.albums)
    ensures ArtistStep(db, naming, path, artistId, albums, e).ok <==> AlbumFilesParse(naming, e)
  {
    if VisibleDir(e) && naming.albumDir(e.name).Some? {
      var dir := naming.albumDir(e.name).value;
      if dir.title in albums {
        ArtistStepKnownTitle(db, naming, path, artistId, albums, e, dir);
      } else {
        var body := Albums.AlbumCreate(dir.title, path, dir.year, artistId);
        var mid := AddAlbum(db, body);
        Albums.CreateKeepsTableOk(db.albums, db.nextAlbumId, body);
        Albums.FindByIdAt(mid.albums, mid.nextAlbumId, |db.albums|);
        assert ArtistStep(db, naming, path, artistId, albums, e)
          == ScanAlbum(mid, naming, Join(path, e.name), e.children, db.nextAlbumId);
        ScanAlbumOkIff(mid, naming, Join(path, e.name), e.children, db.nextAlbumId);
      }
    }
  }

  /** With every snapshot id a row, the artist loop succeeds exactly when every album directory's audio stems parse. */
  lemma {:induction false} ArtistLoopOkIff(db: Db, naming: Naming, path: string, artistId: int, albums: map<string, int>, es: seq<Entry>)
    requires DbValid(db) && AlbumIdsIn(albums, db.albums)
    ensures ArtistLoop(db, naming, path, artistId, albums, es).ok <==> forall e :: e in es ==> AlbumFilesParse(naming, e)
    decreases |es|
  {
    if es != [] {
      var o := ArtistStep(db, naming, path, artistId, albums, es[0]);
      ArtistStepOkIff(db, naming, path, artistId, albums, es[0]);
      assert forall e :: e in es <==> e == es[0] || e in es[1..];
      if o.ok {
        ArtistStepKeeps(db, naming, path, artistId, albums, es[0]);
        AlbumIdsExtend(albums, db, o.db);
        ArtistLoopOkIff(o.db, naming, path, artistId, albums, es[1..]);
      }
    }
  }

  /**
   * `scan_artist` fails exactly when an audio file of one of its album
   * directories has a stem that does not parse: the album lookup of
   * `scan_album` (the `unwrap` of scanner/src/lib.rs:130) never fails under it.
   */
  lemma {:induction false} ScanArtistOkIff(db: Db, naming: Naming, path: string, es: seq<Entry>, artistId: int)
    requires DbValid(db)
    ensures ScanArtist(db, naming, path, es, artistId).ok <==> forall e :: e in es ==> AlbumFilesParse(naming, e)
  {
    AlbumMapIdsIn(db.albums);
    ArtistLoopOkIff(db, naming, path, artistId, AlbumMap(db.albums), es);
  }

  /** Every audio file of `cs` whose stem parses has a track with its title on the album with id `id`. */
  predicate AlbumHasFiles(naming: Naming, tracks: seq<Tracks.Track>, id: int, cs: seq<Entry>) {
    forall c :: c in cs && AudioCandidate(naming, c) && naming.track(c.name).Parsed? ==> HasTrack(tracks, id, naming.track(c.name).info.title)
  }

  /**
   * The album directory `e`, if the artist loop scans it, was scanned into the
   * album it is filed under: all its audio files are tracks of that album.
   */
  ghost predicate AlbumDirScanned(naming: Naming, tracks: seq<Tracks.Track>, albums: map<string, int>, rows: seq<Albums.Album>, lo: nat, e: Entry) {
    VisibleDir(e) && naming.albumDir(e.name).Some? ==>
      exists id :: FiledUnder(id, naming.albumDir(e.name).value.title, albums, rows, lo) && AlbumHasFiles(naming, tracks, id, e.children)
  }

  /** Appending albums and tracks and lowering `lo` keep a directory scanned. */
  lemma {:induction false} AlbumDirScannedWiden(naming: Naming, tracks: seq<Tracks.Track>, longer: seq<Tracks.Track>,
                                                albums: map<string, int>, rows: seq<Albums.Album>, moreRows: seq<Albums.Album>,
                                                lo: nat, lower: nat, e: Entry)
    requires AlbumDirScanned(naming, tracks, albums, rows, lo, e)
    requires tracks <= longer && rows <= moreRows && lower <= lo
    ensures AlbumDirScanned(naming, longer, albums, moreRows, lower, e)
  {
    if VisibleDir(e) && naming.albumDir(e.name).Some? {
      var title := naming.albumDir(e.name).value.title;
      var id :| FiledUnder(id, title, albums, rows, lo) && AlbumHasFiles(naming, tracks, id, e.children);
      FiledUnderWiden(id, title, albums, rows, moreRows, lo, lower);
      forall c | c in e.children && AudioCandidate(naming, c) && naming.track(c.name).Parsed?
        ensures HasTrack(longer, id, naming.track(c.name).info.title)
      {
        HasTrackGrow(tracks, longer, id, naming.track(c.name).info.title);
      }
      assert AlbumHasFiles(naming, longer, id, e.children);
    }
  }

  /** A successful turn of the artist loop scans the album directory into its album. */
  lemma {:induction false} ArtistStepComplete(db: Db, naming: Naming, path: string, artistId: int, albums: map<string, int>, e: Entry)
    requires DbValid(db) && ArtistStep(db, naming, path, artistId, albums, e).ok
    ensures var after := ArtistStep(db, naming, path, artistId, albums, e).db;
      AlbumDirScanned(naming, after.tracks, albums, after.albums, |db.albums|, e)
  {
    var after := ArtistStep(db, naming, path, artistId, albums, e).db;
    if VisibleDir(e) && naming.albumDir(e.name).Some? {
      var dir := naming.albumDir(e.name).value;
      if dir.title in albums {
        var id := albums[dir.title];
        assert ArtistStep(db, naming, path, artistId, albums, e) == ScanAlbum(db, naming, Join(path, e.name), e.children, id);
        ScanAlbumComplete(db, naming, Join(path, e.name), e.children, id);
        assert FiledUnder(id, dir.title, albums, after.albums, |db.albums|) && AlbumHasFiles(naming, after.tracks, id, e.children);
      } else {
        var id := db.nextAlbumId;
        var body := Albums.AlbumCreate(dir.title, path, dir.year, artistId);
        var mid := AddAlbum(db, body);
        Albums.CreateKeepsTableOk(db.albums, db.nextAlbumId, body);
        assert ArtistStep(db, naming, path, artistId, albums, e) == ScanAlbum(mid, naming, Join(path, e.name), e.children, id);
        ScanAlbumKeeps(mid, naming, Join(path, e.name), e.children, id);
        ScanAlbumComplete(mid, naming, Join(path, e.name), e.children, id);
        assert after.albums[|db.albums|] == Albums.NewAlbum(id, body);
        assert FiledUnder(id, dir.title, albums, after.albums, |db.albums|) && AlbumHasFiles(naming, after.tracks, id, e.children);
      }
    }
  }

  /**
   * After a successful artist loop, every album directory it visited was
   * scanned: each audio file whose stem parses is a track, with its title, of
   * the album the snapshot holds for the directory's title or of an album the
   * loop created with that title.
   */
  lemma {:induction false} ArtistLoopComplete(db: Db, naming: Naming, path: string, artistId: int, albums: map<string, int>, es: seq<Entry>)
    requires DbValid(db) && ArtistLoop(db, naming, path, artistId, albums, es).ok
    ensures forall e :: e in es ==> AlbumDirScanned(naming, ArtistLoop(db, naming, path, artistId, albums, es).db.tracks, albums,
      ArtistLoop(db, naming, path, artistId, albums, es).db.albums, |db.albums|, e)
    decreases |es|
  {
    if es != [] {
      var e := es[0];
      var o := ArtistStep(db, naming, path, artistId, albums, e);
      var after := ArtistLoop(o.db, naming, path, artistId, albums, es[1..]).db;
      assert ArtistLoop(db, naming, path, artistId, albums, es).db == after;
      ArtistStepKeeps(db, naming, path, artistId, albums, e);
      ArtistStepComplete(db, naming, path, artistId, albums, e);
      ArtistLoopKeeps(o.db, naming, path, artistId, albums, es[1..]);
      ArtistLoopComplete(o.db, naming, path, artistId, albums, es[1..]);
      forall e' | e' in es ensures AlbumDirScanned(naming, after.tracks, albums, after.albums, |db.albums|, e') {
        if e' == e {
          AlbumDirScannedWiden(naming, o.db.tracks, after.tracks, albums, o.db.albums, after.albums, |db.albums|, |db.albums|, e);
        } else {
          assert e' in es[1..];
          AlbumDirScannedWiden(naming, after.tracks, after.tracks, albums, after.albums, after.albums, |o.db.albums|, |db.albums|, e');
        }
      }
    }
  }

  /**
   * After a successful `scan_artist`, every album directory was scanned into
   * the album the title snapshot holds for it or one the scan created.
   */
  lemma {:induction false} ScanArtistComplete(db: Db, naming: Naming, path: string, es: seq<Entry>, artistId: int)
    requires DbValid(db) && ScanArtist(db, naming, path, es, artistId).ok
    ensures forall e :: e in es ==> AlbumDirScanned(naming, ScanArtist(db, naming, path, es, artistId).db.tracks, AlbumMap(db.albums),
      ScanArtist(db, naming, path, es, artistId).db.albums, |db.albums|, e)
  {
    ArtistLoopComplete(db, naming, path, artistId, AlbumMap(db.albums), es);
  }

  /**
   * The album directory `e`, if it is one, has an album titled as it is in
   * `rows` whose tracks include all its audio files.
   */
  predicate AlbumDirIn(naming: Naming, tracks: seq<Tracks.Track>, rows: seq<Albums.Album>, e: Entry) {
    VisibleDir(e) && naming.albumDir(e.name).Some? ==>
      exists k :: 0 <= k < |rows| && rows[k].title == naming.albumDir(e.name).value.title && AlbumHasFiles(naming, tracks, rows[k].id, e.children)
  }

  /** Appending albums and tracks keep an album directory in the catalog. */
  lemma {:induction false} AlbumDirInWiden(naming: Naming, tracks: seq<Tracks.Track>, longer: seq<Tracks.Track>,
                                           rows: seq<Albums.Album>, moreRows: seq<Albums.Album>, e: Entry)
    requires AlbumDirIn(naming, tracks, rows, e) && tracks <= longer && rows <= moreRows
    ensures AlbumDirIn(naming, longer, moreRows, e)
  {
    if VisibleDir(e) && naming.albumDir(e.name).Some? {
      var k :| 0 <= k < |rows| && rows[k].title == naming.albumDir(e.name).value.title && AlbumHasFiles(naming, tracks, rows[k].id, e.children);
      forall c | c in e.children && AudioCandidate(naming, c) && naming.track(c.name).Parsed?
        ensures HasTrack(longer, rows[k].id, naming.track(c.name).info.title)
      {
        HasTrackGrow(tracks, longer, rows[k].id, naming.track(c.name).info.title);
      }
      assert moreRows[k] == rows[k];
    }
  }

  /** A directory scanned against the snapshot of `base` has an album titled as it is. */
  lemma {:induction false} ScannedIsIn(naming: Naming, tracks: seq<Tracks.Track>, base: seq<Albums.Album>, rows: seq<Albums.Album>, e: Entry)
    requires base <= rows && AlbumDirScanned(naming, tracks, AlbumMap(base), rows, |base|, e)
    ensures AlbumDirIn(naming, tracks, rows, e)
  {
    if VisibleDir(e) && naming.albumDir(e.name).Some? {
      var title := naming.albumDir(e.name).value.title;
      var id :| FiledUnder(id, title, AlbumMap(base), rows, |base|) && AlbumHasFiles(naming, tracks, id, e.children);
      if title in AlbumMap(base) {
        var k := LastTitled(base, title);
        assert rows[k] == base[k];
      } else {
        var k :| |base| <= k < |rows| && rows[k].title == title && rows[k].id == id;
      }
    }
  }

  /**
   * After a successful `scan_artist`, every album directory of the artist has
   * an album titled as it is whose tracks include all its audio files.
   */
  lemma {:induction false} ScanArtistFilesIn(db: Db, naming: Naming, path: string, es: seq<Entry>, artistId: int)
    requires DbValid(db) && ScanArtist(db, naming, path, es, artistId).ok
    ensures db.albums <= ScanArtist(db, naming, path, es, artistId).db.albums
    ensures forall e :: e in es ==> AlbumDirIn(naming, ScanArtist(db, naming, path, es, artistId).db.tracks,
      ScanArtist(db, naming, path, es, artistId).db.albums, e)
  {
    var after := ScanArtist(db, naming, path, es, artistId).db;
    ScanArtistKeeps(db, naming, path, es, artistId);
    ScanArtistComplete(db, naming, path, es, artistId);
    forall e | e in es ensures AlbumDirIn(naming, after.tracks, after.albums, e) {
      ScannedIsIn(naming, after.tracks, db.albums, after.albums, e);
    }
  }

  /** A visible directory whose title is not in the snapshot creates exactly one album, with that title. */
  lemma {:induction false} ArtistStepNewTitle(db: Db, naming: Naming, path: string, artistId: int, albums: map<string, int>, d: Entry)
    requires DbValid(db) && VisibleDir(d) && naming.albumDir(d.name).Some?
    requires naming.albumDir(d.name).value.title !in albums
    ensures var o := ArtistStep(db, naming, path, artistId, albums, d);
      DbValid(o.db) && |o.db.albums| == |db.albums| + 1
      && o.db.albums[|db.albums|].title == naming.albumDir(d.name).value.title
  {
    var dir := naming.albumDir(d.name).value;
    var body := Albums.AlbumCreate(dir.title, path, dir.year, artistId);
    assert ArtistStep(db, naming, path, artistId, albums, d)
      == ScanAlbum(AddAlbum(db, body), naming, Join(path, d.name), d.children, db.nextAlbumId);
    Albums.CreateKeepsTableOk(db.albums, db.nextAlbumId, body);
    ScanAlbumKeeps(AddAlbum(db, body), naming, Join(path, d.name), d.children, db.nextAlbumId);
  }

  /**
   * The album snapshot is not refreshed inside the loop: two sibling
   * directories whose names give the same new title both create an album.
   */
  lemma {:induction false} SameAlbumTitleTwice(db: Db, naming: Naming, path: string, artistId: int, albums: map<string, int>, d1: Entry, d2: Entry)
    requires DbValid(db)
    requires VisibleDir(d1) && VisibleDir(d2) && naming.albumDir(d1.name).Some? && naming.albumDir(d2.name).Some?
    requires naming.albumDir(d1.name).value.title == naming.albumDir(d2.name).value.title
    requires naming.albumDir(d1.name).value.title !in albums
    requires ArtistLoop(db, naming, path, artistId, albums, [d1, d2]).ok
    ensures var after := ArtistLoop(db, naming, path, artistId, albums, [d1, d2]).db;
      |after.albums| == |db.albums| + 2
      && after.albums[|db.albums|].title == after.albums[|db.albums| + 1].title == naming.albumDir(d1.name).value.title
  {
    var o1 := ArtistStep(db, naming, path, artistId, albums, d1);
    ArtistStepNewTitle(db, naming, path, artistId, albums, d1);
    assert [d1, d2][1..] == [d2];
    assert ArtistLoop(db, naming, path, artistId, albums, [d1, d2]) == ArtistLoop(o1.db, naming, path, artistId, albums, [d2]);
    var o2 := ArtistStep(o1.db, naming, path, artistId, albums, d2);
    ArtistStepNewTitle(o1.db, naming, path, artistId, albums, d2);
    assert [d2][1..] == [];
    assert ArtistLoop(o1.db, naming, path, artistId, albums, [d2]) == o2;
    ArtistStepKeeps(o1.db, naming, path, artistId, albums, d2);
    assert o2.db.albums[|db.albums|] == o1.db.albums[|db.albums|];
  }

  /** A title is in the album snapshot exactly when some album has it. */
  lemma {:induction false} AlbumMapDomain(rows: seq<Albums.Album>, title: string)
    ensures title in AlbumMap(rows) <==> exists k :: 0 <= k < |rows| && rows[k].title == title
    decreases |rows|
  {
    if rows != [] {
      var init := rows[..|rows| - 1];
      AlbumMapDomain(init, title);
      if k :| 0 <= k < |init| && init[k].title == title {
        assert rows[k] == init[k];
      }
      if k :| 0 <= k < |rows| - 1 && rows[k].title == title {
        assert init[k] == rows[k];
      }
    }
  }

  /**
   * The position of the album whose id the snapshot holds for `title`: the
   * last album with that title, as a later row overwrites an earlier one.
   */
  function LastTitled(rows: seq<Albums.Album>, title: string): (k: int)
    requires title in AlbumMap(rows)
    ensures 0 <= k < |rows| && rows[k].title == title && AlbumMap(rows)[title] == rows[k].id
    ensures forall j :: k < j < |rows| ==> rows[j].title != title
    decreases |rows|
  {
    if rows[|rows| - 1].title == title then |rows| - 1
    else LastTitled(rows[..|rows| - 1], title)
  }
}
