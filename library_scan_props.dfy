/**
 * What `scan_library` (scanner/src/lib.rs:28-86) does to the catalog: it keeps
 * every artist row in place with its id, name and path, adds artists only for
 * new directory names under the library root, brings every artist's stored
 * checksum up to date with its directory, and therefore a second scan of an
 * unchanged tree does nothing at all.
 */
module LibraryScanProps {
  import opened Common
  import opened FileTree
  import opened Reconcile
  import opened AlbumScanProps
  import Artists
  import Albums
  import Tracks

  // ---------------------------------------------------------------------------
  // What the library loop keeps and adds
  // ---------------------------------------------------------------------------

  /** Row `y` is row `x` after at most a change of checksum that never clears it. */
  predicate KeepsArtist(x: Artists.Artist, y: Artists.Artist) {
    y.id == x.id && y.name == x.name && y.path == x.path && (x.checksum.Some? ==> y.checksum.Some?)
  }

  /** `b` keeps every artist row of `a` in place, and only appends albums and tracks. */
  predicate Extends(a: Db, b: Db) {
    |a.artists| <= |b.artists| && (forall i :: 0 <= i < |a.artists| ==> KeepsArtist(a.artists[i], b.artists[i]))
    && a.nextArtistId <= b.nextArtistId
    && a.albums <= b.albums && a.nextAlbumId <= b.nextAlbumId
    && a.tracks <= b.tracks && a.nextTrackId <= b.nextTrackId
  }

  lemma {:induction false} ExtendsTrans(a: Db, b: Db, c: Db)
    requires Extends(a, b) && Extends(b, c)
    ensures Extends(a, c)
  {
    forall i | 0 <= i < |a.artists| ensures KeepsArtist(a.artists[i], c.artists[i]) {
      assert KeepsArtist(a.artists[i], b.artists[i]) && KeepsArtist(b.artists[i], c.artists[i]);
    }
  }

  /**
   * An artist the library loop creates: its name was not in the snapshot and is
   * that of one of the visited directories, its path is the library root, and
   * it has a checksum.
   */
  predicate CreatedArtist(a: Artists.Artist, root: string, artists: map<string, (int, Option<string>)>, es: seq<Entry>) {
    a.path == root && a.checksum.Some? && a.name !in artists
    && exists e :: (e in es && VisibleDir(e) && e.name == a.name)
  }

  /** Widening the visited entries, or a later checksum update, keeps a created artist created. */
  lemma {:induction false} CreatedArtistWiden(a: Artists.Artist, b: Artists.Artist, root: string, artists: map<string, (int, Option<string>)>,
                           es: seq<Entry>, more: seq<Entry>)
    requires CreatedArtist(a, root, artists, es) && KeepsArtist(a, b)
    requires forall e :: e in es ==> e in more
    ensures CreatedArtist(b, root, artists, more)
  {
    var e :| e in es && VisibleDir(e) && e.name == a.name;
    assert e in more;
  }

  /** One turn of the library loop keeps the catalog well formed and appends at most one artist, made from the entry. */
  lemma {:induction false} LibraryStepKeeps(db: Db, naming: Naming, root: string, digest: string -> string,
                         artists: map<string, (int, Option<string>)>, e: Entry)
    requires DbValid(db)
    ensures var o := LibraryStep(db, naming, root, digest, artists, e);
      DbValid(o.db) && Extends(db, o.db) && |o.db.artists| <= |db.artists| + 1
      && (|o.db.artists| == |db.artists| + 1 ==> CreatedArtist(o.db.artists[|db.artists|], root, artists, [e]))
  {
    if VisibleDir(e) {
      var hash := FolderHash(digest, e.children);
      if e.name in artists {
        var id := artists[e.name].0;
        if artists[e.name].1 != Some(hash) && Artists.FindById(db.artists, id).Some? {
          Artists.AlterRowsEffect(db.artists, db.nextArtistId, id, SetChecksum(hash));
          var rows := Artists.AlterRows(db.artists, id, SetChecksum(hash)).value;
          forall i | 0 <= i < |db.artists| ensures KeepsArtist(db.artists[i], rows[i]) {
            Artists.ChecksumOnlyKeepsNameAndPath(db.artists[i], hash);
          }
          ScanArtistKeeps(db.(artists := rows), naming, Join(root, e.name), e.children, id);
        }
      } else {
        var body := Artists.ArtistCreate(e.name, root, Some(hash));
        Artists.CreateKeepsTableOk(db.artists, db.nextArtistId, body);
        ScanArtistKeeps(AddArtist(db, body), naming, Join(root, e.name), e.children, db.nextArtistId);
        assert e in [e];
      }
    }
  }

  /**
   * A directory whose name is not in the snapshot creates exactly one artist,
   * with the next id, the directory's name, the library root as its path and
   * the directory's fingerprint as its checksum; the scan below it only
   * appends albums and tracks.
   */
  lemma {:induction false} LibraryStepNewArtist(db: Db, naming: Naming, root: string, digest: string -> string,
                                                artists: map<string, (int, Option<string>)>, e: Entry)
    requires DbValid(db) && VisibleDir(e) && e.name !in artists
    ensures LibraryStep(db, naming, root, digest, artists, e).db.artists
      == db.artists + [Artists.Artist(db.nextArtistId, e.name, root, Some(FolderHash(digest, e.children)))]
    ensures LibraryStep(db, naming, root, digest, artists, e).db.nextArtistId == db.nextArtistId + 1
    ensures db.albums <= LibraryStep(db, naming, root, digest, artists, e).db.albums
    ensures db.tracks <= LibraryStep(db, naming, root, digest, artists, e).db.tracks
  {
    var body := Artists.ArtistCreate(e.name, root, Some(FolderHash(digest, e.children)));
    Artists.CreateKeepsTableOk(db.artists, db.nextArtistId, body);
    assert LibraryStep(db, naming, root, digest, artists, e)
      == ScanArtist(AddArtist(db, body), naming, Join(root, e.name), e.children, db.nextArtistId);
    ScanArtistKeeps(AddArtist(db, body), naming, Join(root, e.name), e.children, db.nextArtistId);
  }

  /**
   * A known directory whose stored checksum is missing or differs from its
   * fingerprint gets that fingerprint as the checksum of the artist the
   * snapshot names, and nothing else in the artist table changes.
   */
  lemma {:induction false} LibraryStepRechecksum(db: Db, naming: Naming, root: string, digest: string -> string,
                                                 artists: map<string, (int, Option<string>)>, e: Entry)
    requires DbValid(db) && VisibleDir(e) && e.name in artists
    requires artists[e.name].1 != Some(FolderHash(digest, e.children))
    requires Artists.FindById(db.artists, artists[e.name].0).Some?
    ensures |LibraryStep(db, naming, root, digest, artists, e).db.artists| == |db.artists|
    ensures forall i :: 0 <= i < |db.artists| ==> (LibraryStep(db, naming, root, digest, artists, e).db.artists[i]
      == if db.artists[i].id == artists[e.name].0 then db.artists[i].(checksum := Some(FolderHash(digest, e.children)))
         else db.artists[i])
  {
    var id, hash := artists[e.name].0, FolderHash(digest, e.children);
    Artists.AlterRowsEffect(db.artists, db.nextArtistId, id, SetChecksum(hash));
    var rows := Artists.AlterRows(db.artists, id, SetChecksum(hash)).value;
    forall i | 0 <= i < |db.artists| && db.artists[i].id == id
      ensures rows[i] == db.artists[i].(checksum := Some(hash))
    {
      Artists.ChecksumOnlyKeepsNameAndPath(db.artists[i], hash);
    }
    assert LibraryStep(db, naming, root, digest, artists, e)
      == ScanArtist(db.(artists := rows), naming, Join(root, e.name), e.children, id);
    ScanArtistKeeps(db.(artists := rows), naming, Join(root, e.name), e.children, id);
  }

  /** The library loop keeps the catalog well formed and every artist row in place, whether or not it fails. */
  lemma {:induction false} LibraryLoopKeeps(db: Db, naming: Naming, root: string, digest: string -> string,
                                            artists: map<string, (int, Option<string>)>, es: seq<Entry>)
    requires DbValid(db)
    ensures DbValid(LibraryLoop(db, naming, root, digest, artists, es).db)
    ensures Extends(db, LibraryLoop(db, naming, root, digest, artists, es).db)
    decreases |es|
  {
    if es != [] {
      var o := LibraryStep(db, naming, root, digest, artists, es[0]);
      LibraryStepKeeps(db, naming, root, digest, artists, es[0]);
      if o.ok {
        LibraryLoopKeeps(o.db, naming, root, digest, artists, es[1..]);
        ExtendsTrans(db, o.db, LibraryLoop(o.db, naming, root, digest, artists, es[1..]).db);
      }
    }
  }

  /**
   * `scan_library` keeps the catalog well formed; it never deletes an artist,
   * never changes an artist's id, name or path, never clears a checksum, and
   * only appends albums and tracks.
   */
  lemma {:induction false} ScanLibraryKeeps(db: Db, naming: Naming, root: string, digest: string -> string, es: seq<Entry>)
    requires DbValid(db)
    ensures DbValid(ScanLibrary(db, naming, root, digest, es).db)
    ensures Extends(db, ScanLibrary(db, naming, root, digest, es).db)
  {
    LibraryLoopKeeps(db, naming, root, digest, ArtistMap(db.artists), es);
  }

  /**
   * The artists appended by a first turn and by the rest of a loop are
   * created artists for all the entries, when the rest keeps the first turn's rows.
   */
  lemma {:induction false} NewArtistsCombine(db: Db, mid: Db, fin: Db, root: string,
                                             artists: map<string, (int, Option<string>)>, es: seq<Entry>)
    requires es != [] && Extends(db, mid) && Extends(mid, fin) && |mid.artists| <= |db.artists| + 1
    requires |mid.artists| == |db.artists| + 1 ==> CreatedArtist(mid.artists[|db.artists|], root, artists, [es[0]])
    requires forall j :: |mid.artists| <= j < |fin.artists| ==> CreatedArtist(fin.artists[j], root, artists, es[1..])
    ensures forall i :: |db.artists| <= i < |fin.artists| ==> CreatedArtist(fin.artists[i], root, artists, es)
  {
    assert forall e :: e in [es[0]] ==> e in es;
    assert forall e :: e in es[1..] ==> e in es;
    forall i | |db.artists| <= i < |fin.artists| ensures CreatedArtist(fin.artists[i], root, artists, es) {
      if i >= |mid.artists| {
        CreatedArtistWiden(fin.artists[i], fin.artists[i], root, artists, es[1..], es);
      } else {
        CreatedArtistWiden(mid.artists[i], fin.artists[i], root, artists, [es[0]], es);
      }
    }
  }

  /** Every artist the library loop appends is a created artist for the entries it visited. */
  lemma {:induction false} LibraryLoopNewArtists(db: Db, naming: Naming, root: string, digest: string -> string,
                                                 artists: map<string, (int, Option<string>)>, es: seq<Entry>)
    requires DbValid(db)
    ensures forall i :: |db.artists| <= i < |LibraryLoop(db, naming, root, digest, artists, es).db.artists| ==>
      CreatedArtist(LibraryLoop(db, naming, root, digest, artists, es).db.artists[i], root, artists, es)
    decreases |es|
  {
    if es != [] {
      var o := LibraryStep(db, naming, root, digest, artists, es[0]);
      LibraryStepKeeps(db, naming, root, digest, artists, es[0]);
      if o.ok {
        var fin := LibraryLoop(o.db, naming, root, digest, artists, es[1..]);
        assert LibraryLoop(db, naming, root, digest, artists, es) == fin;
        LibraryLoopKeeps(o.db, naming, root, digest, artists, es[1..]);
        LibraryLoopNewArtists(o.db, naming, root, digest, artists, es[1..]);
        NewArtistsCombine(db, o.db, fin.db, root, artists, es);
      } else {
        assert LibraryLoop(db, naming, root, digest, artists, es) == o;
        NewArtistsCombine(db, o.db, o.db, root, artists, es);
      }
    }
  }

  /**
   * Every artist `scan_library` appends is named after a non-hidden directory
   * under the library root whose name was not yet an artist, has the root as
   * its path, and has a checksum.
   */
  lemma {:induction false} ScanLibraryNewArtists(db: Db, naming: Naming, root: string, digest: string -> string, es: seq<Entry>)
    requires DbValid(db)
    ensures var after := ScanLibrary(db, naming, root, digest, es).db;
      forall i :: |db.artists| <= i < |after.artists| ==> CreatedArtist(after.artists[i], root, ArtistMap(db.artists), es)
  {
    LibraryLoopNewArtists(db, naming, root, digest, ArtistMap(db.artists), es);
    assert forall i :: |db.artists| <= i < |LibraryLoop(db, naming, root, digest, ArtistMap(db.artists), es).db.artists| ==>
      CreatedArtist(LibraryLoop(db, naming, root, digest, ArtistMap(db.artists), es).db.artists[i], root, ArtistMap(db.artists), es);
  }

  // ---------------------------------------------------------------------------
  // Artist names stay unique
  // ---------------------------------------------------------------------------

  /** No two artist rows have the same name. */
  predicate NamesUnique(rows: seq<Artists.Artist>) {
    forall i, j :: 0 <= i < j < |rows| ==> rows[i].name != rows[j].name
  }

  /** Some entry of `es` has the name `n`. */
  predicate NamedIn(n: string, es: seq<Entry>) {
    exists e :: e in es && e.name == n
  }

  /**
   * One turn of the library loop over entries with distinct names keeps artist
   * names unique when every row is either in the snapshot or named after no
   * entry; the rows after it stand in the same relation to the remaining entries.
   */
  lemma {:induction false} NamesUniqueStep(db: Db, mid: Db, root: string,
                                           artists: map<string, (int, Option<string>)>, es: seq<Entry>)
    requires es != [] && DistinctNames(es) && NamesUnique(db.artists)
    requires forall i :: 0 <= i < |db.artists| ==> db.artists[i].name in artists || !NamedIn(db.artists[i].name, es)
    requires Extends(db, mid) && |mid.artists| <= |db.artists| + 1
    requires |mid.artists| == |db.artists| + 1 ==> CreatedArtist(mid.artists[|db.artists|], root, artists, [es[0]])
    ensures NamesUnique(mid.artists)
    ensures forall i :: 0 <= i < |mid.artists| ==> mid.artists[i].name in artists || !NamedIn(mid.artists[i].name, es[1..])
  {
    DistinctNamesTail(es);
    var n := |db.artists|;
    forall i | 0 <= i < n ensures mid.artists[i].name == db.artists[i].name {
      assert KeepsArtist(db.artists[i], mid.artists[i]);
    }
    if |mid.artists| == n + 1 {
      var e :| e in [es[0]] && VisibleDir(e) && e.name == mid.artists[n].name;
      assert es[0] in es && e == es[0];
      forall i | 0 <= i < n ensures mid.artists[i].name != mid.artists[n].name {
        assert NamedIn(mid.artists[n].name, es);
      }
      assert !NamedIn(mid.artists[n].name, es[1..]);
    }
    forall i | 0 <= i < n && NamedIn(mid.artists[i].name, es[1..]) ensures NamedIn(mid.artists[i].name, es) {
      var e :| e in es[1..] && e.name == mid.artists[i].name;
      assert e in es;
    }
  }

  /** The library loop over entries with distinct names keeps artist names unique. */
  lemma {:induction false} LibraryLoopNamesUnique(db: Db, naming: Naming, root: string, digest: string -> string,
                                                  artists: map<string, (int, Option<string>)>, es: seq<Entry>)
    requires DbValid(db) && DistinctNames(es) && NamesUnique(db.artists)
    requires forall i :: 0 <= i < |db.artists| ==> db.artists[i].name in artists || !NamedIn(db.artists[i].name, es)
    ensures NamesUnique(LibraryLoop(db, naming, root, digest, artists, es).db.artists)
    decreases |es|
  {
    if es != [] {
      var o := LibraryStep(db, naming, root, digest, artists, es[0]);
      LibraryStepKeeps(db, naming, root, digest, artists, es[0]);
      NamesUniqueStep(db, o.db, root, artists, es);
      if o.ok {
        DistinctNamesTail(es);
        LibraryLoopNamesUnique(o.db, naming, root, digest, artists, es[1..]);
        assert LibraryLoop(db, naming, root, digest, artists, es) == LibraryLoop(o.db, naming, root, digest, artists, es[1..]);
      } else {
        assert LibraryLoop(db, naming, root, digest, artists, es) == o;
      }
    }
  }

  /**
   * `scan_library` never makes two artists with the same name: a directory name
   * already in the table is never created again, and distinct names under the
   * library root create distinct artists.
   */
  lemma {:induction false} ScanLibraryKeepsNamesUnique(db: Db, naming: Naming, root: string, digest: string -> string, es: seq<Entry>)
    requires DbValid(db) && DistinctNames(es) && NamesUnique(db.artists)
    ensures NamesUnique(ScanLibrary(db, naming, root, digest, es).db.artists)
  {
    forall i | 0 <= i < |db.artists| ensures db.artists[i].name in ArtistMap(db.artists) {
      ArtistMapDomain(db.artists, db.artists[i].name);
    }
    LibraryLoopNamesUnique(db, naming, root, digest, ArtistMap(db.artists), es);
  }

  // ---------------------------------------------------------------------------
  // The artist snapshot
  // ---------------------------------------------------------------------------

  /** A name is in the artist snapshot exactly when some artist has it. */
  lemma {:induction false} ArtistMapDomain(rows: seq<Artists.Artist>, n: string)
    ensures n in ArtistMap(rows) <==> exists k :: 0 <= k < |rows| && rows[k].name == n
    decreases |rows|
  {
    if rows != [] {
      var init := rows[..|rows| - 1];
      ArtistMapDomain(init, n);
      if k :| 0 <= k < |init| && init[k].name == n {
        assert rows[k] == init[k];
      }
      if k :| 0 <= k < |rows| - 1 && rows[k].name == n {
        assert init[k] == rows[k];
      }
    }
  }

  /**
   * The position of the artist whose id and checksum the snapshot holds for
   * `n`: the last artist with that name, as a later row overwrites an earlier one.
   */
  function LastNamed(rows: seq<Artists.Artist>, n: string): (k: int)
    requires n in ArtistMap(rows)
    ensures 0 <= k < |rows| && rows[k].name == n && ArtistMap(rows)[n] == (rows[k].id, rows[k].checksum)
    ensures forall j :: k < j < |rows| ==> rows[j].name != n
    decreases |rows|
  {
    if rows[|rows| - 1].name == n then |rows| - 1
    else LastNamed(rows[..|rows| - 1], n)
  }

  /** Changing the checksum of the last row with a given name changes the snapshot at that name only. */
  lemma {:induction false} ArtistMapSetChecksum(rows: seq<Artists.Artist>, k: int, c: Option<string>)
    requires 0 <= k < |rows| && forall j :: k < j < |rows| ==> rows[j].name != rows[k].name
    ensures ArtistMap(rows[k := rows[k].(checksum := c)]) == ArtistMap(rows)[rows[k].name := (rows[k].id, c)]
    decreases |rows|
  {
    var rows' := rows[k := rows[k].(checksum := c)];
    var init := rows[..|rows| - 1];
    assert rows'[..|rows| - 1] == if k == |rows| - 1 then init else init[k := init[k].(checksum := c)];
    if k < |rows| - 1 {
      ArtistMapSetChecksum(init, k, c);
    }
  }

  /**
   * Under a well-formed table, `alter` with a checksum, addressed by the id
   * the snapshot holds for a name, finds its row, and afterwards the snapshot
   * of the table holds the new checksum for that name and is otherwise the same.
   */
  lemma {:induction false} AlterSnapshotRow(rows: seq<Artists.Artist>, nextId: int, n: string, hash: string)
    requires Artists.TableOk(rows, nextId) && n in ArtistMap(rows)
    ensures Artists.AlterRows(rows, ArtistMap(rows)[n].0, SetChecksum(hash)).Some?
    ensures ArtistMap(Artists.AlterRows(rows, ArtistMap(rows)[n].0, SetChecksum(hash)).value)
      == ArtistMap(rows)[n := (ArtistMap(rows)[n].0, Some(hash))]
  {
    var k := LastNamed(rows, n);
    IndexOfAt(Artists.Ids(rows), nextId, k);
    Artists.ChecksumOnlyKeepsNameAndPath(rows[k], hash);
    assert Artists.AlterRows(rows, rows[k].id, SetChecksum(hash)) == Some(rows[k := rows[k].(checksum := Some(hash))]);
    ArtistMapSetChecksum(rows, k, Some(hash));
  }

  /** Every id in the snapshot is the id of some row of `rows`. */
  predicate SnapshotIdsIn(artists: map<string, (int, Option<string>)>, rows: seq<Artists.Artist>) {
    forall n :: n in artists ==> Artists.FindById(rows, artists[n].0).Some?
  }

  /** The snapshot of a table only holds ids of that table. */
  lemma {:induction false} ArtistMapIdsIn(rows: seq<Artists.Artist>)
    ensures SnapshotIdsIn(ArtistMap(rows), rows)
  {
    forall n | n in ArtistMap(rows) ensures Artists.FindById(rows, ArtistMap(rows)[n].0).Some? {
      var k := LastNamed(rows, n);
      assert rows[k] in rows;
    }
  }

  /** Ids stay found as the table is extended. */
  lemma {:induction false} SnapshotIdsExtend(artists: map<string, (int, Option<string>)>, a: Db, b: Db)
    requires Extends(a, b) && SnapshotIdsIn(artists, a.artists)
    ensures SnapshotIdsIn(artists, b.artists)
  {
    forall n | n in artists ensures Artists.FindById(b.artists, artists[n].0).Some? {
      var r := Artists.FindById(a.artists, artists[n].0).value;
      var k :| 0 <= k < |a.artists| && a.artists[k] == r;
      assert KeepsArtist(a.artists[k], b.artists[k]) && b.artists[k] in b.artists;
    }
  }

  /** The library loop over `es` is the loop over its first `k` entries followed, unless that failed, by the loop over the rest. */
  lemma {:induction false} LibraryLoopSplit(db: Db, naming: Naming, root: string, digest: string -> string,
                                            artists: map<string, (int, Option<string>)>, es: seq<Entry>, k: int)
    requires 0 <= k <= |es|
    ensures var p := LibraryLoop(db, naming, root, digest, artists, es[..k]);
      LibraryLoop(db, naming, root, digest, artists, es) == if p.ok then LibraryLoop(p.db, naming, root, digest, artists, es[k..]) else p
    decreases k
  {
    if k == 0 {
      assert es[..0] == [] && es[0..] == es;
    } else {
      assert es[..k][0] == es[0] && es[..k][1..] == es[1..][..k - 1] && es[k..] == es[1..][k - 1..];
      var o := LibraryStep(db, naming, root, digest, artists, es[0]);
      if o.ok {
        LibraryLoopSplit(o.db, naming, root, digest, artists, es[1..], k - 1);
      }
    }
  }

  /**
   * The lookup of `alter` (the `unwrap` of service/src/artist.rs:58) never
   * fails during a scan: the scan reaches turn `k` with the catalog the loop
   * over the first `k` entries leaves, and there the id the snapshot holds for
   * a known directory name is still a row of the artist table.
   */
  lemma {:induction false} ScanLibraryAlterFindsRow(db: Db, naming: Naming, root: string, digest: string -> string, es: seq<Entry>, k: int)
    requires DbValid(db) && 0 <= k < |es| && VisibleDir(es[k]) && es[k].name in ArtistMap(db.artists)
    requires LibraryLoop(db, naming, root, digest, ArtistMap(db.artists), es[..k]).ok
    ensures Artists.AlterRows(LibraryLoop(db, naming, root, digest, ArtistMap(db.artists), es[..k]).db.artists,
      ArtistMap(db.artists)[es[k].name].0, SetChecksum(FolderHash(digest, es[k].children))).Some?
    ensures var p := LibraryLoop(db, naming, root, digest, ArtistMap(db.artists), es[..k]).db;
      var o := LibraryStep(p, naming, root, digest, ArtistMap(db.artists), es[k]);
      ScanLibrary(db, naming, root, digest, es) == if o.ok then LibraryLoop(o.db, naming, root, digest, ArtistMap(db.artists), es[k + 1..]) else o
  {
    var m := ArtistMap(db.artists);
    LibraryLoopSplit(db, naming, root, digest, m, es, k);
    assert es[k..][0] == es[k] && es[k..][1..] == es[k + 1..];
    ArtistMapIdsIn(db.artists);
    LibraryLoopKeeps(db, naming, root, digest, m, es[..k]);
    SnapshotIdsExtend(m, db, LibraryLoop(db, naming, root, digest, m, es[..k]).db);
  }

  // ---------------------------------------------------------------------------
  // Descent into artist directories
  // ---------------------------------------------------------------------------

  /** Every album directory of the artist directory `e` is in the catalog with all its audio files. */
  ghost predicate ArtistDirIn(naming: Naming, tracks: seq<Tracks.Track>, rows: seq<Albums.Album>, e: Entry) {
    e.Dir? ==> forall d :: d in e.children ==> AlbumDirIn(naming, tracks, rows, d)
  }

  /** Appending albums and tracks keep an artist directory in the catalog. */
  lemma {:induction false} ArtistDirInWiden(naming: Naming, tracks: seq<Tracks.Track>, longer: seq<Tracks.Track>,
                                            rows: seq<Albums.Album>, moreRows: seq<Albums.Album>, e: Entry)
    requires ArtistDirIn(naming, tracks, rows, e) && tracks <= longer && rows <= moreRows
    ensures ArtistDirIn(naming, longer, moreRows, e)
  {
    if e.Dir? {
      forall d | d in e.children ensures AlbumDirIn(naming, longer, moreRows, d) {
        AlbumDirInWiden(naming, tracks, longer, rows, moreRows, d);
      }
    }
  }

  /**
   * A successful turn of the library loop that creates the artist or finds
   * its checksum missing or different scans the artist directory: every album
   * directory under it is in the catalog with all its audio files.
   */
  lemma {:induction false} LibraryStepComplete(db: Db, naming: Naming, root: string, digest: string -> string,
                                               artists: map<string, (int, Option<string>)>, e: Entry)
    requires DbValid(db) && LibraryStep(db, naming, root, digest, artists, e).ok
    requires VisibleDir(e) && !SyncedIn(artists, digest, e)
    ensures var after := LibraryStep(db, naming, root, digest, artists, e).db;
      ArtistDirIn(naming, after.tracks, after.albums, e)
  {
    var hash := FolderHash(digest, e.children);
    if e.name in artists {
      var id := artists[e.name].0;
      var rows := Artists.AlterRows(db.artists, id, SetChecksum(hash)).value;
      Artists.AlterRowsEffect(db.artists, db.nextArtistId, id, SetChecksum(hash));
      var mid := db.(artists := rows);
      assert LibraryStep(db, naming, root, digest, artists, e) == ScanArtist(mid, naming, Join(root, e.name), e.children, id);
      ScanArtistFilesIn(mid, naming, Join(root, e.name), e.children, id);
    } else {
      var mid := AddArtist(db, Artists.ArtistCreate(e.name, root, Some(hash)));
      Artists.CreateKeepsTableOk(db.artists, db.nextArtistId, Artists.ArtistCreate(e.name, root, Some(hash)));
      assert LibraryStep(db, naming, root, digest, artists, e) == ScanArtist(mid, naming, Join(root, e.name), e.children, db.nextArtistId);
      ScanArtistFilesIn(mid, naming, Join(root, e.name), e.children, db.nextArtistId);
    }
  }

  /**
   * After a successful library loop, every visited artist directory that was
   * not in sync with the snapshot was scanned down to its tracks.
   */
  lemma {:induction false} LibraryLoopComplete(db: Db, naming: Naming, root: string, digest: string -> string,
                                               artists: map<string, (int, Option<string>)>, es: seq<Entry>)
    requires DbValid(db) && LibraryLoop(db, naming, root, digest, artists, es).ok
    ensures forall e :: e in es && VisibleDir(e) && !SyncedIn(artists, digest, e) ==>
      ArtistDirIn(naming, LibraryLoop(db, naming, root, digest, artists, es).db.tracks,
        LibraryLoop(db, naming, root, digest, artists, es).db.albums, e)
    decreases |es|
  {
    if es != [] {
      var e := es[0];
      var o := LibraryStep(db, naming, root, digest, artists, e);
      var after := LibraryLoop(o.db, naming, root, digest, artists, es[1..]).db;
      assert LibraryLoop(db, naming, root, digest, artists, es).db == after;
      LibraryStepKeeps(db, naming, root, digest, artists, e);
      LibraryLoopKeeps(o.db, naming, root, digest, artists, es[1..]);
      LibraryLoopComplete(o.db, naming, root, digest, artists, es[1..]);
      forall e' | e' in es && VisibleDir(e') && !SyncedIn(artists, digest, e')
        ensures ArtistDirIn(naming, after.tracks, after.albums, e')
      {
        if e' == e {
          LibraryStepComplete(db, naming, root, digest, artists, e);
          ArtistDirInWiden(naming, o.db.tracks, after.tracks, o.db.albums, after.albums, e);
        } else {
          assert e' in es[1..];
        }
      }
    }
  }

  /**
   * After a successful `scan_library`, every artist directory that is new or
   * whose stored checksum is missing or different was scanned: each of its
   * album directories has an album titled as it is, whose tracks include every
   * audio file of that directory whose stem parses.
   */
  lemma {:induction false} ScanLibraryComplete(db: Db, naming: Naming, root: string, digest: string -> string, es: seq<Entry>)
    requires DbValid(db) && ScanLibrary(db, naming, root, digest, es).ok
    ensures forall e :: e in es && VisibleDir(e) && !SyncedIn(ArtistMap(db.artists), digest, e) ==>
      ArtistDirIn(naming, ScanLibrary(db, naming, root, digest, es).db.tracks, ScanLibrary(db, naming, root, digest, es).db.albums, e)
  {
    LibraryLoopComplete(db, naming, root, digest, ArtistMap(db.artists), es);
  }

  // ---------------------------------------------------------------------------
  // Idempotence
  // ---------------------------------------------------------------------------

  /** Maps `a` and `b` agree at key `m`. */
  predicate SameAt<V(==)>(a: map<string, V>, b: map<string, V>, m: string) {
    (m in a <==> m in b) && (m in a ==> a[m] == b[m])
  }

  /** The snapshot `a` holds the directory's current fingerprint for the artist the entry names. */
  predicate SyncedIn(a: map<string, (int, Option<string>)>, digest: string -> string, e: Entry) {
    VisibleDir(e) ==> e.name in a && a[e.name].1 == Some(FolderHash(digest, e.children))
  }

  /** No two entries of a directory have the same name. */
  predicate DistinctNames(es: seq<Entry>) {
    forall i, j :: 0 <= i < j < |es| ==> es[i].name != es[j].name
  }

  /** The entries after the first keep distinct names, none of them the first one's. */
  lemma {:induction false} DistinctNamesTail(es: seq<Entry>)
    requires es != [] && DistinctNames(es)
    ensures DistinctNames(es[1..])
    ensures forall e :: e in es[1..] ==> e.name != es[0].name
  {
    var rest := es[1..];
    forall e | e in rest ensures e.name != es[0].name {
      var j :| 0 <= j < |rest| && rest[j] == e;
      assert es[j + 1] == e;
    }
    forall i, j | 0 <= i < j < |rest| ensures rest[i].name != rest[j].name {
      assert rest[i] == es[i + 1] && rest[j] == es[j + 1];
    }
  }

  /** Re-checksumming the artist the snapshot names `n`, then scanning it, updates the snapshot at `n` only. */
  lemma {:induction false} SnapshotAfterAlter(db: Db, naming: Naming, path: string, n: string, children: seq<Entry>, hash: string)
    requires DbValid(db) && n in ArtistMap(db.artists)
    ensures Artists.AlterRows(db.artists, ArtistMap(db.artists)[n].0, SetChecksum(hash)).Some?
    ensures ArtistMap(ScanArtist(db.(artists := Artists.AlterRows(db.artists, ArtistMap(db.artists)[n].0, SetChecksum(hash)).value),
        naming, path, children, ArtistMap(db.artists)[n].0).db.artists)
      == ArtistMap(db.artists)[n := (ArtistMap(db.artists)[n].0, Some(hash))]
  {
    var id := ArtistMap(db.artists)[n].0;
    AlterSnapshotRow(db.artists, db.nextArtistId, n, hash);
    var rows := Artists.AlterRows(db.artists, id, SetChecksum(hash)).value;
    ScanArtistKeeps(db.(artists := rows), naming, path, children, id);
  }

  /** Creating an artist named `n`, then scanning it, updates the snapshot at `n` only. */
  lemma {:induction false} SnapshotAfterCreate(db: Db, naming: Naming, root: string, path: string, n: string, children: seq<Entry>, hash: string)
    requires DbValid(db)
    ensures ArtistMap(ScanArtist(AddArtist(db, Artists.ArtistCreate(n, root, Some(hash))), naming, path, children, db.nextArtistId).db.artists)
      == ArtistMap(db.artists)[n := (db.nextArtistId, Some(hash))]
  {
    var body := Artists.ArtistCreate(n, root, Some(hash));
    var rows := AddArtist(db, body).artists;
    assert rows[..|rows| - 1] == db.artists;
    Artists.CreateKeepsTableOk(db.artists, db.nextArtistId, body);
    ScanArtistKeeps(AddArtist(db, body), naming, path, children, db.nextArtistId);
  }

  /**
   * After a successful turn of the library loop on a directory whose name the
   * snapshot reports as the current table does, the table's snapshot holds
   * the directory's fingerprint for its name and is otherwise the same; any
   * other entry changes nothing.
   */
  lemma {:induction false} LibraryStepSnapshot(db: Db, naming: Naming, root: string, digest: string -> string,
                            artists: map<string, (int, Option<string>)>, e: Entry)
    requires DbValid(db) && (VisibleDir(e) ==> SameAt(ArtistMap(db.artists), artists, e.name))
    requires LibraryStep(db, naming, root, digest, artists, e).ok
    ensures !VisibleDir(e) ==> LibraryStep(db, naming, root, digest, artists, e).db == db
    ensures VisibleDir(e) ==>
      var a := ArtistMap(LibraryStep(db, naming, root, digest, artists, e).db.artists);
      e.name in a && a == ArtistMap(db.artists)[e.name := (a[e.name].0, Some(FolderHash(digest, e.children)))]
  {
    if VisibleDir(e) {
      var hash := FolderHash(digest, e.children);
      var o := LibraryStep(db, naming, root, digest, artists, e);
      if e.name in artists && artists[e.name].1 == Some(hash) {
        assert o.db == db;
        assert ArtistMap(db.artists) == ArtistMap(db.artists)[e.name := artists[e.name]];
      } else if e.name in artists {
        SnapshotAfterAlter(db, naming, Join(root, e.name), e.name, e.children, hash);
      } else {
        SnapshotAfterCreate(db, naming, root, Join(root, e.name), e.name, e.children, hash);
      }
    }
  }

  /** What a map updated at one key holds there and elsewhere. */
  lemma {:induction false} UpdatedAt(a: map<string, (int, Option<string>)>, b: map<string, (int, Option<string>)>, n: string, v: (int, Option<string>))
    requires a == b[n := v]
    ensures n in a && a[n] == v
    ensures forall m :: m != n ==> SameAt(a, b, m)
  {
  }

  /**
   * A successful library loop over entries with distinct names, started where
   * the snapshot reports each visited name as the table does, leaves a table
   * whose snapshot holds every visited directory's fingerprint, and changes
   * the snapshot at no other name.
   */
  lemma {:induction false} LibraryLoopSyncs(db: Db, naming: Naming, root: string, digest: string -> string,
                                            artists: map<string, (int, Option<string>)>, es: seq<Entry>)
    requires DbValid(db) && DistinctNames(es) && LibraryLoop(db, naming, root, digest, artists, es).ok
    requires forall e :: e in es && VisibleDir(e) ==> SameAt(ArtistMap(db.artists), artists, e.name)
    ensures forall e :: e in es ==> SyncedIn(ArtistMap(LibraryLoop(db, naming, root, digest, artists, es).db.artists), digest, e)
    ensures forall m :: (forall e :: e in es ==> e.name != m) ==>
      SameAt(ArtistMap(LibraryLoop(db, naming, root, digest, artists, es).db.artists), ArtistMap(db.artists), m)
    decreases |es|
  {
    if es != [] {
      var e := es[0];
      var o := LibraryStep(db, naming, root, digest, artists, e);
      assert e in es;
      LibraryStepKeeps(db, naming, root, digest, artists, e);
      LibraryStepSnapshot(db, naming, root, digest, artists, e);
      DistinctNamesTail(es);
      var a0 := ArtistMap(db.artists);
      var a1 := ArtistMap(o.db.artists);
      if VisibleDir(e) {
        UpdatedAt(a1, a0, e.name, (a1[e.name].0, Some(FolderHash(digest, e.children))));
      }
      assert SyncedIn(a1, digest, e);
      assert forall m :: m != e.name ==> SameAt(a1, a0, m);
      forall e' | e' in es[1..] && VisibleDir(e') ensures SameAt(a1, artists, e'.name) {
        assert e' in es && e'.name != e.name;
      }
      LibraryLoopSyncs(o.db, naming, root, digest, artists, es[1..]);
      assert LibraryLoop(db, naming, root, digest, artists, es) == LibraryLoop(o.db, naming, root, digest, artists, es[1..]);
      var a := ArtistMap(LibraryLoop(o.db, naming, root, digest, artists, es[1..]).db.artists);
      assert SameAt(a, a1, e.name);
      forall e' | e' in es ensures SyncedIn(a, digest, e') {
        if e' != e {
          assert e' in es[1..];
        }
      }
      forall m | forall e' :: e' in es ==> e'.name != m ensures SameAt(a, a0, m) {
        assert m != e.name;
        assert SameAt(a1, a0, m);
        assert forall e' :: e' in es[1..] ==> e'.name != m;
        assert SameAt(a, a1, m);
      }
    }
  }

  /** A library loop whose every entry is already synced in the snapshot skips all of them and changes nothing. */
  lemma {:induction false} LibraryLoopSkips(db: Db, naming: Naming, root: string, digest: string -> string,
                                            artists: map<string, (int, Option<string>)>, es: seq<Entry>)
    requires forall e :: e in es ==> SyncedIn(artists, digest, e)
    ensures LibraryLoop(db, naming, root, digest, artists, es) == Outcome(true, db)
    decreases |es|
  {
    if es != [] {
      assert es[0] in es;
      assert LibraryStep(db, naming, root, digest, artists, es[0]) == Outcome(true, db);
      assert forall e :: e in es[1..] ==> e in es;
      LibraryLoopSkips(db, naming, root, digest, artists, es[1..]);
    }
  }

  /**
   * Scanning is idempotent: once a scan of the library root succeeded, a
   * second scan of the same tree succeeds and changes nothing, since every
   * artist's stored checksum now matches its directory.
   */
  lemma {:induction false} ScanLibraryIdempotent(db: Db, naming: Naming, root: string, digest: string -> string, es: seq<Entry>)
    requires DbValid(db) && DistinctNames(es) && ScanLibrary(db, naming, root, digest, es).ok
    ensures var first := ScanLibrary(db, naming, root, digest, es).db;
      ScanLibrary(first, naming, root, digest, es) == Outcome(true, first)
  {
    LibraryLoopSyncs(db, naming, root, digest, ArtistMap(db.artists), es);
    var first := ScanLibrary(db, naming, root, digest, es).db;
    LibraryLoopSkips(first, naming, root, digest, ArtistMap(first.artists), es);
  }
}
