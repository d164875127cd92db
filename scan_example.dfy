/**
 * A worked example of two scans of a small library, from an empty catalog:
 * the first scan of `Artist A/Album B (2001)/01 - Song.flac` creates exactly
 * one artist, one album and one track; after `02 - Song Two.flac` is added,
 * the second scan adds exactly one track and updates the artist's checksum.
 */
module ScanExample {
  import opened Common
  import opened Names
  import opened NameFacts
  import opened FileTree
  import opened Fingerprint
  import opened Reconcile
  import Artists
  import Albums
  import Tracks

  const Root: string := "/music"
  const ArtistPath: string := "/music/Artist A"
  const AlbumPath: string := "/music/Artist A/Album B (2001)"

  const Song1: Entry := File("01 - Song.flac")
  const Song2: Entry := File("02 - Song Two.flac")

  /** The album directory, the artist directory and the library root's children with the given track files. */
  function AlbumEntry(songs: seq<Entry>): Entry {
    Dir("Album B (2001)", songs)
  }

  function ArtistEntry(songs: seq<Entry>): Entry {
    Dir("Artist A", [AlbumEntry(songs)])
  }

  function Tree(songs: seq<Entry>): seq<Entry> {
    [ArtistEntry(songs)]
  }

  /** What the recognisers of the source make of the four names of the example. */
  predicate ExampleNaming(n: Naming) {
    n.albumDir("Album B (2001)") == Some(AlbumDir("Album B", 2001))
    && n.audio("01 - Song.flac") && n.track("01 - Song.flac") == Parsed(TrackInfo("Song", 1))
    && n.audio("02 - Song Two.flac") && n.track("02 - Song Two.flac") == Parsed(TrackInfo("Song Two", 2))
  }

  /** The album directory name of the example parses to its title and year. */
  lemma AlbumDirOfExample()
    ensures ParseAlbumDir("Album B (2001)") == Some(AlbumDir("Album B", 2001))
  {
    assert DigitsValue("2001") == 2001 by { FourDigitsValue("2001"); }
    assert '(' !in "Album B" && '(' !in "" && NoNewline("Album B") && AllDigits("2001");
    assert "Album B (2001)" == "Album B" + " (" + "2001" + ")" + "";
    AlbumDirConvention("Album B (2001)", "Album B", "2001", "");
  }

  /** Both track files of the example are audio files, with the expected stems. */
  lemma FilesOfExampleAreAudio()
    ensures IsAudioFile("01 - Song.flac") && FileStem("01 - Song.flac") == "01 - Song"
    ensures IsAudioFile("02 - Song Two.flac") && FileStem("02 - Song Two.flac") == "02 - Song Two"
  {
    assert "flac" in AudioExtensions;
    AudioNameConvention("01 - Song.flac", "01 - Song", "flac");
    AudioNameConvention("02 - Song Two.flac", "02 - Song Two", "flac");
  }

  /** The stem of the first track file parses to its title and number. */
  lemma FirstStemOfExample()
    ensures ExtractTrackInfo("01 - Song") == Parsed(TrackInfo("Song", 1))
  {
    assert DigitsValue("01") == 1;
    assert "01 - Song" == "01" + " " + ['-'] + " " + "Song";
    TrackStemPlain("01 - Song", "01", " ", '-', " ", "Song");
  }

  /** The stem of the second track file parses to its title and number. */
  lemma SecondStemOfExample()
    ensures ExtractTrackInfo("02 - Song Two") == Parsed(TrackInfo("Song Two", 2))
  {
    assert DigitsValue("02") == 2;
    assert "02 - Song Two" == "02" + " " + ['-'] + " " + "Song Two";
    TrackStemPlain("02 - Song Two", "02", " ", '-', " ", "Song Two");
  }

  /** The recognisers of the source read the example's names as expected. */
  lemma SourceNamingReadsExample()
    ensures ExampleNaming(SourceNaming)
  {
    AlbumDirOfExample();
    FilesOfExampleAreAudio();
    FirstStemOfExample();
    SecondStemOfExample();
  }

  /** What the first track file contributes to the hash input. */
  lemma HashInputOne()
    ensures HashInput([Song1]) == "01 - Song.flac"
  {
    assert [Song1][1..] == [];
  }

  /** What the two track files contribute to the hash input. */
  lemma HashInputTwo()
    ensures HashInput([Song1, Song2]) == "01 - Song.flac02 - Song Two.flac"
  {
    assert [Song1, Song2][1..] == [Song2];
    HashInputSecond();
    NamesConcatenated();
  }

  lemma NamesConcatenated()
    ensures "01 - Song.flac" + "02 - Song Two.flac" == "01 - Song.flac02 - Song Two.flac"
  {
  }

  /** The fingerprints of the artist directory before and after the second file is added. */
  lemma FolderHashes(digest: string -> string)
    ensures FolderHash(digest, ArtistEntry([Song1]).children) == digest("01 - Song.flac")
    ensures FolderHash(digest, ArtistEntry([Song1, Song2]).children) == digest("01 - Song.flac02 - Song Two.flac")
  {
    HashInputNested([Song1]);
    HashInputOne();
    HashInputNested([Song1, Song2]);
    HashInputTwo();
  }

  lemma HashInputSecond()
    ensures HashInput([Song2]) == "02 - Song Two.flac"
  {
    assert [Song2][1..] == [];
  }

  /** An artist directory holding one album directory hashes that directory's files. */
  lemma HashInputNested(songs: seq<Entry>)
    ensures HashInput(ArtistEntry(songs).children) == HashInput(songs)
  {
    assert [AlbumEntry(songs)][1..] == [];
  }

  /** A loop over one entry is that entry's step. */
  lemma AlbumLoopOne(db: Db, n: Naming, path: string, albumId: int, stored: seq<string>, e: Entry)
    ensures AlbumLoop(db, n, path, albumId, stored, [e]) == AlbumStep(db, n, path, albumId, stored, e)
  {
    assert [e][1..] == [];
  }

  lemma ArtistLoopOne(db: Db, n: Naming, path: string, artistId: int, albums: map<string, int>, e: Entry)
    ensures ArtistLoop(db, n, path, artistId, albums, [e]) == ArtistStep(db, n, path, artistId, albums, e)
  {
    assert [e][1..] == [];
  }

  lemma LibraryLoopOne(db: Db, n: Naming, root: string, digest: string -> string,
                       artists: map<string, (int, Option<string>)>, e: Entry)
    ensures LibraryLoop(db, n, root, digest, artists, [e]) == LibraryStep(db, n, root, digest, artists, e)
  {
    assert [e][1..] == [];
  }

  const EmptyDb: Db := Db([], 1, [], 1, [], 1)

  const AlbumRow: Albums.Album := Albums.Album(1, "Album B", ArtistPath, 2001, 1)
  const Track1: Tracks.Track := Tracks.Track(1, "Song", "/music/Artist A/Album B (2001)/01 - Song.flac", 1, PlaceholderDuration, 1)
  const Track2: Tracks.Track := Tracks.Track(2, "Song Two", "/music/Artist A/Album B (2001)/02 - Song Two.flac", 2, PlaceholderDuration, 1)

  function ArtistRow(sum: string): Artists.Artist {
    Artists.Artist(1, "Artist A", Root, Some(sum))
  }

  /** The catalog with the artist and the album, and the given tracks. */
  function Catalog(sum: string, tracks: seq<Tracks.Track>): Db {
    Db([ArtistRow(sum)], 2, [AlbumRow], 2, tracks, |tracks| + 1)
  }

  /** The album lookup finds the one album. */
  lemma FindsAlbum()
    ensures Albums.FindById([AlbumRow], 1) == Some(AlbumRow)
  {
    assert Albums.Ids([AlbumRow]) == [1];
  }

  /** No title is stored for the album before its first scan. */
  lemma NoStoredTitles()
    ensures "Song" !in Titles(Tracks.GetAllByAlbum([], AlbumRow))
  {
    assert |Tracks.GetAllByAlbum([], AlbumRow)| == 0;
  }

  /** Before the second scan, the album's stored titles are those of the first track. */
  lemma StoredTitlesOfFirstTrack()
    ensures "Song" in Titles(Tracks.GetAllByAlbum([Track1], AlbumRow))
    ensures "Song Two" !in Titles(Tracks.GetAllByAlbum([Track1], AlbumRow))
  {
    var ts := Tracks.GetAllByAlbum([Track1], AlbumRow);
    var stored := Titles(ts);
    assert Track1 in ts;
    assert "Song" in stored by {
      var k :| 0 <= k < |ts| && ts[k] == Track1;
      assert stored[k] == "Song";
    }
    assert "Song Two" !in stored by {
      forall k | 0 <= k < |stored| ensures stored[k] != "Song Two" {
        assert ts[k] in ts;
      }
    }
  }

  /** The first file of the album directory, new to the album, becomes the first track. */
  lemma FirstFileStep(n: Naming, sum: string, stored: seq<string>)
    requires ExampleNaming(n) && "Song" !in stored
    ensures AlbumStep(Catalog(sum, []), n, AlbumPath, 1, stored, Song1) == Outcome(true, Catalog(sum, [Track1]))
  {
    assert Join(AlbumPath, Song1.name) == Track1.path;
    assert AddTrack(Catalog(sum, []), Tracks.TrackCreate("Song", Track1.path, 1, PlaceholderDuration, 1))
      == Catalog(sum, [Track1]);
  }

  /** The second file of the album directory, new to the album, becomes the second track. */
  lemma SecondFileStep(n: Naming, sum: string, stored: seq<string>)
    requires ExampleNaming(n) && "Song Two" !in stored
    ensures AlbumStep(Catalog(sum, [Track1]), n, AlbumPath, 1, stored, Song2) == Outcome(true, Catalog(sum, [Track1, Track2]))
  {
    assert Join(AlbumPath, Song2.name) == Track2.path;
    assert AddTrack(Catalog(sum, [Track1]), Tracks.TrackCreate("Song Two", Track2.path, 2, PlaceholderDuration, 1))
      == Catalog(sum, [Track1, Track2]);
  }

  /** The first scan of the album directory creates its one track. */
  lemma FirstAlbumScan(n: Naming, sum: string)
    requires ExampleNaming(n)
    ensures ScanAlbum(Catalog(sum, []), n, AlbumPath, [Song1], 1) == Outcome(true, Catalog(sum, [Track1]))
  {
    var db := Catalog(sum, []);
    FindsAlbum();
    var stored := Titles(Tracks.GetAllByAlbum(db.tracks, AlbumRow));
    assert ScanAlbum(db, n, AlbumPath, [Song1], 1) == AlbumLoop(db, n, AlbumPath, 1, stored, [Song1]);
    NoStoredTitles();
    FirstFileStep(n, sum, stored);
    AlbumLoopOne(db, n, AlbumPath, 1, stored, Song1);
  }

  /** The second scan of the album directory skips the stored title and creates the new one. */
  lemma SecondAlbumScan(n: Naming, sum: string)
    requires ExampleNaming(n)
    ensures ScanAlbum(Catalog(sum, [Track1]), n, AlbumPath, [Song1, Song2], 1) == Outcome(true, Catalog(sum, [Track1, Track2]))
  {
    var db := Catalog(sum, [Track1]);
    FindsAlbum();
    var stored := Titles(Tracks.GetAllByAlbum(db.tracks, AlbumRow));
    assert ScanAlbum(db, n, AlbumPath, [Song1, Song2], 1) == AlbumLoop(db, n, AlbumPath, 1, stored, [Song1, Song2]);
    StoredTitlesOfFirstTrack();
    assert AlbumStep(db, n, AlbumPath, 1, stored, Song1) == Outcome(true, db);
    assert [Song1, Song2][1..] == [Song2];
    SecondFileStep(n, sum, stored);
    AlbumLoopOne(db, n, AlbumPath, 1, stored, Song2);
  }

  /** The artist's first album directory is new: the album is created and scanned. */
  lemma FirstAlbumDirStep(n: Naming, sum: string)
    requires ExampleNaming(n)
    ensures ArtistStep(Db([ArtistRow(sum)], 2, [], 1, [], 1), n, ArtistPath, 1, map[], AlbumEntry([Song1]))
      == ScanAlbum(Catalog(sum, []), n, AlbumPath, [Song1], 1)
  {
    assert !IsHidden("Album B (2001)");
    assert Join(ArtistPath, "Album B (2001)") == AlbumPath;
    assert AddAlbum(Db([ArtistRow(sum)], 2, [], 1, [], 1), Albums.AlbumCreate("Album B", ArtistPath, 2001, 1)) == Catalog(sum, []);
  }

  /** On the rescan the album directory's title is known: the album is reused and scanned. */
  lemma SecondAlbumDirStep(n: Naming, sum: string)
    requires ExampleNaming(n)
    ensures ArtistStep(Catalog(sum, [Track1]), n, ArtistPath, 1, map["Album B" := 1], AlbumEntry([Song1, Song2]))
      == ScanAlbum(Catalog(sum, [Track1]), n, AlbumPath, [Song1, Song2], 1)
  {
    assert !IsHidden("Album B (2001)");
    assert Join(ArtistPath, "Album B (2001)") == AlbumPath;
  }

  /** The first scan of the artist directory creates the album, then scans it. */
  lemma FirstArtistScan(n: Naming, sum: string)
    requires ExampleNaming(n)
    ensures ScanArtist(Db([ArtistRow(sum)], 2, [], 1, [], 1), n, ArtistPath, [AlbumEntry([Song1])], 1)
      == Outcome(true, Catalog(sum, [Track1]))
  {
    var db := Db([ArtistRow(sum)], 2, [], 1, [], 1);
    assert AlbumMap([]) == map[];
    ArtistLoopOne(db, n, ArtistPath, 1, map[], AlbumEntry([Song1]));
    FirstAlbumDirStep(n, sum);
    FirstAlbumScan(n, sum);
  }

  /** The second scan of the artist directory reuses the album and scans it. */
  lemma SecondArtistScan(n: Naming, sum: string)
    requires ExampleNaming(n)
    ensures ScanArtist(Catalog(sum, [Track1]), n, ArtistPath, [AlbumEntry([Song1, Song2])], 1)
      == Outcome(true, Catalog(sum, [Track1, Track2]))
  {
    var db := Catalog(sum, [Track1]);
    assert [AlbumRow][..0] == [];
    assert AlbumMap([AlbumRow]) == map["Album B" := 1];
    ArtistLoopOne(db, n, ArtistPath, 1, map["Album B" := 1], AlbumEntry([Song1, Song2]));
    SecondAlbumDirStep(n, sum);
    SecondAlbumScan(n, sum);
  }

  /** An unknown artist directory: the artist is created with the directory's fingerprint, then scanned. */
  lemma FirstArtistDirStep(n: Naming, digest: string -> string)
    ensures var sum := digest("01 - Song.flac");
      LibraryStep(EmptyDb, n, Root, digest, map[], ArtistEntry([Song1]))
        == ScanArtist(Db([ArtistRow(sum)], 2, [], 1, [], 1), n, ArtistPath, [AlbumEntry([Song1])], 1)
  {
    FolderHashes(digest);
    assert AddArtist(EmptyDb, Artists.ArtistCreate("Artist A", Root, Some(digest("01 - Song.flac"))))
      == Db([ArtistRow(digest("01 - Song.flac"))], 2, [], 1, [], 1);
    assert !IsHidden("Artist A");
    assert Join(Root, "Artist A") == ArtistPath;
  }

  /** Setting the checksum of the one artist row. */
  lemma AlterExample(before: string, sum: string)
    ensures Artists.AlterRows([ArtistRow(before)], 1, SetChecksum(sum)) == Some([ArtistRow(sum)])
  {
    assert Artists.Ids([ArtistRow(before)]) == [1];
    assert IndexOf([1], 1) == Some(0);
    assert IndexOf(Artists.Ids([ArtistRow(before)]), 1) == Some(0);
    assert Artists.Merge(ArtistRow(before), SetChecksum(sum)) == ArtistRow(sum);
    assert [ArtistRow(before)][0 := ArtistRow(sum)] == [ArtistRow(sum)];
  }

  /** A known artist directory whose fingerprint changed: the new checksum is stored, then the directory is rescanned. */
  lemma SecondArtistDirStep(n: Naming, digest: string -> string)
    requires digest("01 - Song.flac") != digest("01 - Song.flac02 - Song Two.flac")
    ensures var before, sum := digest("01 - Song.flac"), digest("01 - Song.flac02 - Song Two.flac");
      LibraryStep(Catalog(before, [Track1]), n, Root, digest, map["Artist A" := (1, Some(before))], ArtistEntry([Song1, Song2]))
        == ScanArtist(Catalog(sum, [Track1]), n, ArtistPath, [AlbumEntry([Song1, Song2])], 1)
  {
    var before, sum := digest("01 - Song.flac"), digest("01 - Song.flac02 - Song Two.flac");
    FolderHashes(digest);
    AlterExample(before, sum);
    assert Catalog(before, [Track1]).(artists := [ArtistRow(sum)]) == Catalog(sum, [Track1]);
    assert !IsHidden("Artist A");
    assert Join(Root, "Artist A") == ArtistPath;
  }

  /**
   * The first scan of the library: exactly one artist, with the library root
   * as its path and the directory's fingerprint; one album titled "Album B"
   * from 2001 with the artist directory as its path; and one track "Song",
   * number 1, with its full path.
   */
  lemma FirstScan(n: Naming, digest: string -> string)
    requires ExampleNaming(n)
    ensures ScanLibrary(EmptyDb, n, Root, digest, Tree([Song1])) == Outcome(true, Catalog(digest("01 - Song.flac"), [Track1]))
  {
    assert ArtistMap([]) == map[];
    LibraryLoopOne(EmptyDb, n, Root, digest, map[], ArtistEntry([Song1]));
    FirstArtistDirStep(n, digest);
    FirstArtistScan(n, digest("01 - Song.flac"));
  }

  /**
   * The rescan after `02 - Song Two.flac` is added to the album directory:
   * the changed fingerprint is stored on the artist, the album is reused, and
   * exactly one track "Song Two", number 2, is added.
   */
  lemma SecondScan(n: Naming, digest: string -> string)
    requires ExampleNaming(n)
    requires digest("01 - Song.flac") != digest("01 - Song.flac02 - Song Two.flac")
    ensures ScanLibrary(Catalog(digest("01 - Song.flac"), [Track1]), n, Root, digest, Tree([Song1, Song2]))
      == Outcome(true, Catalog(digest("01 - Song.flac02 - Song Two.flac"), [Track1, Track2]))
  {
    var before := digest("01 - Song.flac");
    var artists := map["Artist A" := (1, Some(before))];
    assert [ArtistRow(before)][..0] == [];
    assert ArtistMap([ArtistRow(before)]) == artists;
    LibraryLoopOne(Catalog(before, [Track1]), n, Root, digest, artists, ArtistEntry([Song1, Song2]));
    SecondArtistDirStep(n, digest);
    SecondArtistScan(n, digest("01 - Song.flac02 - Song Two.flac"));
  }

  /**
   * With the source's recognisers and a digest that tells the two hash inputs
   * apart: the first scan of an empty catalog creates one artist, one album
   * and one track; the rescan after a file is added creates one more track,
   * on the same album, and updates the artist's checksum, nothing else.
   */
  lemma TwoScansExample(digest: string -> string)
    requires digest("01 - Song.flac") != digest("01 - Song.flac02 - Song Two.flac")
    ensures var first := ScanLibrary(EmptyDb, SourceNaming, Root, digest, Tree([Song1]));
      first.ok && first.db.artists == [Artists.Artist(1, "Artist A", "/music", Some(digest("01 - Song.flac")))]
      && first.db.albums == [Albums.Album(1, "Album B", "/music/Artist A", 2001, 1)]
      && first.db.tracks == [Tracks.Track(1, "Song", "/music/Artist A/Album B (2001)/01 - Song.flac", 1, 1337, 1)]
    ensures var first := ScanLibrary(EmptyDb, SourceNaming, Root, digest, Tree([Song1]));
      var second := ScanLibrary(first.db, SourceNaming, Root, digest, Tree([Song1, Song2]));
      second.ok && second.db.artists == [Artists.Artist(1, "Artist A", "/music", Some(digest("01 - Song.flac02 - Song Two.flac")))]
      && second.db.albums == first.db.albums
      && second.db.tracks == first.db.tracks + [Tracks.Track(2, "Song Two", "/music/Artist A/Album B (2001)/02 - Song Two.flac", 2, 1337, 1)]
  {
    SourceNamingReadsExample();
    var d1, d2 := digest("01 - Song.flac"), digest("01 - Song.flac02 - Song Two.flac");
    FirstScan(SourceNaming, digest);
    var first := ScanLibrary(EmptyDb, SourceNaming, Root, digest, Tree([Song1]));
    assert first == Outcome(true, Catalog(d1, [Track1]));
    SecondScan(SourceNaming, digest);
    RowsSpelledOut(d1, d2);
  }

  /** The rows of the example with their paths written out. */
  lemma RowsSpelledOut(d1: string, d2: string)
    ensures Catalog(d1, [Track1]).artists == [Artists.Artist(1, "Artist A", "/music", Some(d1))]
    ensures Catalog(d2, [Track1, Track2]).artists == [Artists.Artist(1, "Artist A", "/music", Some(d2))]
    ensures Catalog(d1, [Track1]).albums == [Albums.Album(1, "Album B", "/music/Artist A", 2001, 1)]
    ensures Catalog(d2, [Track1, Track2]).albums == Catalog(d1, [Track1]).albums
  {
  }
}
