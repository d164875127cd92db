# Bragi library scanner, in Dafny

Bragi indexes a music collection on disk into a catalog of artists, albums and
tracks. Its scanner walks the library root in three levels:

- one directory per artist;
- one directory per album, named `<title> (<yyyy>)`;
- one audio file per track, named `<number> - [<artist> - ]<title>.<ext>`.

At each level the scanner takes a snapshot of the catalog once, before the
loop. It then creates the rows it does not find, re-checksums artists whose
folder fingerprint changed, and descends. This project models that scanner
and the three catalog services it calls, and proves what a scan does to the
catalog.

The model has these parts, one module each:

- `Names` — the name recognisers: `is_hidden`, `is_audio_file`,
  `get_filename_stem`, and the three regular expressions. The regular
  expressions are written out as searches that follow the `regex` crate's
  leftmost-first semantics.
- `NameFacts` — soundness and completeness of the track parser, the naming
  conventions, and worked examples.
- `FileTree` — the directory tree the scanner walks (files, directories,
  symbolic links in listing order) and `Path::join`.
- `Fingerprint` — `hash_artist_folder`, as an imperative loop over the walk.
  The loop is proved to feed the digest exactly the names read off the tree.
- `Artists`, `Albums`, `Tracks` — the three tables:
  - each row datatype;
  - the read-only queries, as functions over the rows;
  - an in-memory service class with a `rows` field and an id counter, and
    methods `create`, `get_all` and, for artists, `alter`.
  - The three tables share one shape (an id column filled from a counter),
    so `Ids`, `FindById` and `GetAll` are written once per table over its
    own row type.
- `Reconcile` — the three scan levels as functions from the catalog before a
  call to its outcome. A panic ends the scan with `ok == false`.
- `AlbumScanProps`, `LibraryScanProps` — what `scan_album`, `scan_artist` and
  `scan_library` create, keep and alter; that each level descends, so every
  audio file under a scanned directory ends up as a track; when they fail;
  and that a second scan of an unchanged tree changes nothing.
- `ScanExample` — two scans of a one-file library, then after a second file is
  added, with the exact tables after each.
- `Library` — the `Scanner` class. Its three loops call the services'
  methods and are proved to leave the catalog exactly as `Reconcile` says.

The scan functions take the three recognisers as a `Naming` value. The lemmas
about scans therefore hold for any recognisers. The `Scanner` methods use
`SourceNaming`, the recognisers of the source.

On these points the model follows the code, where a reader might expect otherwise:

- The fingerprint uses the unsorted walk order.
- Album lookup is global by title, not scoped to the artist.
- Snapshots are never refreshed inside a loop.
- Artist names stay unique (`LibraryScanProps.ScanLibraryKeepsNamesUnique`), but
  album titles and track titles do not: two sibling directories with the same new
  title both create an album (`AlbumScanProps.SameAlbumTitleTwice`), and two audio
  files with the same new title both create a track (`AlbumScanProps.SameTitleTwice`).
- An unparsable audio file aborts the scan.
- Every new track gets the fixed duration 1337.
- There is no scan-in-progress guard.

## Model

| member | source | states |
|---|---|---|
| Names.IsHidden | scanner/src/lib.rs:160-165 | the entry is hidden exactly when its own base name starts with "." |
| Names.LastDot | scanner/src/lib.rs:213 | the position of the last '.' of a prefix, with no '.' after it, or none at all |
| Names.Extension | scanner/src/lib.rs:213 | `Path::extension`: a dot-free suffix after a dot that is not the leading one; None for "..", for names without a dot, and for names whose only dot leads |
| Names.FileStem | scanner/src/lib.rs:233-237 | `Path::file_stem`: a non-empty stem that, with "." and the extension, gives the name back; the whole name when there is no extension |
| Names.AudioFileIff | scanner/src/lib.rs:211-215 | a name is audio exactly when it ends in "." plus one of the 13 listed extensions, compared case-sensitively, with something before the dot |
| Names.DotFreeSuffixIsExtension | scanner/src/lib.rs:213 | a dot-free suffix after a non-leading dot is the extension |
| Names.FourDigitsValue | scanner/src/lib.rs:116 | four digits parse to their positional value, between 0 and 9999 |
| Names.FirstYear | scanner/src/lib.rs:168-169 | the leftmost position at or after `i` where "(dddd)" starts, or none |
| Names.ExtractReleaseYear | scanner/src/lib.rs:167-174 | the four digits of the leftmost "(dddd)" anywhere in the name; None exactly when there is none |
| Names.LastTitleEnd | scanner/src/lib.rs:177-178 | the last position at most `k` where whitespace, then "(dddd)", is reachable by the one-line `(.*)` |
| Names.ExtractAlbumName | scanner/src/lib.rs:176-183 | the text before the last reachable whitespace-"(dddd)", with no end anchor; None exactly when there is none |
| Names.TitleImpliesYear | scanner/src/lib.rs:100-102 | whenever the title pattern matches, the year pattern matches too |
| Names.ParseAlbumDir | scanner/src/lib.rs:100-116 | a directory is accepted exactly when the title pattern matches; the title comes from the last whitespace-"(dddd)", the year from the first "(dddd)", in 0..9999 |
| Names.DigitRunEnd | scanner/src/lib.rs:187 | the greedy `\d+`: the end of the maximal digit run |
| Names.SpaceRunEnd | scanner/src/lib.rs:187 | the greedy `\s*`: the end of the maximal Unicode-whitespace run |
| Names.LineEnd | scanner/src/lib.rs:187 | how far `.` can reach: the first line feed or the end |
| Names.LastTitleStart | scanner/src/lib.rs:187 | the last place in a whitespace run where `.+` can begin, or none |
| Names.ArtistSplit | scanner/src/lib.rs:187 | the lazy artist group: a start of the title, when the group matches |
| Names.ArtistSplitSound | scanner/src/lib.rs:187 | what the lazy artist group finds is an artist segment `.+? \s* - \s*` followed by a title |
| Names.ExtractTrackInfo | scanner/src/lib.rs:186-209 | `extract_track_info` on a file stem: no match, a track number above `i32::MAX` (the panicking `parse::<i32>().unwrap()`), or the captured title and number. What the result means is stated by `NameFacts.TrackParseSound`, `NameFacts.TrackParseComplete` and `NameFacts.TrackParsePreferred` |
| Names.IsAudioFile | scanner/src/lib.rs:211-215 | `is_audio_file`: the extension is one of the 13 listed ones; `Names.AudioFileIff` says which names that accepts |
| NameFacts.TrackParseSound | scanner/src/lib.rs:186-209 | a parsed or an overflowing number is a match of the track pattern, with the captured number and title |
| NameFacts.TrackParseComplete | scanner/src/lib.rs:186-209 | on any match the parser does not report no-match; the number is the maximal leading digit run and overflows exactly above `i32::MAX` |
| NameFacts.ArtistSplitNone | scanner/src/lib.rs:187 | when the lazy artist group finds nothing from length `a` on, no artist segment of at least `a` characters exists |
| NameFacts.ArtistSplitFound | scanner/src/lib.rs:187 | what the lazy artist group finds comes from the shortest artist segment, and for that artist from the latest title start |
| NameFacts.TrackParsePreferred | scanner/src/lib.rs:186-209 | a parsed title is the one of the match leftmost-first priority selects: the `\s*` after the separator ends at the last place the rest can start, the artist group is taken whenever some artist segment exists there and is then the shortest one, and otherwise the title is the whole rest of the line |
| NameFacts.PreferredShapeUnique | scanner/src/lib.rs:187 | the preferred match is unique: any two agree on the digits, the separator, the start of the optional group and the start of the title |
| NameFacts.TrackTitleIsPreferred | scanner/src/lib.rs:186-209 | whenever the parse succeeds, its title is the title of every preferred match, so a parser that returned the whole remainder despite an artist segment would differ |
| NameFacts.TrackTitleShape | scanner/src/lib.rs:200-208 | a parsed title is non-empty, on one line and a substring of the stem; the number is in 0..`i32::MAX` |
| NameFacts.ExtractAt | scanner/src/lib.rs:186-209 | with the capture positions known, the parser returns that title and number, or overflow |
| NameFacts.TrackStemPlain | scanner/src/lib.rs:187 | `<number><ws>[.-]<ws><title>` with a dash-free title reads back number and title |
| NameFacts.TrackStemWithArtist | scanner/src/lib.rs:187 | `<number> - <artist> - <title>` with a dash-free artist reads back number and title; the title may contain dashes |
| NameFacts.ArtistSplitSkip | scanner/src/lib.rs:187 | the lazy artist group skips lengths with no dash after them |
| NameFacts.ArtistSplitAt | scanner/src/lib.rs:187 | the artist group ends at the first " - " |
| NameFacts.TrackStemNeedsNumber | scanner/src/lib.rs:187 | without a leading digit there is no match |
| NameFacts.TrackStemNeedsSeparator | scanner/src/lib.rs:187 | digits followed only by whitespace do not match |
| NameFacts.AlbumDirConvention | scanner/src/lib.rs:167-183 | `<title> (<yyyy>)<tail>`, with no '(' in title or tail, reads back title and year |
| NameFacts.AlbumDirAt | scanner/src/lib.rs:167-183 | a name whose only '(' opens the year after whitespace at `k` gives the title before `k` |
| NameFacts.AlbumDirWithoutParenthesis | scanner/src/lib.rs:167-183 | a name without '(' has no year and is skipped |
| NameFacts.AlbumDirWithoutSpaceBeforeYear | scanner/src/lib.rs:176-183 | a name with no whitespace before any '(' is skipped |
| NameFacts.AudioNameConvention | scanner/src/lib.rs:211-215 | `stem.ext` has that extension and stem, and is audio exactly when the extension is listed |
| NameFacts.NoExtensionName | scanner/src/lib.rs:211-215 | a name whose only dot leads, or with no dot, has no extension, is its own stem and is not audio |
| NameFacts.PlainTrackExample | scanner/src/lib.rs:187 | "01 - Come Together" gives number 1, title "Come Together" |
| NameFacts.ArtistTrackExample | scanner/src/lib.rs:187 | "02 - The Beatles - Something" gives number 2, title "Something" |
| NameFacts.DotTrackExample | scanner/src/lib.rs:187 | "7.Intro" gives number 7, title "Intro" |
| NameFacts.DashedTitleExample | scanner/src/lib.rs:187 | "4 - A - B - C" gives title "B - C" |
| NameFacts.TrackNoMatchExamples | scanner/src/lib.rs:191-194 | "track_final", "12" and "12  " do not match |
| NameFacts.TrackOverflowExample | scanner/src/lib.rs:196 | a track number above `i32::MAX` makes the parse fail |
| NameFacts.AlbumExample | scanner/src/lib.rs:167-183 | "Abbey Road (1969)" gives title "Abbey Road", year 1969 |
| NameFacts.AlbumWithTailExample | scanner/src/lib.rs:167-183 | "Help! (1965) [Deluxe]" gives title "Help!", year 1965 |
| NameFacts.SkippedAlbumExamples | scanner/src/lib.rs:100-106 | "Untitled" and "Abbey Road(1969)" are skipped |
| NameFacts.AudioExamples | scanner/src/lib.rs:211-215 | "01 - Song.flac" is audio with stem "01 - Song" |
| NameFacts.InnerDotAudioExample | scanner/src/lib.rs:211-215 | "a.b.mp3" is audio with stem "a.b" |
| NameFacts.NotAudioExamples | scanner/src/lib.rs:211-215 | "x.FLAC" is not audio |
| NameFacts.CoverNotAudioExample | scanner/src/lib.rs:211-215 | "cover.jpg" is not audio |
| NameFacts.NoExtensionExamples | scanner/src/lib.rs:211-215 | "flac" and ".flac" are not audio; ".flac" is its own stem |
| NameFacts.HiddenExamples | scanner/src/lib.rs:160-165 | ".DS_Store" is hidden, "Abbey Road (1969)" is not |
| FileTree.Join | scanner/src/lib.rs:148 | `Path::join`, defined by its body (one '/' between directory and name, none after a trailing '/' or for an empty directory); its contract states that the name ends the result |
| Fingerprint.Walk | scanner/src/lib.rs:220 | the walk strictly below a directory is empty exactly when there are no children, starts with the first child, and holds every child and everything the walk below each child directory holds |
| Fingerprint.WalkFeedsHashInput | scanner/src/lib.rs:220-228 | the loop over the walk feeds exactly the non-hidden regular-file names of the tree, in tree order |
| Fingerprint.HashArtistFolder | scanner/src/lib.rs:217-231 | the result is the digest of the hash input read off the tree |
| Fingerprint.HashInputAppend | scanner/src/lib.rs:220-228 | the hash input of two entry lists is the concatenation of theirs |
| Fingerprint.HiddenFileIgnored | scanner/src/lib.rs:221-223 | a hidden file never contributes |
| Fingerprint.SymlinkIgnored | scanner/src/lib.rs:224 | a symbolic link never contributes |
| Fingerprint.DirectoryNameIgnored | scanner/src/lib.rs:224-227 | renaming a directory, even to or from a hidden name, leaves the input unchanged |
| Fingerprint.HiddenDirectoryCounts | scanner/src/lib.rs:220-227 | files inside a hidden directory still contribute |
| Fingerprint.NamesRunTogether | scanner/src/lib.rs:226 | names are joined with no separator, so "ab","c" and "a","bc" get the same digest |
| Fingerprint.OrderMatters | scanner/src/lib.rs:220 | the input follows walk order: the same files in another order give another input |
| Common.IdsOkInsert | service/src/artist.rs:34-40 | an insert with the counter's value keeps ids positive, unique and increasing; no row had that id |
| Common.Contains | service/src/artist.rs:44-55 | the SQL `LIKE '%n%'` filter of `Column::contains`, read as a substring test without wildcards; no contract of its own, used by the `exists` and `get_by_name` members |
| Artists.FindById | service/src/artist.rs:29-31 | `get_by_id`: a row with that id, or None exactly when no row has it |
| Artists.FindByIdAt | service/src/artist.rs:29-31 | in a well-formed table the row at each position is what `get_by_id` of its id finds |
| Artists.CreateKeepsTableOk | service/src/artist.rs:33-42 | the inserted id is fresh and the table stays well formed |
| Artists.GetByName | service/src/artist.rs:44-48 | `get_by_name`: a row whose name contains `n`, or None exactly when there is none |
| Artists.ExistsIffGetByName | service/src/artist.rs:44-55 | `exists(n)` holds exactly when some name contains `n`, exactly when `get_by_name(n)` finds a row |
| Artists.ExistsEmptyName | service/src/artist.rs:50-55 | `exists("")` holds exactly when the table is not empty |
| Artists.Exists | service/src/artist.rs:50-55 | `exists`: the count of rows whose name contains `n` is positive; `Artists.ExistsIffGetByName` states what that means |
| Artists.Merge | service/src/artist.rs:59-69 | the row `alter` writes back; `Artists.MergeKeepsChecksum`, `Artists.MergeNothing` and `Artists.MergeIdempotent` state its properties |
| Artists.MergeKeepsChecksum | service/src/artist.rs:66-68 | `alter` keeps the id, stores a given checksum, keeps the old one otherwise, and never resets a checksum to None |
| Artists.MergeNothing | service/src/artist.rs:60-69 | an alteration with no fields changes nothing |
| Artists.MergeIdempotent | service/src/artist.rs:60-69 | altering twice with the same body is altering once |
| Artists.ChecksumOnlyKeepsNameAndPath | scanner/src/lib.rs:48-52 | the scanner's checksum-only alteration keeps name and path |
| Artists.AlterRows | service/src/artist.rs:57-72 | the table after `alter` is None exactly when no row has the id (the `unwrap` panics), else of the same size |
| Artists.AlterRowsEffect | service/src/artist.rs:57-72 | `alter` merges the row with that id and leaves every other row and the table's well-formedness intact |
| Artists.ArtistService.GetAll | service/src/artist.rs:25-27 | returns every row, in table order |
| Artists.ArtistService.Create | service/src/artist.rs:33-42 | appends exactly one row with the body's fields and a fresh id; nothing else changes |
| Artists.ArtistService.Alter | service/src/artist.rs:57-72 | with no row of that id, fails and changes nothing; otherwise assigns the given fields one by one, returns the merged row and the table is `AlterRows` of the old one |
| Albums.FindById | service/src/album.rs:46-48 | `get_by_id`: a row with that id, or None exactly when no row has it |
| Albums.CreateKeepsTableOk | service/src/album.rs:22-33 | the inserted id is fresh and the table stays well formed |
| Albums.FindByIdExtend | service/src/album.rs:46-48 | appending rows never hides a row from `get_by_id` |
| Albums.GetByArtistId | service/src/album.rs:50-56 | None exactly when no album has that artist id; otherwise exactly those rows, never an empty list |
| Albums.ExistsIff | service/src/album.rs:35-40 | `exists(t)` holds exactly when some album title contains `t` |
| Albums.Exists | service/src/album.rs:35-40 | `exists`: the count of rows whose title contains `t` is positive; `Albums.ExistsIff` states what that means |
| Albums.AlbumService.GetAll | service/src/album.rs:42-44 | returns every row, in table order |
| Albums.AlbumService.Create | service/src/album.rs:22-33 | appends exactly one row with title, path, year and artist id and a fresh id; nothing else changes |
| Tracks.FindById | service/src/track.rs:55-57 | `get_by_id`: a row with that id, or None exactly when no row has it |
| Tracks.CreateKeepsTableOk | service/src/track.rs:32-45 | the inserted id is fresh and the table stays well formed |
| Tracks.GetAllByAlbum | service/src/track.rs:28-30 | exactly the tracks whose album id is the album's, possibly none |
| Tracks.GetByAlbumId | service/src/track.rs:47-53 | None exactly when no track has that album id; otherwise exactly those rows, never an empty list |
| Tracks.AlbumQueriesAgree | service/src/track.rs:47-53 | `get_by_album_id` is `get_all_by_album` with an empty result mapped to None |
| Tracks.GetAllByAlbumAppend | service/src/track.rs:28-30 | a new track shows up in its album's tracks after the ones already there |
| Tracks.TrackService.GetAll | service/src/track.rs:24-26 | returns every row, in table order |
| Tracks.TrackService.Create | service/src/track.rs:32-45 | appends exactly one row with title, path, number, duration and album id and a fresh id; nothing else changes |
| Reconcile.Titles | scanner/src/lib.rs:132 | the titles of the album's tracks, in order |
| Reconcile.TrackOf | scanner/src/lib.rs:138 | what `extract_track_info` makes of a file name, through `get_filename_stem` |
| Reconcile.AddArtist | service/src/artist.rs:33-42 | the catalog after `ArtistService::create`: one artist row appended with the counter's id; `Artists.CreateKeepsTableOk` states that the id is fresh |
| Reconcile.AddAlbum | service/src/album.rs:22-33 | the catalog after `AlbumService::create`; `Albums.CreateKeepsTableOk` states that the id is fresh |
| Reconcile.AddTrack | service/src/track.rs:32-45 | the catalog after `TrackService::create`; `Tracks.CreateKeepsTableOk` states that the id is fresh |
| Reconcile.AlbumStep | scanner/src/lib.rs:133-155 | one entry of `scan_album`; `AlbumScanProps.AlbumStepKeeps` (at most one track, made from the entry), `AlbumStepCreatesTrack` (an audio file with a parsed title not stored appends a track for that file, with its path) and `AlbumStepComplete` state what it does |
| Reconcile.AlbumLoop | scanner/src/lib.rs:133-156 | the `scan_album` loop, stopping at the first panic; `AlbumScanProps.AlbumLoopKeeps`, `AlbumLoopNewTracks` (where every new track comes from), `AlbumLoopCreatesEach` (every audio file with a title not stored gets its own track), `AlbumLoopComplete` and `AlbumLoopOkIff` state what it does |
| Reconcile.ScanAlbum | scanner/src/lib.rs:129-157 | `scan_album`; `AlbumScanProps.ScanAlbumKeeps`, `ScanAlbumNewTracks`, `ScanAlbumCreatesEach` (one track per audio file whose title the album lacked, with that file's path), `ScanAlbumComplete` and `ScanAlbumOkIff` state what it does |
| Reconcile.AlbumMap | scanner/src/lib.rs:90-94 | the title-to-id `HashMap` collected from `get_all`, a later row overwriting an earlier one; `AlbumScanProps.AlbumMapDomain` and `AlbumScanProps.LastTitled` state what it holds |
| Reconcile.ArtistStep | scanner/src/lib.rs:95-123 | one entry of `scan_artist`; `AlbumScanProps.ArtistStepKeeps`, `ArtistStepCreates` and `ArtistStepNewTitle` state the new-title branch, `ArtistStepKnownTitle` the known-title branch, `ArtistStepNewTracks` and `ArtistStepOkIff` both, and `ArtistStepComplete` that the album directory is scanned into its album |
| Reconcile.ArtistLoop | scanner/src/lib.rs:95-124 | the `scan_artist` loop; `AlbumScanProps.ArtistLoopKeeps`, `ArtistLoopNewAlbums`, `ArtistLoopNewTracks` (known-title directories filed under the snapshot's album), `ArtistLoopComplete` (every album directory scanned down to its audio files) and `ArtistLoopOkIff` state what it does |
| Reconcile.ScanArtist | scanner/src/lib.rs:89-125 | `scan_artist`; `AlbumScanProps.ScanArtistKeeps` (frame), `ScanArtistNewTracks` (where every new track is filed, including reuse of an existing album id), `ScanArtistComplete` and `ScanArtistFilesIn` (every audio file of every album directory ends up a track of an album titled as its directory) and `ScanArtistOkIff` (exactly when it fails) state what it does |
| Reconcile.ArtistMap | scanner/src/lib.rs:31-35 | the name-to-(id, checksum) `HashMap` collected from `get_all`, a later row overwriting an earlier one; `LibraryScanProps.ArtistMapDomain` and `LibraryScanProps.LastNamed` state what it holds |
| Reconcile.FolderHash | scanner/src/lib.rs:43 | the fingerprint of an artist directory, the value `Fingerprint.HashArtistFolder` is proved to return |
| Reconcile.LibraryStep | scanner/src/lib.rs:36-84 | one entry of `scan_library`; `LibraryScanProps.LibraryStepKeeps`, `LibraryStepNewArtist`, `LibraryStepRechecksum`, `LibraryStepSnapshot` and `LibraryStepComplete` (a created or re-checksummed artist directory is scanned down to its tracks) state what it does |
| Reconcile.LibraryLoop | scanner/src/lib.rs:36-84 | the `scan_library` loop; `LibraryScanProps.LibraryLoopKeeps`, `LibraryLoopNewArtists`, `LibraryLoopSyncs`, `LibraryLoopNamesUnique` and `LibraryLoopComplete` (every directory out of sync with the snapshot is scanned down to its tracks) state what it does |
| Reconcile.ScanLibrary | scanner/src/lib.rs:28-86 | `scan_library`; `LibraryScanProps.ScanLibraryKeeps`, `ScanLibraryNewArtists`, `ScanLibraryKeepsNamesUnique`, `ScanLibraryComplete` (descent into every new or changed artist directory) and `ScanLibraryIdempotent` state what it does; `ScanExample.TwoScansExample` gives the exact tables for a small library |
| AlbumScanProps.AlbumStepKeeps | scanner/src/lib.rs:134-155 | one entry adds at most one track, made from that entry, and changes nothing else |
| AlbumScanProps.AlbumLoopKeeps | scanner/src/lib.rs:133-156 | the album loop only appends tracks and keeps the catalog well formed, whether or not it fails |
| AlbumScanProps.ScanAlbumKeeps | scanner/src/lib.rs:129-157 | `scan_album` only appends tracks and keeps the catalog well formed |
| AlbumScanProps.AlbumLoopNewTracks | scanner/src/lib.rs:137-154 | every new track has duration 1337, the album id, a title not stored before, and the full path, number and title of a visited audio file |
| AlbumScanProps.ScanAlbumNewTracks | scanner/src/lib.rs:129-157 | the same for `scan_album`, with the titles the album had at the start |
| AlbumScanProps.AlbumLoopOkIff | scanner/src/lib.rs:137-138 | the album loop succeeds exactly when every visited audio file's stem parses |
| AlbumScanProps.ScanAlbumOkIff | scanner/src/lib.rs:130-138 | `scan_album` fails exactly when the album id is missing or some audio stem does not parse |
| AlbumScanProps.AlbumStepComplete | scanner/src/lib.rs:140-154 | after one audio file, its title is a track of the album |
| AlbumScanProps.AlbumLoopComplete | scanner/src/lib.rs:133-156 | after a successful loop, every visited audio file's title is a track of the album |
| AlbumScanProps.ScanAlbumComplete | scanner/src/lib.rs:129-157 | after a successful `scan_album`, every audio file of the directory has a track with its title on the album |
| AlbumScanProps.AlbumStepCreatesTrack | scanner/src/lib.rs:137-152 | an audio file whose parsed title is not stored makes the turn succeed and append exactly one track: that file's path, the parsed title and number, duration 1337, the album id |
| AlbumScanProps.AlbumLoopCreatesEach | scanner/src/lib.rs:133-156 | after a successful loop, every visited audio file whose parsed title was not stored has a track of its own among the appended ones, with its path, title, number, duration 1337 and the album id |
| AlbumScanProps.ScanAlbumCreatesEach | scanner/src/lib.rs:129-157 | after a successful `scan_album` the album exists, and every audio file whose title the album did not have has its own new track with its path |
| AlbumScanProps.SameTitleTwice | scanner/src/lib.rs:132-152 | the stored titles are not refreshed: two files with the same new title both become tracks |
| AlbumScanProps.ArtistStepCreates | scanner/src/lib.rs:111-121 | a directory with a new title appends exactly one album, created from that directory |
| AlbumScanProps.ArtistStepKeeps | scanner/src/lib.rs:96-123 | one entry adds at most one album, from that entry, leaves the artists alone and only appends |
| AlbumScanProps.ArtistLoopKeeps | scanner/src/lib.rs:95-124 | the artist loop never touches the artist table and only appends albums and tracks |
| AlbumScanProps.ScanArtistKeeps | scanner/src/lib.rs:89-125 | `scan_artist` never touches the artist table, only appends, and keeps the catalog well formed |
| AlbumScanProps.ArtistLoopNewAlbums | scanner/src/lib.rs:108-121 | every new album has the artist directory as its path, the artist's id, a title absent from the snapshot, and the title and year of a visited directory |
| AlbumScanProps.ArtistIdIrrelevantForKnownTitles | scanner/src/lib.rs:108-110 | lookup is by title alone: when every title is known, the artist id does not matter |
| AlbumScanProps.AlbumMapIdsIn | scanner/src/lib.rs:90-94 | every id in the title snapshot is the id of an album row |
| AlbumScanProps.ArtistStepKnownTitle | scanner/src/lib.rs:108-110 | a directory whose title is in the snapshot creates no album, and its new tracks go to the snapshot's album id for that title, whichever artist owns it, checked against the titles that album had; the step fails exactly when an audio stem does not parse |
| AlbumScanProps.ArtistStepKnownTracks | scanner/src/lib.rs:108-110 | the tracks of a known-title directory are filed under the snapshot's album for that title |
| AlbumScanProps.ArtistStepNewTitleTracks | scanner/src/lib.rs:111-121 | the tracks of a new-title directory are filed under the album the step creates with that title |
| AlbumScanProps.ArtistStepNewTracks | scanner/src/lib.rs:96-123 | every track one turn appends comes from an audio file of the directory and is filed under that directory's album |
| AlbumScanProps.ArtistLoopNewTracks | scanner/src/lib.rs:95-124 | every track the loop appends comes from an audio file of a visited album directory, filed under the snapshot's album for a known title or under an album the loop created with that title |
| AlbumScanProps.ScanArtistNewTracks | scanner/src/lib.rs:89-125 | the same for `scan_artist`, against the title snapshot of all albums (the last album of each title) |
| AlbumScanProps.ArtistStepOkIff | scanner/src/lib.rs:108-121 | when every snapshot id is a row, a turn fails exactly when an audio stem of its album directory does not parse; the album lookup of `scan_album` (scanner/src/lib.rs:130) finds the reused or the new album |
| AlbumScanProps.ArtistLoopOkIff | scanner/src/lib.rs:95-124 | when every snapshot id is a row, the loop succeeds exactly when every album directory's audio stems parse |
| AlbumScanProps.ScanArtistOkIff | scanner/src/lib.rs:89-125 | `scan_artist` fails exactly when an audio stem in one of its album directories does not parse; it never hits a missing album |
| AlbumScanProps.ArtistStepComplete | scanner/src/lib.rs:96-123 | a successful turn on an album directory scans it: all its audio files whose stems parse are tracks, with their titles, of the snapshot's album for a known title or of the album the turn created |
| AlbumScanProps.ArtistLoopComplete | scanner/src/lib.rs:95-124 | after a successful artist loop, every visited album directory was scanned the same way, into the snapshot's album or one the loop created with that title |
| AlbumScanProps.ScanArtistComplete | scanner/src/lib.rs:89-125 | the same for `scan_artist`, against the title snapshot of all albums |
| AlbumScanProps.ScannedIsIn | scanner/src/lib.rs:90-94 | a directory scanned into the snapshot's album or a newly created one has, either way, an album row titled as it is holding all its audio files |
| AlbumScanProps.ScanArtistFilesIn | scanner/src/lib.rs:89-125 | after a successful `scan_artist` the album rows only grew, and each album directory has an album titled as it is whose tracks include all its parsed audio files |
| AlbumScanProps.ArtistStepNewTitle | scanner/src/lib.rs:111-121 | a directory with a new title creates exactly one album with that title |
| AlbumScanProps.SameAlbumTitleTwice | scanner/src/lib.rs:90-121 | the album snapshot is not refreshed: two sibling directories with the same new title both create an album |
| AlbumScanProps.AlbumMapDomain | scanner/src/lib.rs:91-94 | a title is in the album snapshot exactly when some album has it |
| AlbumScanProps.LastTitled | scanner/src/lib.rs:91-94 | the snapshot holds, for a title, the id of the last album with that title |
| LibraryScanProps.LibraryStepKeeps | scanner/src/lib.rs:37-83 | one entry keeps existing artists' id, name and path, adds at most one artist, from that entry, and keeps the catalog well formed |
| LibraryScanProps.LibraryStepNewArtist | scanner/src/lib.rs:70-81 | an unknown directory name creates exactly one artist: next id, that name, the library root as path, the fingerprint as checksum |
| LibraryScanProps.LibraryStepRechecksum | scanner/src/lib.rs:44-65 | a missing or differing checksum is replaced by the fingerprint in the snapshot's row; no other artist row changes |
| LibraryScanProps.LibraryLoopKeeps | scanner/src/lib.rs:36-84 | the library loop keeps every artist row in place and the catalog well formed, whether or not it fails |
| LibraryScanProps.ScanLibraryKeeps | scanner/src/lib.rs:28-86 | `scan_library` deletes nothing, never changes an artist's id, name or path, never clears a checksum and only appends albums and tracks |
| LibraryScanProps.LibraryLoopNewArtists | scanner/src/lib.rs:36-84 | every artist the loop appends is named after a visited non-hidden directory not in the snapshot, with the root as path and a checksum |
| LibraryScanProps.ScanLibraryNewArtists | scanner/src/lib.rs:31-82 | the same for `scan_library`, against the artists at the start |
| LibraryScanProps.NamesUniqueStep | scanner/src/lib.rs:44-82 | one turn of the library loop over distinct entry names keeps artist names unique, and no row's name is that of a later entry unless it is in the snapshot |
| LibraryScanProps.LibraryLoopNamesUnique | scanner/src/lib.rs:36-84 | the library loop over distinct entry names keeps artist names unique |
| LibraryScanProps.ScanLibraryKeepsNamesUnique | scanner/src/lib.rs:28-86 | `scan_library` never makes two artists with the same name: a name already in the table is not created again, and distinct directories create distinct artists |
| LibraryScanProps.ArtistMapDomain | scanner/src/lib.rs:31-35 | a name is in the artist snapshot exactly when some artist has it |
| LibraryScanProps.LastNamed | scanner/src/lib.rs:31-35 | the snapshot holds, for a name, the id and checksum of the last artist with that name |
| LibraryScanProps.ArtistMapSetChecksum | scanner/src/lib.rs:31-35 | changing that last row's checksum changes the snapshot at that name only |
| LibraryScanProps.AlterSnapshotRow | scanner/src/lib.rs:44-52 | `alter` addressed by the snapshot's id finds its row; the new snapshot differs only in that name's checksum |
| LibraryScanProps.ArtistMapIdsIn | scanner/src/lib.rs:31-35 | every id in the snapshot is an id of the table |
| LibraryScanProps.LibraryLoopSplit | scanner/src/lib.rs:36-84 | the loop over a list is the loop over a prefix, then, unless that failed, the loop over the rest |
| LibraryScanProps.ScanLibraryAlterFindsRow | service/src/artist.rs:58 | the `unwrap` in `alter` never panics during a scan: the scan reaches turn k with the catalog the loop over the first k entries leaves, and there the snapshot's id for a known name is still a row |
| LibraryScanProps.SnapshotAfterAlter | scanner/src/lib.rs:44-65 | re-checksumming and rescanning an artist updates the table's snapshot at that name only |
| LibraryScanProps.SnapshotAfterCreate | scanner/src/lib.rs:70-81 | creating and scanning an artist updates the table's snapshot at that name only |
| LibraryScanProps.LibraryStepSnapshot | scanner/src/lib.rs:37-83 | after a successful turn on a directory, the snapshot holds its fingerprint for its name and is otherwise the same; any other entry changes nothing |
| LibraryScanProps.LibraryLoopSyncs | scanner/src/lib.rs:36-84 | after a successful loop, the snapshot holds every visited directory's fingerprint and is the same at every other name |
| LibraryScanProps.LibraryLoopSkips | scanner/src/lib.rs:66-68 | when every entry's checksum already matches, the loop skips them all and changes nothing |
| LibraryScanProps.ScanLibraryIdempotent | scanner/src/lib.rs:28-86 | after a successful scan, a second scan of the same tree succeeds and changes nothing |
| LibraryScanProps.LibraryStepComplete | scanner/src/lib.rs:44-82 | a successful turn on a directory that is new, or whose stored checksum is missing or different, scans it: every album directory under it is in the catalog with all its audio files |
| LibraryScanProps.LibraryLoopComplete | scanner/src/lib.rs:36-84 | after a successful library loop, every visited directory out of sync with the snapshot was scanned down to its tracks |
| LibraryScanProps.ScanLibraryComplete | scanner/src/lib.rs:28-86 | after a successful `scan_library`, every artist directory that is new or changed since the last scan has each album directory in the catalog with all its parsed audio files |
| ScanExample.SourceNamingReadsExample | scanner/src/lib.rs:100-215 | the recognisers of the source read `Album B (2001)` as title "Album B", year 2001, and `01 - Song.flac`, `02 - Song Two.flac` as audio files with titles "Song", "Song Two" and numbers 1, 2 |
| ScanExample.FirstScan | scanner/src/lib.rs:28-157 | scanning `Artist A/Album B (2001)/01 - Song.flac` into an empty catalog succeeds and leaves exactly one artist (root path, the folder's fingerprint), one album and one track |
| ScanExample.SecondScan | scanner/src/lib.rs:28-157 | after `02 - Song Two.flac` is added, the rescan stores the changed fingerprint, reuses the album and appends exactly one track |
| ScanExample.TwoScansExample | scanner/src/lib.rs:28-157 | with the source's recognisers and a digest that tells the two folder contents apart: the exact artist, album and track tables after the first scan, and after the rescan the new checksum, the same albums and exactly one more track |
| Library.Scanner.constructor | scanner/src/lib.rs:25-27 | keeps the three services, the library path and the digest |
| Library.Scanner.ScanLibrary | scanner/src/lib.rs:28-86 | the loop over the root's children leaves the catalog and the outcome that `Reconcile.ScanLibrary` gives, keeping it well formed |
| Library.Scanner.ScanLibraryEntry | scanner/src/lib.rs:37-83 | one child of the root: skip, create and scan, re-checksum and scan, or skip on a matching checksum, as `Reconcile.LibraryStep` |
| Library.Scanner.ScanArtist | scanner/src/lib.rs:89-125 | the loop over an artist directory's children, as `Reconcile.ScanArtist` |
| Library.Scanner.ScanArtistEntry | scanner/src/lib.rs:96-123 | one child of an artist directory, as `Reconcile.ArtistStep` |
| Library.Scanner.ScanAlbum | scanner/src/lib.rs:129-157 | the loop over an album directory's children, failing on a missing album, as `Reconcile.ScanAlbum` |
| Library.Scanner.ScanAlbumEntry | scanner/src/lib.rs:134-155 | one child of an album directory, as `Reconcile.AlbumStep` |

## Left out

- Reconcile.ArtistMap, Reconcile.AlbumMap, Artists.ArtistService.GetAll, Albums.AlbumService.GetAll, Tracks.TrackService.GetAll: `get_all` has no `ORDER BY`, so the database may return rows in any order. The model assumes insertion order (id order). The `HashMap` collects at scanner/src/lib.rs:32-35 and 91-94 keep the last row returned for a repeated name or title, so this assumption decides which album id a repeated title resolves to.
- Names.ParseAlbumDir: `\d` is read as the ASCII digits only. The `regex` crate also accepts other Unicode decimal digits. For a directory such as "X (١٩٦٩)" the model skips the directory. The source instead scans it: when the title "X" is already in the album snapshot it rescans that album and creates tracks (scanner/src/lib.rs:108-110); when it is new it panics in `parse().unwrap()` at scanner/src/lib.rs:116. When such a year follows the real one, the model's title is also taken from an earlier position. For track stems both end in a failed scan.
- Names.ExtractTrackInfo: the same ASCII reading of `\d`. Any stem it changes still fails, as in the source.
- Artists.GetByName: the query has no ordering, and the model returns the first matching row in table order.
- Common.Contains: `contains` is read as a plain substring test. SQL `LIKE` wildcards (`%`, `_`) in the argument and database collation (case folding) are not modelled.
- LibraryScanProps.ScanLibraryIdempotent: requires distinct names among the root's children, which a file system guarantees. It also requires that the first scan succeeded; after a panic, a second scan resumes the work.
- Library.Scanner.ScanAlbum: drops the `artist_id` parameter, which the source never reads.
- Storage errors: every `.await.unwrap()` and `?` on a `DbErr` is left out. The in-memory tables never fail; the modelled failures are the panics on a missing album, a missing artist id in `alter`, and an unparsable or overflowing track stem.
- The file system: the tree of children is a parameter, in listing order. Unreadable entries, which `filter_map(|e| e.ok())` drops, are absent; symbolic links are not followed.
- Non-UTF-8 file names, on which `to_str().unwrap()` panics: model strings are always valid.
- BLAKE3 and its hex encoding: the digest is a function parameter of the scanner. Nothing is claimed about collisions.
- 32-bit ids: ids are unbounded integers, so `i32` counter overflow is not modelled. Track numbers above `i32::MAX` are modelled as the failure they cause.
- `async`/`await`, `Arc`, `Box::pin` and the absence of a scan lock: the model is sequential.
- Logging (`println!`): not modelled.
- The HTTP layer (api/src/handlers.rs, src/routes/music.rs, src/main.rs), the migrations, src/schema.rs and the entity definitions are not part of this model. The artist entity only fixes the row shape.
- The services' `new` constructors, which wrap a database connection: they are modelled as services over empty tables.
