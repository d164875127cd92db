/**
 * The scanner's name recognisers (scanner/src/lib.rs:160-237): the hidden-name test,
 * the audio-extension allow-list, Rust's `Path::file_stem` / `Path::extension`, and the
 * three regular expressions that read an album directory name `<title> (YYYY)` and a
 * track file stem `<digits>[.-][<artist> - ]<title>`.
 *
 * The regular expressions are written out as explicit searches that visit the
 * candidate matches in the order the `regex` crate's leftmost-first semantics prefers
 * them (greedy `*`/`+` try the longest run first, lazy `+?` the shortest), so the
 * captured groups are the ones the Rust code sees. `.` matches any character except
 * '\n', `\s` is the Unicode White_Space set, `\d` is restricted to ASCII digits.
 */
module Names {
  import opened Common

  // ---------------------------------------------------------------------------
  // Hidden entries and file extensions
  // ---------------------------------------------------------------------------

  /** `is_hidden`: the entry's own base name starts with a dot. */
  function IsHidden(name: string): (r: bool)
    ensures r <==> "." <= name
  {
    |name| > 0 && name[0] == '.'
  }

  /** The extensions `is_audio_file` accepts, compared case-sensitively. */
  const AudioExtensions: seq<string> :=
    ["mp3", "flac", "wav", "ogg", "m4a", "aac", "alac", "aiff", "dsd", "opus", "wma", "amr", "ape"]

  /** The position of the last '.' among the first `k` characters of `s`. */
  function LastDot(s: string, k: nat): (r: Option<nat>)
    requires k <= |s|
    ensures r.Some? ==> r.value < k && s[r.value] == '.'
    ensures r.Some? ==> forall j :: r.value < j < k ==> s[j] != '.'
    ensures r.None? ==> forall j :: 0 <= j < k ==> s[j] != '.'
    decreases k
  {
    if k == 0 then None
    else if s[k - 1] == '.' then Some(k - 1)
    else LastDot(s, k - 1)
  }

  /**
   * Rust's `Path::extension` of a base name: the text after the last dot, unless
   * there is no dot, the only dot is the leading one, or the name is "..".
   */
  function Extension(name: string): (r: Option<string>)
    ensures r.Some? ==> '.' !in r.value && |r.value| + 1 < |name|
    ensures r.Some? ==> name[|name| - |r.value| - 1..] == "." + r.value
    ensures r.None? ==> name == ".." || forall j :: 0 < j < |name| ==> name[j] != '.'
  {
    if name == ".." then None
    else match LastDot(name, |name|)
      case None => None
      case Some(k) =>
        if k == 0 then None
        else
          assert name[k..] == "." + name[k + 1..];
          Some(name[k + 1..])
  }

  /**
   * `get_filename_stem`: Rust's `Path::file_stem` of a base name, the text before the
   * last dot, or the whole name when `Extension` finds no extension. Stem and
   * extension put back together give the name.
   */
  function FileStem(name: string): (r: string)
    ensures Extension(name).Some? ==> r != "" && name == r + "." + Extension(name).value
    ensures Extension(name).None? ==> r == name
  {
    if name == ".." then name
    else match LastDot(name, |name|)
      case None => name
      case Some(k) =>
        if k == 0 then name
        else
          assert name == name[..k] + "." + name[k + 1..];
          name[..k]
  }

  /** `is_audio_file`: the extension (or "" when there is none) is on the allow-list. */
  predicate IsAudioFile(name: string) {
    (match Extension(name) case Some(ext) => ext case None => "") in AudioExtensions
  }

  lemma AudioExtensionsHaveNoDot()
    ensures forall e :: e in AudioExtensions ==> '.' !in e && |e| >= 3
  {
  }

  /**
   * A name is an audio file exactly when it ends in "." followed by a listed
   * extension and something non-empty comes before that dot.
   */
  lemma {:induction false} AudioFileIff(name: string)
    ensures IsAudioFile(name) <==>
      exists e :: e in AudioExtensions && |e| + 1 < |name| && name[|name| - |e| - 1..] == "." + e
  {
    if IsAudioFile(name) {
      AudioFileHasSuffix(name);
    }
    if e :| e in AudioExtensions && |e| + 1 < |name| && name[|name| - |e| - 1..] == "." + e {
      AudioSuffixIsAudio(name, e);
    }
  }

  /** An audio file's name ends in "." and its listed extension, with something before the dot. */
  lemma {:induction false} AudioFileHasSuffix(name: string)
    requires IsAudioFile(name)
    ensures var e := Extension(name).value; e in AudioExtensions && |e| + 1 < |name| && name[|name| - |e| - 1..] == "." + e
  {
    AudioExtensionsHaveNoDot();
  }

  /** A name ending in "." and a listed extension, with something before the dot, is an audio file. */
  lemma {:induction false} AudioSuffixIsAudio(name: string, e: string)
    requires e in AudioExtensions && |e| + 1 < |name| && name[|name| - |e| - 1..] == "." + e
    ensures IsAudioFile(name)
  {
    AudioExtensionsHaveNoDot();
    DotFreeSuffixIsExtension(name, e);
  }

  /** A dot-free suffix after a dot at a position other than 0 is the extension. */
  lemma {:induction false} DotFreeSuffixIsExtension(name: string, e: string)
    requires '.' !in e && |e| >= 1 && |e| + 1 < |name| && name[|name| - |e| - 1..] == "." + e
    ensures Extension(name) == Some(e)
  {
    var k := |name| - |e| - 1;
    assert name[k] == name[k..][0] == '.';
    forall j | k < j < |name| ensures name[j] != '.' {
      assert name[j] == name[k..][j - k] == e[j - k - 1];
      assert e[j - k - 1] in e;
    }
    assert name != ".." by { assert |name| >= 3; }
    assert LastDot(name, |name|) == Some(k);
    assert name[k + 1..] == name[k..][1..] == e;
  }

  // ---------------------------------------------------------------------------
  // Character classes
  // ---------------------------------------------------------------------------

  /** `\d`, restricted to the ASCII digits. */
  predicate IsDigit(c: char) {
    '0' <= c <= '9'
  }

  /** `\s`: the Unicode White_Space characters. */
  predicate IsSpace(c: char) {
    c == ' ' || ('\t' <= c <= '\r') || c == '\U{85}' || c == '\U{A0}' || c == '\U{1680}'
    || ('\U{2000}' <= c <= '\U{200A}') || c == '\U{2028}' || c == '\U{2029}'
    || c == '\U{202F}' || c == '\U{205F}' || c == '\U{3000}'
  }

  predicate AllDigits(s: string) {
    forall i :: 0 <= i < |s| ==> IsDigit(s[i])
  }

  predicate AllSpace(s: string) {
    forall i :: 0 <= i < |s| ==> IsSpace(s[i])
  }

  predicate NoNewline(s: string) {
    forall i :: 0 <= i < |s| ==> s[i] != '\n'
  }

  lemma {:induction false} NoNewlinePrefix(s: string, i: nat, k: nat, j: nat)
    requires i <= k <= j <= |s| && NoNewline(s[i..j])
    ensures NoNewline(s[i..k])
  {
    forall x | 0 <= x < k - i ensures s[i..k][x] != '\n' {
      assert s[i..k][x] == s[i..j][x];
    }
  }

  lemma {:induction false} AllSpacePrefix(s: string, i: nat, k: nat, j: nat)
    requires i <= k <= j <= |s| && AllSpace(s[i..j])
    ensures AllSpace(s[i..k])
  {
    forall x | 0 <= x < k - i ensures IsSpace(s[i..k][x]) {
      assert s[i..k][x] == s[i..j][x];
    }
  }

  /** The decimal value of a run of ASCII digits (what `str::parse` computes). */
  function DigitsValue(s: string): (v: nat)
    requires AllDigits(s)
    decreases |s|
  {
    if s == [] then 0
    else DigitsValue(s[..|s| - 1]) * 10 + (s[|s| - 1] as int - '0' as int)
  }

  /** Four digits read as a number: their positional value, between 0 and 9999. */
  lemma {:induction false} FourDigitsValue(s: string)
    requires |s| == 4 && AllDigits(s)
    ensures DigitsValue(s) == 1000 * (s[0] as int - '0' as int) + 100 * (s[1] as int - '0' as int)
      + 10 * (s[2] as int - '0' as int) + (s[3] as int - '0' as int)
    ensures 0 <= DigitsValue(s) <= 9999
  {
    var s1, s2, s3 := s[..3][..2][..1], s[..3][..2], s[..3];
    assert s1[..0] == [] && s1 == [s[0]];
    assert s2[..1] == s1 && s2[1] == s[1];
    assert s3[..2] == s2 && s3[2] == s[2];
    assert DigitsValue(s1) == s[0] as int - '0' as int;
    assert DigitsValue(s2) == DigitsValue(s1) * 10 + (s[1] as int - '0' as int);
    assert DigitsValue(s3) == DigitsValue(s2) * 10 + (s[2] as int - '0' as int);
  }


  // ---------------------------------------------------------------------------
  // Album directory names: `\((\d{4})\)` and `^(.*)\s\(\d{4}\)`
  // ---------------------------------------------------------------------------

  /** "(dddd)" starts at position `i`. */
  predicate YearAt(s: string, i: nat) {
    i + 6 <= |s| && s[i] == '(' && IsDigit(s[i + 1]) && IsDigit(s[i + 2])
    && IsDigit(s[i + 3]) && IsDigit(s[i + 4]) && s[i + 5] == ')'
  }

  /** "(dddd)" starts at `i` and nowhere before it. */
  ghost predicate FirstYearAt(s: string, i: nat) {
    YearAt(s, i) && forall j: nat :: j < i ==> !YearAt(s, j)
  }

  /** The leftmost position at or after `i` where "(dddd)" starts. */
  function FirstYear(s: string, i: nat): (r: Option<nat>)
    requires i <= |s|
    ensures r.Some? ==> i <= r.value && YearAt(s, r.value)
    ensures r.Some? ==> forall j: nat :: i <= j < r.value ==> !YearAt(s, j)
    ensures r.None? ==> forall j: nat :: i <= j ==> !YearAt(s, j)
    decreases |s| - i
  {
    if YearAt(s, i) then Some(i)
    else if i == |s| then None
    else FirstYear(s, i + 1)
  }

  /**
   * `extract_release_year`: the four digits of the leftmost "(dddd)" anywhere in
   * the name, or None when there is none.
   */
  function ExtractReleaseYear(name: string): (r: Option<string>)
    ensures r.None? <==> forall j: nat :: !YearAt(name, j)
    ensures r.Some? ==> exists j: nat :: FirstYearAt(name, j) && r.value == name[j + 1..j + 5]
  {
    match FirstYear(name, 0)
    case None => None
    case Some(j) =>
      assert FirstYearAt(name, j);
      Some(name[j + 1..j + 5])
  }

  /**
   * `\s\(\d{4}\)` starts at `k` and `^(.*)` can reach it: the text before `k`
   * contains no line feed.
   */
  predicate TitleEndAt(s: string, k: nat) {
    k + 7 <= |s| && IsSpace(s[k]) && YearAt(s, k + 1) && NoNewline(s[..k])
  }

  /** The largest position `j <= k` at which `TitleEndAt` holds. */
  function LastTitleEnd(s: string, k: nat): (r: Option<nat>)
    ensures r.Some? ==> r.value <= k && TitleEndAt(s, r.value)
    ensures r.Some? ==> forall j: nat :: r.value < j <= k ==> !TitleEndAt(s, j)
    ensures r.None? ==> forall j: nat :: j <= k ==> !TitleEndAt(s, j)
    decreases k
  {
    if TitleEndAt(s, k) then Some(k)
    else if k == 0 then None
    else LastTitleEnd(s, k - 1)
  }

  /**
   * `extract_album_name`: the greedy `(.*)` before the LAST whitespace-"(dddd)"
   * that the anchored match can reach; there is no end anchor, so text may follow.
   */
  function ExtractAlbumName(name: string): (r: Option<string>)
    ensures r.Some? <==> exists k: nat :: TitleEndAt(name, k)
    ensures r.Some? ==> exists k: nat ::
      TitleEndAt(name, k) && r.value == name[..k] && forall j: nat :: k < j ==> !TitleEndAt(name, j)
  {
    match LastTitleEnd(name, |name|)
    case None => None
    case Some(k) => Some(name[..k])
  }

  /** Wherever the title pattern matches, the year pattern matches too. */
  lemma {:induction false} TitleImpliesYear(name: string)
    ensures ExtractAlbumName(name).Some? ==> ExtractReleaseYear(name).Some?
  {
    if ExtractAlbumName(name).Some? {
      var k: nat :| TitleEndAt(name, k);
      assert YearAt(name, k + 1);
    }
  }

  /** An album directory name read by `scan_artist`: title and release year. */
  datatype AlbumDir = AlbumDir(title: string, year: int)

  /**
   * What `scan_artist` makes of a directory name (scanner/src/lib.rs:100-106, 116):
   * None (the directory is skipped) unless both the year and the title are found;
   * otherwise the title and the year parsed from the leftmost "(dddd)", which need
   * not be the one after the title. Since a title match contains a "(dddd)", a name
   * is accepted exactly when the title pattern matches.
   */
  function ParseAlbumDir(name: string): (r: Option<AlbumDir>)
    ensures r.Some? <==> exists k: nat :: TitleEndAt(name, k)
    ensures r.Some? ==> exists k: nat ::
      TitleEndAt(name, k) && r.value.title == name[..k] && forall j: nat :: k < j ==> !TitleEndAt(name, j)
    ensures r.Some? ==> exists j: nat ::
      FirstYearAt(name, j) && AllDigits(name[j + 1..j + 5]) && r.value.year == DigitsValue(name[j + 1..j + 5])
    ensures r.Some? ==> 0 <= r.value.year <= 9999
  {
    var year := ExtractReleaseYear(name);
    var title := ExtractAlbumName(name);
    TitleImpliesYear(name);
    if year.None? || title.None? then None
    else
      assert AllDigits(year.value) by {
        var j: nat :| FirstYearAt(name, j) && year.value == name[j + 1..j + 5];
      }
      FourDigitsValue(year.value);
      Some(AlbumDir(title.value, DigitsValue(year.value)))
  }

  // ---------------------------------------------------------------------------
  // Track file stems:
  //   ^(?P<track_number>\d+)\s*[.-]\s*(?:(?P<artist>.+?)\s*-\s*)?(?P<title>.+)
  // ---------------------------------------------------------------------------

  /** The end of the maximal run of digits that starts at `i`. */
  function DigitRunEnd(s: string, i: nat): (j: nat)
    requires i <= |s|
    ensures i <= j <= |s| && AllDigits(s[i..j]) && (j < |s| ==> !IsDigit(s[j]))
    decreases |s| - i
  {
    if i < |s| && IsDigit(s[i]) then
      var j := DigitRunEnd(s, i + 1);
      assert s[i..j] == [s[i]] + s[i + 1..j];
      j
    else i
  }

  /** The end of the maximal run of whitespace that starts at `i`. */
  function SpaceRunEnd(s: string, i: nat): (j: nat)
    requires i <= |s|
    ensures i <= j <= |s| && AllSpace(s[i..j]) && (j < |s| ==> !IsSpace(s[j]))
    decreases |s| - i
  {
    if i < |s| && IsSpace(s[i]) then
      var j := SpaceRunEnd(s, i + 1);
      assert s[i..j] == [s[i]] + s[i + 1..j];
      j
    else i
  }

  /** The first line feed at or after `i`, or the end of `s`. */
  function LineEnd(s: string, i: nat): (j: nat)
    requires i <= |s|
    ensures i <= j <= |s| && NoNewline(s[i..j]) && (j < |s| ==> s[j] == '\n')
    decreases |s| - i
  {
    if i < |s| && s[i] != '\n' then
      var j := LineEnd(s, i + 1);
      assert s[i..j] == [s[i]] + s[i + 1..j];
      j
    else i
  }

  /** `.+` can start at `t`. */
  predicate TitleStart(s: string, t: nat) {
    t < |s| && s[t] != '\n'
  }

  /** What the greedy `(?P<title>.+)` captures when it starts at `t`. */
  function TitleAt(s: string, t: nat): string
    requires TitleStart(s, t)
  {
    s[t..LineEnd(s, t)]
  }

  /**
   * A greedy `\s*` spanning positions `lo..hi` followed by `.+`: the largest
   * start position in `[lo, hi]` at which `.+` can begin.
   */
  function LastTitleStart(s: string, lo: nat, hi: nat): (r: Option<nat>)
    requires lo <= hi
    ensures r.Some? ==> lo <= r.value <= hi && TitleStart(s, r.value)
    ensures r.Some? ==> forall t: nat :: r.value < t <= hi ==> !TitleStart(s, t)
    ensures r.None? ==> forall t: nat :: lo <= t <= hi ==> !TitleStart(s, t)
    decreases hi - lo
  {
    if TitleStart(s, hi) then Some(hi)
    else if hi == lo then None
    else LastTitleStart(s, lo, hi - 1)
  }

  /**
   * The optional group `(?P<artist>.+?)\s*-\s*` tried at `q` with an artist of at
   * least `a` characters: the lazy `.+?` tries lengths `a, a + 1, ...` up to the
   * next line feed; for each, the greedy `\s*` must be followed by '-', and the
   * greedy `\s*` after it must leave a place for `.+`. The result is where the
   * title starts, for the shortest artist that works.
   */
  function ArtistSplit(s: string, q: nat, a: nat): (r: Option<nat>)
    requires q <= |s| && 1 <= a
    ensures r.Some? ==> TitleStart(s, r.value)
    decreases |s| - (q + a)
  {
    if q + a > LineEnd(s, q) then None
    else
      var m := SpaceRunEnd(s, q + a);
      var t := if m < |s| && s[m] == '-' then LastTitleStart(s, m + 1, SpaceRunEnd(s, m + 1)) else None;
      if t.Some? then t else ArtistSplit(s, q, a + 1)
  }

  /** Where `ArtistSplit` stops at artist length `a`, the characters up to the title form an artist segment. */
  lemma {:induction false} ArtistSplitHere(s: string, q: nat, a: nat, m: nat, t: nat)
    requires q <= |s| && 1 <= a && q + a <= LineEnd(s, q) && m == SpaceRunEnd(s, q + a)
    requires m < |s| && s[m] == '-' && LastTitleStart(s, m + 1, SpaceRunEnd(s, m + 1)) == Some(t)
    ensures ArtistSegment(s, q, q + a, m, t)
  {
    NoNewlinePrefix(s, q, q + a, LineEnd(s, q));
    AllSpacePrefix(s, m + 1, t, SpaceRunEnd(s, m + 1));
  }

  /** Whatever `ArtistSplit` finds is an artist segment of at least `a` characters. */
  lemma {:induction false} ArtistSplitSound(s: string, q: nat, a: nat)
    requires q <= |s| && 1 <= a
    ensures ArtistSplit(s, q, a).Some? ==>
      exists e: nat, m: nat :: ArtistSegment(s, q, e, m, ArtistSplit(s, q, a).value) && q + a <= e
    decreases |s| - (q + a)
  {
    if ArtistSplit(s, q, a).Some? {
      var here := ArtistSplitStepSome(s, q, a);
      if !here {
        ArtistSplitSound(s, q, a + 1);
      }
    }
  }

  /**
   * One step of an `ArtistSplit` that finds a title: either the artist of length
   * `a` gives its segment, or the search from `a + 1` finds the same title.
   */
  lemma {:induction false} ArtistSplitStepSome(s: string, q: nat, a: nat) returns (here: bool)
    requires q <= |s| && 1 <= a && ArtistSplit(s, q, a).Some?
    ensures q + a <= |s|
    ensures here ==> ArtistSegment(s, q, q + a, SpaceRunEnd(s, q + a), ArtistSplit(s, q, a).value)
    ensures !here ==> ArtistSplit(s, q, a + 1) == ArtistSplit(s, q, a)
  {
    var m := SpaceRunEnd(s, q + a);
    here := m < |s| && s[m] == '-' && LastTitleStart(s, m + 1, SpaceRunEnd(s, m + 1)).Some?;
    if here {
      ArtistSplitHere(s, q, a, m, LastTitleStart(s, m + 1, SpaceRunEnd(s, m + 1)).value);
    }
  }

  /**
   * The text `s[q..t]` is an artist segment `.+? \s* - \s*`: a non-empty artist
   * `s[q..e]` without line feeds, whitespace up to the dash at `m`, whitespace up
   * to `t`, and `.+` can start at `t`.
   */
  predicate ArtistSegment(s: string, q: nat, e: nat, m: nat, t: nat) {
    q < e <= m < t <= |s| && NoNewline(s[q..e]) && AllSpace(s[e..m]) && s[m] == '-'
    && AllSpace(s[m + 1..t]) && TitleStart(s, t)
  }

  /**
   * The anchored track pattern matches with the digits `s[..d]`, the leading
   * `\s*[.-]\s*` ending at `q`, and the title starting at `t` (`t == q` when the
   * optional artist group is skipped).
   */
  ghost predicate TrackShape(s: string, d: nat, p: nat, q: nat, t: nat) {
    0 < d <= p < q <= t <= |s| && AllDigits(s[..d]) && AllSpace(s[d..p])
    && (s[p] == '.' || s[p] == '-') && AllSpace(s[p + 1..q]) && TitleStart(s, t)
    && (t == q || exists e: nat, m: nat :: ArtistSegment(s, q, e, m, t))
  }

  /**
   * Of the artist segments at `q`, the one leftmost-first priority prefers: the
   * shortest artist (the lazy `.+?`) and, for that artist, the latest title start
   * (the greedy `\s*` after the dash).
   */
  ghost predicate FirstSegment(s: string, q: nat, e: nat, m: nat, t: nat) {
    ArtistSegment(s, q, e, m, t)
    && forall e': nat, m': nat, t': nat :: ArtistSegment(s, q, e', m', t') ==> e <= e' && (e' == e ==> t' <= t)
  }

  /**
   * The match of the track pattern that leftmost-first priority selects: the
   * greedy `\s*` after the separator ends at the last position where the rest can
   * start, the optional artist group is taken whenever some artist segment
   * exists there, and then it is the preferred one.
   */
  ghost predicate PreferredShape(s: string, d: nat, p: nat, q: nat, t: nat) {
    TrackShape(s, d, p, q, t)
    && (forall q': nat :: q < q' <= |s| && AllSpace(s[p + 1..q']) ==> !TitleStart(s, q'))
    && (t == q ==> forall e: nat, m: nat, t': nat :: !ArtistSegment(s, q, e, m, t'))
    && (t != q ==> exists e: nat, m: nat :: FirstSegment(s, q, e, m, t))
  }

  /** The fields `extract_track_info` returns. */
  datatype TrackInfo = TrackInfo(title: string, trackNumber: int)

  /**
   * The outcome of `extract_track_info`: the fields, no match (None), or a
   * track number above `i32::MAX`, on which `parse::<i32>().unwrap()` panics.
   */
  datatype TrackParse = Parsed(info: TrackInfo) | NoMatch | NumberOverflow

  const I32Max: int := 0x7fff_ffff

  /** `extract_track_info` applied to a file stem. */
  function ExtractTrackInfo(stem: string): TrackParse {
    var d := DigitRunEnd(stem, 0);
    var p := SpaceRunEnd(stem, d);
    if d == 0 || p == |stem| || (stem[p] != '.' && stem[p] != '-') then NoMatch
    else match LastTitleStart(stem, p + 1, SpaceRunEnd(stem, p + 1))
      case None => NoMatch
      case Some(q) =>
        var t := match ArtistSplit(stem, q, 1) case Some(t) => t case None => q;
        var n := DigitsValue(stem[..d]);
        if n > I32Max then NumberOverflow else Parsed(TrackInfo(TitleAt(stem, t), n))
  }
}
