/**
 * Properties of the name recognisers: the track parser returns exactly the matches
 * of its regular expression, and the literal cases the naming convention documents.
 */
module NameFacts {
  import opened Common
  import opened Names

  /** The maximal digit run that starts at `i` ends at `d` when it is followed by a non-digit. */
  lemma {:induction false} DigitRunEndIs(s: string, i: nat, d: nat)
    requires i <= d <= |s| && AllDigits(s[i..d]) && (d < |s| ==> !IsDigit(s[d]))
    ensures DigitRunEnd(s, i) == d
  {
    var j := DigitRunEnd(s, i);
    forall k | i <= k < d ensures IsDigit(s[k]) { assert s[k] == s[i..d][k - i]; }
    forall k | i <= k < j ensures IsDigit(s[k]) { assert s[k] == s[i..j][k - i]; }
  }

  /** The maximal whitespace run that starts at `i` ends at `p` when it is followed by a non-space. */
  lemma {:induction false} SpaceRunEndIs(s: string, i: nat, p: nat)
    requires i <= p <= |s| && AllSpace(s[i..p]) && (p < |s| ==> !IsSpace(s[p]))
    ensures SpaceRunEnd(s, i) == p
  {
    var j := SpaceRunEnd(s, i);
    forall k | i <= k < p ensures IsSpace(s[k]) { assert s[k] == s[i..p][k - i]; }
    forall k | i <= k < j ensures IsSpace(s[k]) { assert s[k] == s[i..j][k - i]; }
  }

  /** A whitespace run from `i` to `q` lies inside the maximal one. */
  lemma {:induction false} SpaceRunCovers(s: string, i: nat, q: nat)
    requires i <= q <= |s| && AllSpace(s[i..q])
    ensures q <= SpaceRunEnd(s, i)
  {
    forall k | i <= k < q ensures IsSpace(s[k]) { assert s[k] == s[i..q][k - i]; }
  }

  /** The line that starts at `i` ends at `j`. */
  lemma {:induction false} LineEndIs(s: string, i: nat, j: nat)
    requires i <= j <= |s| && NoNewline(s[i..j]) && (j < |s| ==> s[j] == '\n')
    ensures LineEnd(s, i) == j
  {
    var e := LineEnd(s, i);
    forall k | i <= k < j ensures s[k] != '\n' { assert s[k] == s[i..j][k - i]; }
    forall k | i <= k < e ensures s[k] != '\n' { assert s[k] == s[i..e][k - i]; }
  }

  /**
   * Without a '-' after `q` the optional artist group cannot match, so the title
   * is everything from `q` to the end of the line.
   */
  lemma {:induction false} NoDashNoArtist(s: string, q: nat, a: nat)
    requires q <= |s| && 1 <= a
    requires forall k :: q <= k < |s| ==> s[k] != '-'
    ensures ArtistSplit(s, q, a).None?
    decreases |s| - (q + a)
  {
    if q + a <= LineEnd(s, q) {
      NoDashNoArtist(s, q, a + 1);
    }
  }

  /** A whitespace run that starts at `i` stops at the latest at a non-space at `j`. */
  lemma {:induction false} SpaceRunStops(s: string, i: nat, j: nat)
    requires i <= j < |s| && !IsSpace(s[j])
    ensures SpaceRunEnd(s, i) <= j
    decreases j - i
  {
    if i < j && IsSpace(s[i]) {
      SpaceRunStops(s, i + 1, j);
    }
  }

  /**
   * The lazy artist group skips the lengths `a .. b - 1` when no '-' lies in
   * `s[q + a..q + b]` and the character before `q + b` is not whitespace.
   */
  lemma {:induction false} ArtistSplitSkip(s: string, q: nat, a: nat, b: nat)
    requires q <= |s| && 1 <= a <= b && q + b <= LineEnd(s, q)
    requires forall k :: q + a <= k < q + b ==> s[k] != '-'
    requires !IsSpace(s[q + b - 1])
    ensures ArtistSplit(s, q, a) == ArtistSplit(s, q, b)
    decreases b - a
  {
    if a < b {
      SpaceRunStops(s, q + a, q + b - 1);
      ArtistSplitSkip(s, q, a + 1, b);
    }
  }

  /** The leftmost "(dddd)" at or after `i` is at `j`. */
  lemma {:induction false} FirstYearIs(s: string, i: nat, j: nat)
    requires i <= j <= |s| && YearAt(s, j) && forall k: nat :: i <= k < j ==> !YearAt(s, k)
    ensures FirstYear(s, i) == Some(j)
  {
  }

  /** The last title end at or before `k` is at `j`. */
  lemma {:induction false} LastTitleEndIs(s: string, k: nat, j: nat)
    requires j <= k && TitleEndAt(s, j) && forall i: nat :: j < i <= k ==> !TitleEndAt(s, i)
    ensures LastTitleEnd(s, k) == Some(j)
  {
  }

  /**
   * Soundness: whatever `extract_track_info` finds is a match of the pattern, and
   * the returned number and title are the captured `track_number` and `title`.
   */
  lemma {:induction false} TrackParseSound(s: string)
    ensures ExtractTrackInfo(s).Parsed? ==> exists d: nat, p: nat, q: nat, t: nat ::
      TrackShape(s, d, p, q, t) && ExtractTrackInfo(s).info == TrackInfo(TitleAt(s, t), DigitsValue(s[..d]))
    ensures ExtractTrackInfo(s).NumberOverflow? ==> exists d: nat, p: nat, q: nat, t: nat ::
      TrackShape(s, d, p, q, t) && DigitsValue(s[..d]) > I32Max
  {
    var d := DigitRunEnd(s, 0);
    var p := SpaceRunEnd(s, d);
    if d == 0 || p == |s| || (s[p] != '.' && s[p] != '-') {
      return;
    }
    var lq := LastTitleStart(s, p + 1, SpaceRunEnd(s, p + 1));
    if lq.None? {
      return;
    }
    var q := lq.value;
    var split := ArtistSplit(s, q, 1);
    var t := if split.Some? then split.value else q;
    ArtistSplitSound(s, q, 1);
    MatchShape(s, d, p, q, t);
    ExtractAt(s, d, p, q, t);
  }

  /** The positions `extract_track_info` computes form a match of the pattern. */
  lemma {:induction false} MatchShape(s: string, d: nat, p: nat, q: nat, t: nat)
    requires 0 < d <= p < |s| && DigitRunEnd(s, 0) == d && SpaceRunEnd(s, d) == p && (s[p] == '.' || s[p] == '-')
    requires LastTitleStart(s, p + 1, SpaceRunEnd(s, p + 1)) == Some(q)
    requires ArtistSplit(s, q, 1).Some? ==>
      exists e: nat, m: nat :: ArtistSegment(s, q, e, m, ArtistSplit(s, q, 1).value) && q + 1 <= e
    requires t == match ArtistSplit(s, q, 1) case Some(t) => t case None => q
    ensures TrackShape(s, d, p, q, t)
    ensures ArtistSplit(s, q, 1) == (if t == q then None else Some(t))
  {
    assert s[0..d] == s[..d];
    AllSpacePrefix(s, p + 1, q, SpaceRunEnd(s, p + 1));
    if ArtistSplit(s, q, 1).Some? {
      var e: nat, m: nat :| ArtistSegment(s, q, e, m, t) && q + 1 <= e;
    }
  }

  /**
   * Completeness: whenever the pattern can match, `extract_track_info` does not
   * report a failed match; the track number it reads is always the maximal leading
   * digit run, and only a value above `i32::MAX` makes it overflow.
   */
  lemma {:induction false} TrackParseComplete(s: string, d: nat, p: nat, q: nat, t: nat)
    requires TrackShape(s, d, p, q, t)
    ensures d == DigitRunEnd(s, 0)
    ensures !ExtractTrackInfo(s).NoMatch?
    ensures ExtractTrackInfo(s).Parsed? <==> DigitsValue(s[..d]) <= I32Max
    ensures ExtractTrackInfo(s).Parsed? ==> ExtractTrackInfo(s).info.trackNumber == DigitsValue(s[..d])
  {
    assert !IsDigit(s[d]) by {
      if d < p { assert s[d] == s[d..p][0]; }
    }
    assert s[0..d] == s[..d];
    DigitRunEndIs(s, 0, d);
    SpaceRunEndIs(s, d, p);
    SpaceRunCovers(s, p + 1, q);
    assert TitleStart(s, q) by {
      if t != q {
        var e: nat, m: nat :| ArtistSegment(s, q, e, m, t);
        assert s[q] == s[q..e][0];
      }
    }
    var lq := LastTitleStart(s, p + 1, SpaceRunEnd(s, p + 1));
    assert lq.Some?;
  }

  /** A line segment from `i` to `j` lies inside the line that starts at `i`. */
  lemma {:induction false} LineCovers(s: string, i: nat, j: nat)
    requires i <= j <= |s| && NoNewline(s[i..j])
    ensures j <= LineEnd(s, i)
  {
    forall k | i <= k < j ensures s[k] != '\n' { assert s[k] == s[i..j][k - i]; }
  }

  /**
   * An artist segment `s[q..e]`, dash at `m`, title at `t` is accepted by the step
   * of `ArtistSplit` at artist length `e - q`, with a title start at least `t`.
   */
  lemma {:induction false} SegmentAccepted(s: string, q: nat, e: nat, m: nat, t: nat)
    requires ArtistSegment(s, q, e, m, t)
    ensures e <= LineEnd(s, q) && SpaceRunEnd(s, e) == m
    ensures LastTitleStart(s, m + 1, SpaceRunEnd(s, m + 1)).Some?
    ensures t <= LastTitleStart(s, m + 1, SpaceRunEnd(s, m + 1)).value
  {
    LineCovers(s, q, e);
    assert !IsSpace('-');
    SpaceRunEndIs(s, e, m);
    SpaceRunCovers(s, m + 1, t);
  }

  /** No artist segment has an artist ending at `e` when the step of `ArtistSplit` at length `e - q` fails. */
  lemma {:induction false} ArtistStepRejects(s: string, q: nat, e: nat)
    requires q <= |s| && q < e <= LineEnd(s, q)
    requires var m := SpaceRunEnd(s, e); m == |s| || s[m] != '-' || LastTitleStart(s, m + 1, SpaceRunEnd(s, m + 1)).None?
    ensures forall m: nat, t: nat :: !ArtistSegment(s, q, e, m, t)
  {
    forall m: nat, t: nat | ArtistSegment(s, q, e, m, t) ensures false {
      SegmentAccepted(s, q, e, m, t);
    }
  }

  /** When `ArtistSplit` from length `a` finds nothing, every artist segment is shorter than `a`. */
  lemma {:induction false} ArtistSplitNone(s: string, q: nat, a: nat)
    requires q <= |s| && 1 <= a && ArtistSplit(s, q, a).None?
    ensures forall e: nat, m: nat, t: nat :: ArtistSegment(s, q, e, m, t) ==> e < q + a
    decreases |s| - (q + a)
  {
    var stop, k := ArtistSplitNoneStep(s, q, a);
    if !stop {
      ArtistSplitNone(s, q, a + 1);
      forall e: nat, m: nat, t: nat | ArtistSegment(s, q, e, m, t) ensures e < k {
        assert e != k;
      }
    }
  }

  /**
   * One step of an `ArtistSplit` that finds nothing: either the artist length
   * `a` already passes the end of the line, so no segment has an artist that
   * long, or no segment ends at `k = q + a` and the search from `a + 1` finds
   * nothing either.
   */
  lemma {:induction false} ArtistSplitNoneStep(s: string, q: nat, a: nat) returns (stop: bool, k: nat)
    requires q <= |s| && 1 <= a && ArtistSplit(s, q, a).None?
    ensures k == q + a
    ensures stop ==> forall e: nat, m: nat, t: nat :: ArtistSegment(s, q, e, m, t) ==> e < k
    ensures !stop ==> k <= |s| && (forall m: nat, t: nat :: !ArtistSegment(s, q, k, m, t)) && ArtistSplit(s, q, a + 1).None?
  {
    k := q + a;
    stop := k > LineEnd(s, q);
    if stop {
      forall e: nat, m: nat, t: nat | ArtistSegment(s, q, e, m, t) ensures e < k {
        SegmentAccepted(s, q, e, m, t);
      }
    } else {
      ArtistStepRejects(s, q, k);
    }
  }

  /**
   * What `ArtistSplit` from length `a` finds, the title start `t`, comes from the
   * preferred segment among those with an artist of at least `a` characters.
   */
  lemma {:induction false} ArtistSplitFound(s: string, q: nat, a: nat, t: nat) returns (e: nat, m: nat)
    requires q <= |s| && 1 <= a && ArtistSplit(s, q, a) == Some(t)
    ensures q + a <= e && ArtistSegment(s, q, e, m, t)
    ensures forall e': nat, m': nat, t': nat :: ArtistSegment(s, q, e', m', t') && q + a <= e' ==>
      e <= e' && (e' == e ==> t' <= t)
    decreases |s| - (q + a)
  {
    var here, k, mk := ArtistSplitStep(s, q, a, t);
    if here {
      e, m := k, mk;
    } else {
      e, m := ArtistSplitFound(s, q, a + 1, t);
      SegmentsFromNext(s, q, k, e, m, t);
    }
  }

  /**
   * One step of `ArtistSplit` that finds `t`: either the artist ending at `k = q + a`
   * gives the preferred segment of that length, or no segment ends at `k` and the
   * search from `a + 1` finds `t`.
   */
  lemma {:induction false} ArtistSplitStep(s: string, q: nat, a: nat, t: nat) returns (here: bool, k: nat, m: nat)
    requires q <= |s| && 1 <= a && ArtistSplit(s, q, a) == Some(t)
    ensures k == q + a
    ensures here ==> ArtistSegment(s, q, k, m, t) && forall m': nat, t': nat :: ArtistSegment(s, q, k, m', t') ==> t' <= t
    ensures !here ==> (forall m': nat, t': nat :: !ArtistSegment(s, q, k, m', t')) && ArtistSplit(s, q, a + 1) == Some(t)
  {
    k := q + a;
    m := SpaceRunEnd(s, k);
    here := m < |s| && s[m] == '-' && LastTitleStart(s, m + 1, SpaceRunEnd(s, m + 1)).Some?;
    if here {
      ArtistStepAccepts(s, q, k, m, t);
    } else {
      ArtistStepRejects(s, q, k);
    }
  }

  /** Preferred among the segments from `k + 1` on, and none ends at `k`: preferred from `k` on. */
  lemma {:induction false} SegmentsFromNext(s: string, q: nat, k: nat, e: nat, m: nat, t: nat)
    requires forall m': nat, t': nat :: !ArtistSegment(s, q, k, m', t')
    requires k + 1 <= e
    requires forall e': nat, m': nat, t': nat :: ArtistSegment(s, q, e', m', t') && k + 1 <= e' ==>
      e <= e' && (e' == e ==> t' <= t)
    ensures forall e': nat, m': nat, t': nat :: ArtistSegment(s, q, e', m', t') && k <= e' ==>
      e <= e' && (e' == e ==> t' <= t)
  {
    forall e': nat, m': nat, t': nat | ArtistSegment(s, q, e', m', t') && k <= e'
      ensures e <= e' && (e' == e ==> t' <= t)
    {
      assert e' != k;
    }
  }

  /** Where the step of `ArtistSplit` for an artist ending at `e` succeeds, its segment is the preferred one of that length. */
  lemma {:induction false} ArtistStepAccepts(s: string, q: nat, e: nat, m: nat, t: nat)
    requires q <= |s| && q < e <= LineEnd(s, q) && m == SpaceRunEnd(s, e)
    requires m < |s| && s[m] == '-' && LastTitleStart(s, m + 1, SpaceRunEnd(s, m + 1)) == Some(t)
    ensures ArtistSegment(s, q, e, m, t)
    ensures forall m': nat, t': nat :: ArtistSegment(s, q, e, m', t') ==> t' <= t
  {
    ArtistSplitHere(s, q, e - q, m, t);
    forall m': nat, t': nat | ArtistSegment(s, q, e, m', t') ensures t' <= t {
      SegmentAccepted(s, q, e, m', t');
    }
  }

  /**
   * `extract_track_info` returns the title of the match that leftmost-first
   * priority selects: after the shortest `<artist>\s*-\s*` prefix when one
   * exists, the whole rest of the line otherwise.
   */
  lemma {:induction false} TrackParsePreferred(s: string)
    requires ExtractTrackInfo(s).Parsed?
    ensures exists d: nat, p: nat, q: nat, t: nat ::
      PreferredShape(s, d, p, q, t) && ExtractTrackInfo(s).info.title == TitleAt(s, t)
  {
    var d := DigitRunEnd(s, 0);
    var p := SpaceRunEnd(s, d);
    var q := LastTitleStart(s, p + 1, SpaceRunEnd(s, p + 1)).value;
    var t := match ArtistSplit(s, q, 1) case Some(t) => t case None => q;
    ArtistSplitSound(s, q, 1);
    MatchShape(s, d, p, q, t);
    ExtractTitleAt(s, d, p, q, t);
    RestStartsLast(s, p, q);
    GroupPreferred(s, q, t);
    assert PreferredShape(s, d, p, q, t);
  }

  /** The greedy `\s*` after the separator ends at the last place where `.+` can start. */
  lemma {:induction false} RestStartsLast(s: string, p: nat, q: nat)
    requires p < |s| && LastTitleStart(s, p + 1, SpaceRunEnd(s, p + 1)) == Some(q)
    ensures forall q': nat :: q < q' <= |s| && AllSpace(s[p + 1..q']) ==> !TitleStart(s, q')
  {
    forall q': nat | q < q' <= |s| && AllSpace(s[p + 1..q']) ensures !TitleStart(s, q') {
      SpaceRunCovers(s, p + 1, q');
    }
  }

  /** The optional artist group at `q`, as `extract_track_info` resolves it, is the preferred choice. */
  lemma {:induction false} GroupPreferred(s: string, q: nat, t: nat)
    requires q <= |s| && t == match ArtistSplit(s, q, 1) case Some(t) => t case None => q
    ensures t == q ==> forall e: nat, m: nat, t': nat :: !ArtistSegment(s, q, e, m, t')
    ensures t != q ==> exists e: nat, m: nat :: FirstSegment(s, q, e, m, t)
  {
    if ArtistSplit(s, q, 1).Some? {
      var e, m := ArtistSplitFound(s, q, 1, t);
      assert FirstSegment(s, q, e, m, t);
    } else {
      ArtistSplitNone(s, q, 1);
    }
  }

  /** The preferred match is unique: it fixes where the title starts. */
  lemma {:induction false} PreferredShapeUnique(s: string, d: nat, p: nat, q: nat, t: nat,
                                                d': nat, p': nat, q': nat, t': nat)
    requires PreferredShape(s, d, p, q, t) && PreferredShape(s, d', p', q', t')
    ensures d == d' && p == p' && q == q' && t == t'
  {
    ShapeSeparator(s, d, p, q, t);
    ShapeSeparator(s, d', p', q', t');
    ShapeRestStarts(s, d, p, q, t);
    ShapeRestStarts(s, d', p', q', t');
    assert q == q';
    if t != q && t' != q {
      var e: nat, m: nat :| FirstSegment(s, q, e, m, t);
      var e': nat, m': nat :| FirstSegment(s, q, e', m', t');
      FirstSegmentUnique(s, q, e, m, t, e', m', t');
    }
  }

  /** In a match, `.+` can start where the optional artist group begins. */
  lemma {:induction false} ShapeRestStarts(s: string, d: nat, p: nat, q: nat, t: nat)
    requires TrackShape(s, d, p, q, t)
    ensures TitleStart(s, q)
  {
    if t != q {
      var e: nat, m: nat :| ArtistSegment(s, q, e, m, t);
      assert s[q] == s[q..e][0];
    }
  }

  /** Two preferred segments at the same place start their titles at the same position. */
  lemma {:induction false} FirstSegmentUnique(s: string, q: nat, e: nat, m: nat, t: nat, e': nat, m': nat, t': nat)
    requires FirstSegment(s, q, e, m, t) && FirstSegment(s, q, e', m', t')
    ensures t == t'
  {
    assert e <= e' && (e' == e ==> t' <= t);
    assert e' <= e && (e == e' ==> t <= t');
  }

  /** In a match, the digit run and the separator are where `extract_track_info` looks for them. */
  lemma {:induction false} ShapeSeparator(s: string, d: nat, p: nat, q: nat, t: nat)
    requires TrackShape(s, d, p, q, t)
    ensures d == DigitRunEnd(s, 0) && p == SpaceRunEnd(s, d)
  {
    TrackParseComplete(s, d, p, q, t);
    assert !IsSpace('.') && !IsSpace('-');
    SpaceRunEndIs(s, d, p);
  }

  /**
   * Any parser that returns a title from a match which priority prefers returns
   * the title `extract_track_info` returns.
   */
  lemma {:induction false} TrackTitleIsPreferred(s: string, d: nat, p: nat, q: nat, t: nat)
    requires PreferredShape(s, d, p, q, t) && ExtractTrackInfo(s).Parsed?
    ensures ExtractTrackInfo(s).info.title == TitleAt(s, t)
  {
    TrackParsePreferred(s);
    var d': nat, p': nat, q': nat, t': nat :|
      PreferredShape(s, d', p', q', t') && ExtractTrackInfo(s).info.title == TitleAt(s, t');
    PreferredShapeUnique(s, d, p, q, t, d', p', q', t');
  }

  /** The shape of the title: non-empty, on one line, and a piece of the stem. */
  lemma {:induction false} TrackTitleShape(s: string)
    requires ExtractTrackInfo(s).Parsed?
    ensures var title := ExtractTrackInfo(s).info.title;
      title != "" && NoNewline(title) && Contains(s, title)
    ensures 0 <= ExtractTrackInfo(s).info.trackNumber <= I32Max
  {
    TrackParseSound(s);
    var d: nat, p: nat, q: nat, t: nat :| TrackShape(s, d, p, q, t)
      && ExtractTrackInfo(s).info == TrackInfo(TitleAt(s, t), DigitsValue(s[..d]));
    assert OccursAt(s, TitleAt(s, t), t);
  }

  /** With the positions of its captures known, the title `extract_track_info` returns. */
  lemma {:induction false} ExtractTitleAt(s: string, d: nat, p: nat, q: nat, t: nat)
    requires 0 < d <= p < |s| && DigitRunEnd(s, 0) == d && SpaceRunEnd(s, d) == p && (s[p] == '.' || s[p] == '-')
    requires LastTitleStart(s, p + 1, SpaceRunEnd(s, p + 1)) == Some(q)
    requires ArtistSplit(s, q, 1) == (if t == q then None else Some(t))
    requires TitleStart(s, t)
    ensures ExtractTrackInfo(s).Parsed? ==> ExtractTrackInfo(s).info.title == TitleAt(s, t)
  {
  }

  /** With the digit run and the separator known, the number `extract_track_info` returns. */
  lemma {:induction false} ExtractNumberAt(s: string, d: nat, p: nat, q: nat)
    requires 0 < d <= p < |s| && DigitRunEnd(s, 0) == d && SpaceRunEnd(s, d) == p && (s[p] == '.' || s[p] == '-')
    requires LastTitleStart(s, p + 1, SpaceRunEnd(s, p + 1)) == Some(q)
    ensures ExtractTrackInfo(s).Parsed? ==> ExtractTrackInfo(s).info.trackNumber == DigitsValue(s[..d])
    ensures ExtractTrackInfo(s).Parsed? <==> DigitsValue(s[..d]) <= I32Max
    ensures ExtractTrackInfo(s).NumberOverflow? <==> DigitsValue(s[..d]) > I32Max
  {
  }

  /** `extract_track_info` once the positions of its captures are known. */
  lemma {:induction false} ExtractAt(s: string, d: nat, p: nat, q: nat, t: nat)
    requires 0 < d <= p < |s| && DigitRunEnd(s, 0) == d && SpaceRunEnd(s, d) == p && (s[p] == '.' || s[p] == '-')
    requires LastTitleStart(s, p + 1, SpaceRunEnd(s, p + 1)) == Some(q)
    requires ArtistSplit(s, q, 1) == (if t == q then None else Some(t))
    requires TitleStart(s, t)
    ensures ExtractTrackInfo(s) ==
      if DigitsValue(s[..d]) <= I32Max then Parsed(TrackInfo(TitleAt(s, t), DigitsValue(s[..d]))) else NumberOverflow
  {
    ExtractTitleAt(s, d, p, q, t);
    ExtractNumberAt(s, d, p, q);
  }

  /** `.+` starting at `t` takes the one-line rest of `s`. */
  lemma {:induction false} TitleAtIs(s: string, t: nat, title: string)
    requires t <= |s| && s[t..] == title && title != "" && NoNewline(title)
    ensures TitleStart(s, t) && TitleAt(s, t) == title
  {
    assert s[t] == title[0];
    forall k | t <= k < |s| ensures s[k] != '\n' { assert s[k] == title[k - t]; }
    LineEndIs(s, t, |s|);
  }

  /** The greedy `\s*` before `.+` stops at the first non-space. */
  lemma {:induction false} LastTitleStartIs(s: string, lo: nat, q: nat)
    requires lo <= q < |s| && AllSpace(s[lo..q]) && !IsSpace(s[q]) && s[q] != '\n'
    ensures LastTitleStart(s, lo, SpaceRunEnd(s, lo)) == Some(q)
  {
    SpaceRunEndIs(s, lo, q);
  }

  /**
   * A stem that is a number, a separator and a dash-free one-line title, located by
   * the positions `d` (end of the digits), `p` (the separator) and `q` (the title).
   */
  lemma {:induction false} PlainStemAt(s: string, d: nat, p: nat, q: nat)
    requires 0 < d <= p < q < |s| && AllDigits(s[..d]) && !IsDigit(s[d])
    requires AllSpace(s[d..p]) && (s[p] == '.' || s[p] == '-') && AllSpace(s[p + 1..q])
    requires !IsSpace(s[q]) && NoNewline(s[q..]) && '-' !in s[q..]
    ensures ExtractTrackInfo(s) ==
      if DigitsValue(s[..d]) <= I32Max then Parsed(TrackInfo(s[q..], DigitsValue(s[..d]))) else NumberOverflow
  {
    assert s[0..d] == s[..d];
    DigitRunEndIs(s, 0, d);
    SpaceRunEndIs(s, d, p);
    TitleAtIs(s, q, s[q..]);
    LastTitleStartIs(s, p + 1, q);
    forall k | q <= k < |s| ensures s[k] != '-' {
      assert s[k] == s[q..][k - q];
    }
    NoDashNoArtist(s, q, 1);
    ExtractAt(s, d, p, q, q);
  }

  /**
   * The naming convention without an artist, `<number><ws>[.-]<ws><title>`: a
   * one-line title that starts with a non-space and contains no '-' is read whole.
   */
  lemma {:induction false} TrackStemPlain(s: string, num: string, sp1: string, sep: char, sp2: string, title: string)
    requires s == num + sp1 + [sep] + sp2 + title
    requires num != "" && AllDigits(num) && AllSpace(sp1) && (sep == '.' || sep == '-') && AllSpace(sp2)
    requires title != "" && !IsSpace(title[0]) && NoNewline(title) && '-' !in title
    ensures ExtractTrackInfo(s) ==
      if DigitsValue(num) <= I32Max then Parsed(TrackInfo(title, DigitsValue(num))) else NumberOverflow
  {
    var d, p, q := PlainLayout(s, num, sp1, sep, sp2, title);
    PlainStemAt(s, d, p, q);
  }

  /** Where the pieces of `<number><ws>[.-]<ws><title>` lie. */
  lemma {:induction false} PlainLayout(s: string, num: string, sp1: string, sep: char, sp2: string, title: string)
      returns (d: nat, p: nat, q: nat)
    requires s == num + sp1 + [sep] + sp2 + title
    requires num != "" && AllDigits(num) && AllSpace(sp1) && (sep == '.' || sep == '-') && AllSpace(sp2)
    requires title != "" && !IsSpace(title[0])
    ensures 0 < d <= p < q < |s| && s[..d] == num && !IsDigit(s[d])
    ensures s[d..p] == sp1 && s[p] == sep && s[p + 1..q] == sp2 && s[q..] == title && !IsSpace(s[q])
  {
    d := |num|;
    p := d + |sp1|;
    q := p + 1 + |sp2|;
    assert s[..d] == num;
    assert s[d..p] == sp1;
    assert s[p + 1..q] == sp2;
    assert s[q..] == title;
    assert s[p] == sep;
    assert s[q] == title[0];
    assert !IsDigit(s[d]) by {
      if d < p { assert s[d] == sp1[0]; } else { assert s[d] == sep; }
    }
  }

  /** The lazy artist group of length `a` is accepted when a dash and a title follow it. */
  lemma {:induction false} ArtistSplitAccepts(s: string, q: nat, a: nat, m: nat, t: nat)
    requires q <= |s| && 1 <= a && q + a <= LineEnd(s, q) && SpaceRunEnd(s, q + a) == m
    requires m < |s| && s[m] == '-' && LastTitleStart(s, m + 1, SpaceRunEnd(s, m + 1)) == Some(t)
    ensures ArtistSplit(s, q, a) == Some(t)
  {
  }

  /** The artist group that ends at the first " - " after `q`. */
  lemma {:induction false} ArtistSplitAt(s: string, q: nat, b: nat)
    requires 1 <= b && q + b + 3 < |s| && LineEnd(s, q) == |s|
    requires forall k :: q + 1 <= k < q + b ==> s[k] != '-'
    requires !IsSpace(s[q + b - 1]) && s[q + b] == ' ' && s[q + b + 1] == '-' && s[q + b + 2] == ' '
    requires TitleStart(s, q + b + 3) && !IsSpace(s[q + b + 3])
    ensures ArtistSplit(s, q, 1) == Some(q + b + 3)
  {
    var m := q + b + 1;
    assert IsSpace(' ') && !IsSpace('-');
    ArtistSplitSkip(s, q, 1, b);
    SpaceRunEndIs(s, q + b, m);
    LastTitleStartIs(s, m + 1, m + 2);
    ArtistSplitAccepts(s, q, b, m, m + 2);
  }

  /**
   * A stem `<number> - <artist> - <title>` located by the positions `d` (end of
   * the digits), `q` (start of the artist) and `t` (start of the title).
   */
  lemma {:induction false} ArtistStemAt(s: string, d: nat, q: nat, t: nat)
    requires 0 < d && q == d + 3 && q + 4 <= t < |s| && AllDigits(s[..d])
    requires s[d] == ' ' && s[d + 1] == '-' && s[d + 2] == ' '
    requires s[t - 3] == ' ' && s[t - 2] == '-' && s[t - 1] == ' '
    requires !IsSpace(s[q]) && !IsSpace(s[t - 4]) && !IsSpace(s[t])
    requires forall k :: q + 1 <= k < t - 3 ==> s[k] != '-'
    requires NoNewline(s[q..])
    ensures ExtractTrackInfo(s) ==
      if DigitsValue(s[..d]) <= I32Max then Parsed(TrackInfo(s[t..], DigitsValue(s[..d]))) else NumberOverflow
  {
    ArtistStemNumber(s, d, q);
    ArtistStemTitle(s, q, t);
    ExtractAt(s, d, d + 1, q, t);
  }

  /** In `<number> - <artist>...`, the digit run, the separator and the start of the artist group. */
  lemma {:induction false} ArtistStemNumber(s: string, d: nat, q: nat)
    requires 0 < d && q == d + 3 && q < |s| && AllDigits(s[..d])
    requires s[d] == ' ' && s[d + 1] == '-' && s[d + 2] == ' ' && !IsSpace(s[q]) && s[q] != '\n'
    ensures DigitRunEnd(s, 0) == d && SpaceRunEnd(s, d) == d + 1
    ensures LastTitleStart(s, d + 2, SpaceRunEnd(s, d + 2)) == Some(q)
  {
    assert s[0..d] == s[..d];
    assert IsSpace(' ') && !IsSpace('-') && !IsDigit(' ');
    DigitRunEndIs(s, 0, d);
    SpaceRunEndIs(s, d, d + 1);
    LastTitleStartIs(s, d + 2, q);
  }

  /** In `<artist> - <title>` at `q`, with a dash-free artist, the lazy group stops at the title. */
  lemma {:induction false} ArtistStemTitle(s: string, q: nat, t: nat)
    requires q + 4 <= t < |s|
    requires s[t - 3] == ' ' && s[t - 2] == '-' && s[t - 1] == ' '
    requires !IsSpace(s[t - 4]) && !IsSpace(s[t])
    requires forall k :: q + 1 <= k < t - 3 ==> s[k] != '-'
    requires NoNewline(s[q..])
    ensures TitleStart(s, t) && TitleAt(s, t) == s[t..]
    ensures ArtistSplit(s, q, 1) == Some(t)
  {
    forall k | q <= k < |s| ensures s[k] != '\n' { assert s[k] == s[q..][k - q]; }
    LineEndIs(s, q, |s|);
    TitleAtIs(s, t, s[t..]);
    ArtistSplitAt(s, q, t - 3 - q);
  }

  /**
   * The naming convention with an artist, `<number> - <artist> - <title>`: the
   * lazy artist group stops at the first " - ", so the title is everything after
   * it, dashes included.
   */
  lemma {:induction false} TrackStemWithArtist(s: string, num: string, artist: string, title: string)
    requires s == num + " - " + artist + " - " + title
    requires num != "" && AllDigits(num)
    requires artist != "" && !IsSpace(artist[0]) && !IsSpace(artist[|artist| - 1])
    requires NoNewline(artist) && '-' !in artist
    requires title != "" && !IsSpace(title[0]) && NoNewline(title)
    ensures ExtractTrackInfo(s) ==
      if DigitsValue(num) <= I32Max then Parsed(TrackInfo(title, DigitsValue(num))) else NumberOverflow
  {
    var d, q, t := ArtistLayout(s, num, artist, title);
    ArtistStemAt(s, d, q, t);
  }

  /** Where the pieces of `<number> - <artist> - <title>` lie. */
  lemma {:induction false} ArtistLayout(s: string, num: string, artist: string, title: string) returns (d: nat, q: nat, t: nat)
    requires s == num + " - " + artist + " - " + title
    requires num != "" && artist != "" && !IsSpace(artist[0]) && !IsSpace(artist[|artist| - 1])
    requires NoNewline(artist) && '-' !in artist
    requires title != "" && !IsSpace(title[0]) && NoNewline(title)
    ensures 0 < d && q == d + 3 && q + 4 <= t < |s| && s[..d] == num && s[t..] == title
    ensures s[d] == ' ' && s[d + 1] == '-' && s[d + 2] == ' '
    ensures s[t - 3] == ' ' && s[t - 2] == '-' && s[t - 1] == ' '
    ensures !IsSpace(s[q]) && !IsSpace(s[t - 4]) && !IsSpace(s[t])
    ensures forall k :: q + 1 <= k < t - 3 ==> s[k] != '-'
    ensures NoNewline(s[q..])
  {
    d := |num|;
    q := d + 3;
    var b := |artist|;
    t := q + b + 3;
    assert s[..d] == num;
    assert s[t..] == title;
    assert s[q] == artist[0] && s[t] == title[0] && s[t - 4] == artist[b - 1];
    forall k | q + 1 <= k < t - 3 ensures s[k] != '-' {
      assert s[k] == artist[k - q];
      assert artist[k - q] in artist;
    }
    forall k | 0 <= k < |s| - q ensures s[q..][k] != '\n' {
      if k < b { assert s[q..][k] == artist[k]; }
      else if k >= b + 3 { assert s[q..][k] == title[k - b - 3]; }
    }
  }

  /** Without a leading digit there is no match. */
  lemma {:induction false} TrackStemNeedsNumber(s: string)
    requires s == "" || !IsDigit(s[0])
    ensures ExtractTrackInfo(s) == NoMatch
  {
    DigitRunEndIs(s, 0, 0);
  }

  /** Digits followed only by whitespace have no separator, so there is no match. */
  lemma {:induction false} TrackStemNeedsSeparator(s: string, num: string, sp: string)
    requires s == num + sp && AllDigits(num) && AllSpace(sp)
    ensures ExtractTrackInfo(s) == NoMatch
  {
    var d := DigitRunEnd(s, 0);
    if d > 0 {
      forall k | |num| <= k < |s| ensures IsSpace(s[k]) { assert s[k] == sp[k - |num|]; }
      assert s[d..|s|] == s[d..];
      SpaceRunCovers(s, d, |s|);
    }
  }

  /**
   * A directory name whose only '(' opens the "(yyyy)" at `k + 1`, after the
   * whitespace at `k`: the title is everything before `k`.
   */
  lemma {:induction false} AlbumDirAt(s: string, k: nat)
    requires k + 7 <= |s| && IsSpace(s[k]) && YearAt(s, k + 1) && NoNewline(s[..k])
    requires forall j :: 0 <= j < |s| && j != k + 1 ==> s[j] != '('
    ensures ParseAlbumDir(s) == Some(AlbumDir(s[..k], DigitsValue(s[k + 2..k + 6])))
  {
    FirstYearIs(s, 0, k + 1);
    LastTitleEndIs(s, |s|, k);
    assert ExtractReleaseYear(s) == Some(s[k + 2..k + 6]);
    assert ExtractAlbumName(s) == Some(s[..k]);
  }

  /**
   * The naming convention for album directories, `<title> (<yyyy>)` with an
   * optional tail: when neither the title nor the tail contains '(' the title and
   * the year are read back.
   */
  lemma {:induction false} AlbumDirConvention(s: string, title: string, year: string, tail: string)
    requires s == title + " (" + year + ")" + tail
    requires |year| == 4 && AllDigits(year) && NoNewline(title) && '(' !in title && '(' !in tail
    ensures ParseAlbumDir(s) == Some(AlbumDir(title, DigitsValue(year)))
  {
    AlbumLayout(s, title, year, tail);
    AlbumDirAt(s, |title|);
  }

  /** Where the pieces of `<title> (<yyyy>)<tail>` lie. */
  lemma {:induction false} AlbumLayout(s: string, title: string, year: string, tail: string)
    requires s == title + " (" + year + ")" + tail
    requires |year| == 4 && AllDigits(year) && '(' !in title && '(' !in tail
    ensures var k := |title|; k + 7 <= |s| && s[..k] == title && s[k + 2..k + 6] == year
    ensures var k := |title|; IsSpace(s[k]) && YearAt(s, k + 1)
    ensures var k := |title|; forall j :: 0 <= j < |s| && j != k + 1 ==> s[j] != '('
  {
    var k := |title|;
    assert s[..k] == title;
    assert s[k] == ' ' && s[k + 1] == '(' && s[k + 6] == ')';
    assert s[k + 2..k + 6] == year;
    forall j | k + 2 <= j < k + 6 ensures IsDigit(s[j]) {
      assert s[j] == year[j - k - 2];
    }
    forall j | 0 <= j < |s| && j != k + 1 ensures s[j] != '(' {
      if j < k {
        assert s[j] == title[j];
        assert title[j] in title;
      } else if k + 7 <= j {
        assert s[j] == tail[j - k - 7];
        assert tail[j - k - 7] in tail;
      } else if k + 2 <= j < k + 6 {
        assert s[j] == year[j - k - 2];
      }
    }
  }

  /** A directory name without '(' is skipped: neither pattern matches. */
  lemma {:induction false} AlbumDirWithoutParenthesis(s: string)
    requires '(' !in s
    ensures ExtractReleaseYear(s).None? && ParseAlbumDir(s).None?
  {
    forall j: nat ensures !YearAt(s, j) {
      if j < |s| { assert s[j] in s; }
    }
  }

  /** A directory name in which no whitespace precedes a '(' is skipped, even when it holds a "(yyyy)". */
  lemma {:induction false} AlbumDirWithoutSpaceBeforeYear(s: string)
    requires forall k :: 0 <= k < |s| - 1 && s[k + 1] == '(' ==> !IsSpace(s[k])
    ensures ParseAlbumDir(s).None?
  {
  }

  /**
   * An audio file name is its stem, a dot and a dot-free extension; it is
   * recognised exactly when the extension is on the list, compared case-sensitively.
   */
  lemma {:induction false} AudioNameConvention(name: string, stem: string, ext: string)
    requires name == stem + "." + ext && stem != "" && ext != "" && '.' !in ext
    ensures Extension(name) == Some(ext) && FileStem(name) == stem
    ensures IsAudioFile(name) <==> ext in AudioExtensions
  {
    assert name[|name| - |ext| - 1..] == "." + ext;
    DotFreeSuffixIsExtension(name, ext);
    assert name == FileStem(name) + "." + ext;
  }

  /** A name whose only dot, if any, is the leading one has no extension and is not audio. */
  lemma {:induction false} NoExtensionName(name: string)
    requires forall j :: 0 < j < |name| ==> name[j] != '.'
    ensures Extension(name).None? && FileStem(name) == name && !IsAudioFile(name)
  {
    assert name != ".." by {
      if |name| == 2 { assert name[1] != '.'; }
    }
    var ld := LastDot(name, |name|);
    assert ld.None? || ld.value == 0;
    assert "" !in AudioExtensions;
  }

  /** The track stem of the library layout without an artist. */
  lemma PlainTrackExample()
    ensures ExtractTrackInfo("01 - Come Together") == Parsed(TrackInfo("Come Together", 1))
  {
    assert DigitsValue("01") == 1;
    assert "01 - Come Together" == "01" + " " + ['-'] + " " + "Come Together";
    TrackStemPlain("01 - Come Together", "01", " ", '-', " ", "Come Together");
  }

  /** The track stem of the library layout with an artist. */
  lemma ArtistTrackExample()
    ensures ExtractTrackInfo("02 - The Beatles - Something") == Parsed(TrackInfo("Something", 2))
  {
    assert DigitsValue("02") == 2;
    assert "02 - The Beatles - Something" == "02" + " - " + "The Beatles" + " - " + "Something";
    TrackStemWithArtist("02 - The Beatles - Something", "02", "The Beatles", "Something");
  }

  /** The '.' separator needs no surrounding whitespace. */
  lemma DotTrackExample()
    ensures ExtractTrackInfo("7.Intro") == Parsed(TrackInfo("Intro", 7))
  {
    assert DigitsValue("7") == 7;
    assert "7.Intro" == "7" + "" + ['.'] + "" + "Intro";
    TrackStemPlain("7.Intro", "7", "", '.', "", "Intro");
  }

  /** The lazy artist group stops at the first " - ", the rest is the title. */
  lemma DashedTitleExample()
    ensures ExtractTrackInfo("4 - A - B - C") == Parsed(TrackInfo("B - C", 4))
  {
    assert DigitsValue("4") == 4;
    TrackStemWithArtist("4 - A - B - C", "4", "A", "B - C");
  }

  /** Stems that do not match: no leading number, or no separator after it. */
  lemma TrackNoMatchExamples()
    ensures ExtractTrackInfo("track_final") == NoMatch
    ensures ExtractTrackInfo("12") == NoMatch
    ensures ExtractTrackInfo("12  ") == NoMatch
  {
    TrackStemNeedsNumber("track_final");
    assert "12" == "12" + "";
    TrackStemNeedsSeparator("12", "12", "");
    assert "12  " == "12" + "  ";
    TrackStemNeedsSeparator("12  ", "12", "  ");
  }

  /** A track number above `i32::MAX` makes the parse fail. */
  lemma TrackOverflowExample()
    ensures ExtractTrackInfo("9999999999 - Long") == NumberOverflow
  {
    var n := "9999999999";
    assert DigitsValue(n[..1]) == 9;
    assert n[..2][..1] == n[..1];
    assert DigitsValue(n[..2]) == 99;
    assert n[..3][..2] == n[..2];
    assert DigitsValue(n[..3]) == 999;
    assert n[..4][..3] == n[..3];
    assert DigitsValue(n[..4]) == 9999;
    assert n[..5][..4] == n[..4];
    assert DigitsValue(n[..5]) == 99999;
    assert n[..6][..5] == n[..5];
    assert DigitsValue(n[..6]) == 999999;
    assert n[..7][..6] == n[..6];
    assert DigitsValue(n[..7]) == 9999999;
    assert n[..8][..7] == n[..7];
    assert DigitsValue(n[..8]) == 99999999;
    assert n[..9][..8] == n[..8];
    assert DigitsValue(n[..9]) == 999999999;
    assert n[..10][..9] == n[..9];
    assert n[..10] == n;
    assert DigitsValue(n) == 9999999999;
    assert "9999999999 - Long" == n + " " + ['-'] + " " + "Long";
    TrackStemPlain("9999999999 - Long", n, " ", '-', " ", "Long");
  }

  /** The album directory of the library layout. */
  lemma AlbumExample()
    ensures ParseAlbumDir("Abbey Road (1969)") == Some(AlbumDir("Abbey Road", 1969))
  {
    assert DigitsValue("1969") == 1969 by { FourDigitsValue("1969"); }
    assert '(' !in "Abbey Road" && '(' !in "" && NoNewline("Abbey Road") && AllDigits("1969");
    assert "Abbey Road (1969)" == "Abbey Road" + " (" + "1969" + ")" + "";
    AlbumDirConvention("Abbey Road (1969)", "Abbey Road", "1969", "");
  }

  /** Text after the "(yyyy)" is ignored. */
  lemma AlbumWithTailExample()
    ensures ParseAlbumDir("Help! (1965) [Deluxe]") == Some(AlbumDir("Help!", 1965))
  {
    assert DigitsValue("1965") == 1965 by { FourDigitsValue("1965"); }
    assert '(' !in "Help!" && '(' !in " [Deluxe]" && NoNewline("Help!") && AllDigits("1965");
    assert "Help! (1965) [Deluxe]" == "Help!" + " (" + "1965" + ")" + " [Deluxe]";
    AlbumDirConvention("Help! (1965) [Deluxe]", "Help!", "1965", " [Deluxe]");
  }

  /** Directory names that are skipped. */
  lemma SkippedAlbumExamples()
    ensures ParseAlbumDir("Untitled").None?
    ensures ParseAlbumDir("Abbey Road(1969)").None?
  {
    AlbumDirWithoutParenthesis("Untitled");
    AlbumDirWithoutSpaceBeforeYear("Abbey Road(1969)");
  }

  /** An audio file name of the library layout and its stem. */
  lemma AudioExamples()
    ensures IsAudioFile("01 - Song.flac") && FileStem("01 - Song.flac") == "01 - Song"
  {
    AudioNameConvention("01 - Song.flac", "01 - Song", "flac");
  }

  /** Only the last dot separates the extension. */
  lemma InnerDotAudioExample()
    ensures IsAudioFile("a.b.mp3") && FileStem("a.b.mp3") == "a.b"
  {
    AudioNameConvention("a.b.mp3", "a.b", "mp3");
  }

  /** The extension is compared case-sensitively against the list. */
  lemma NotAudioExamples()
    ensures !IsAudioFile("x.FLAC")
  {
    AudioNameConvention("x.FLAC", "x", "FLAC");
  }

  /** An image beside the tracks is not an audio file. */
  lemma CoverNotAudioExample()
    ensures !IsAudioFile("cover.jpg")
  {
    AudioNameConvention("cover.jpg", "cover", "jpg");
  }

  /** A name without a dot, or with only a leading one, has no extension. */
  lemma NoExtensionExamples()
    ensures !IsAudioFile("flac") && !IsAudioFile(".flac") && FileStem(".flac") == ".flac"
  {
    NoExtensionName("flac");
    NoExtensionName(".flac");
  }

  /** Hidden entries. */
  lemma HiddenExamples()
    ensures IsHidden(".DS_Store") && !IsHidden("Abbey Road (1969)")
  {
  }
}
