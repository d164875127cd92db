/**
 * The artist-folder fingerprint `hash_artist_folder` (scanner/src/lib.rs:217-231):
 * every entry strictly below the folder is visited in walk order, and the base
 * name of each regular file whose own name is not hidden is fed to the hasher.
 *
 * BLAKE3 and its hex encoding are not modelled: the method takes the digest as a
 * function parameter, applied to the concatenation of everything fed to it
 * (feeding a BLAKE3 hasher piece by piece gives the digest of the concatenation).
 */
module Fingerprint {
  import opened Names
  import opened FileTree

  /**
   * The entries `WalkDir::new(dir).min_depth(1)` yields below a directory whose
   * children are `es`: pre-order, each directory before its contents. Symbolic
   * links are not followed.
   */
  function Walk(es: seq<Entry>): (r: seq<Entry>)
    ensures |r| >= |es| && (es == [] <==> r == [])
    ensures es != [] ==> r[0] == es[0]
    ensures forall e :: e in es ==> e in r
    ensures forall i, c :: 0 <= i < |es| && es[i].Dir? && c in Walk(es[i].children) ==> c in r
    decreases es
  {
    if es == [] then []
    else
      var below := if es[0].Dir? then Walk(es[0].children) else [];
      var rest := Walk(es[1..]);
      assert forall e :: e in es ==> e == es[0] || e in es[1..];
      assert forall i :: 1 <= i < |es| ==> es[i] == es[1..][i - 1];
      [es[0]] + below + rest
  }

  /** What one visited entry feeds to the hasher: the name of a non-hidden regular file. */
  function Fed(e: Entry): string {
    if !IsHidden(e.name) && e.File? then e.name else ""
  }

  /** Everything the loop feeds to the hasher over the visited entries `w`, in order. */
  function FeedAll(w: seq<Entry>): string
    decreases |w|
  {
    if w == [] then "" else FeedAll(w[..|w| - 1]) + Fed(w[|w| - 1])
  }

  /**
   * The hash input read off the tree: the names of the non-hidden regular files
   * in the tree's order, directories contributing their contents and nothing of
   * their own, whatever their name (a hidden directory is still descended into).
   */
  function HashInput(es: seq<Entry>): string
    decreases es
  {
    if es == [] then ""
    else
      var here := match es[0]
        case File(n) => if IsHidden(n) then "" else n
        case Dir(_, cs) => HashInput(cs)
        case Symlink(_) => "";
      here + HashInput(es[1..])
  }

  lemma {:induction false} FeedAllAppend(a: seq<Entry>, b: seq<Entry>)
    ensures FeedAll(a + b) == FeedAll(a) + FeedAll(b)
    decreases |b|
  {
    if b == [] {
      assert a + b == a;
    } else {
      var b', x := b[..|b| - 1], b[|b| - 1];
      assert (a + b)[..|a + b| - 1] == a + b' && (a + b)[|a + b| - 1] == x;
      assert FeedAll(a + b) == FeedAll(a + b') + Fed(x);
      assert FeedAll(b) == FeedAll(b') + Fed(x);
      FeedAllAppend(a, b');
    }
  }

  /** What the entry itself (not its contents) contributes to the hash input. */
  lemma {:induction false} FeedOne(e: Entry)
    ensures FeedAll([e]) == Fed(e)
  {
    assert [e][..0] == [];
  }

  /** The loop over the walk feeds exactly the hash input read off the tree. */
  lemma {:induction false} WalkFeedsHashInput(es: seq<Entry>)
    ensures FeedAll(Walk(es)) == HashInput(es)
    decreases es
  {
    if es != [] {
      var e := es[0];
      var below := if e.Dir? then Walk(e.children) else [];
      var rest := Walk(es[1..]);
      assert Walk(es) == [e] + below + rest;
      FeedAllAppend([e] + below, rest);
      FeedAllAppend([e], below);
      FeedOne(e);
      WalkFeedsHashInput(es[1..]);
      if e.Dir? {
        WalkFeedsHashInput(e.children);
        assert FeedAll([e] + below) == HashInput(e.children);
      } else {
        assert [e] + below == [e];
      }
    }
  }

  /**
   * `hash_artist_folder` over a folder whose children are `children`: the loop
   * visits the walk in order, skips hidden entries and feeds each regular file's
   * name; the result is the digest of everything fed.
   */
  method HashArtistFolder(digest: string -> string, children: seq<Entry>) returns (h: string)
    ensures h == digest(HashInput(children))
  {
    var walk := Walk(children);
    var fed := "";
    var i := 0;
    while i < |walk|
      invariant 0 <= i <= |walk|
      invariant fed == FeedAll(walk[..i])
    {
      var entry := walk[i];
      assert walk[..i + 1][..i] == walk[..i];
      if IsHidden(entry.name) {
        i := i + 1;
        continue;
      }
      if entry.File? {
        fed := fed + entry.name;
      }
      i := i + 1;
    }
    assert walk[..i] == walk;
    WalkFeedsHashInput(children);
    h := digest(fed);
  }

  lemma {:induction false} HashInputAppend(a: seq<Entry>, b: seq<Entry>)
    ensures HashInput(a + b) == HashInput(a) + HashInput(b)
    decreases |a|
  {
    if a == [] {
      assert a + b == b;
    } else {
      assert (a + b)[0] == a[0] && (a + b)[1..] == a[1..] + b;
      HashInputAppend(a[1..], b);
    }
  }

  /** A file with a hidden name never contributes, wherever it sits. */
  lemma {:induction false} HiddenFileIgnored(before: seq<Entry>, name: string, after: seq<Entry>)
    requires IsHidden(name)
    ensures HashInput(before + [File(name)] + after) == HashInput(before + after)
  {
    HashInputAppend(before + [File(name)], after);
    HashInputAppend(before, [File(name)]);
    HashInputAppend(before, after);
  }

  /** Symbolic links never contribute. */
  lemma {:induction false} SymlinkIgnored(before: seq<Entry>, name: string, after: seq<Entry>)
    ensures HashInput(before + [Symlink(name)] + after) == HashInput(before + after)
  {
    HashInputAppend(before + [Symlink(name)], after);
    HashInputAppend(before, [Symlink(name)]);
    HashInputAppend(before, after);
  }

  /**
   * A directory's own name never contributes: renaming it, even to or from a
   * hidden name, leaves the hash input unchanged.
   */
  lemma {:induction false} DirectoryNameIgnored(before: seq<Entry>, n1: string, n2: string, cs: seq<Entry>, after: seq<Entry>)
    ensures HashInput(before + [Dir(n1, cs)] + after) == HashInput(before + [Dir(n2, cs)] + after)
  {
    HashInputAppend(before + [Dir(n1, cs)], after);
    HashInputAppend(before, [Dir(n1, cs)]);
    HashInputAppend(before + [Dir(n2, cs)], after);
    HashInputAppend(before, [Dir(n2, cs)]);
  }

  /** Non-hidden files inside a hidden directory still contribute. */
  lemma HiddenDirectoryCounts()
    ensures HashInput([Dir(".cache", [File("a.mp3")])]) == "a.mp3"
  {
  }

  /**
   * Names are concatenated without a separator, so different file sets can give
   * the same hash input and therefore the same digest.
   */
  lemma {:induction false} NamesRunTogether(digest: string -> string)
    ensures HashInput([File("ab"), File("c")]) == HashInput([File("a"), File("bc")])
    ensures digest(HashInput([File("ab"), File("c")])) == digest(HashInput([File("a"), File("bc")]))
  {
    assert HashInput([File("ab"), File("c")]) == "abc";
    assert HashInput([File("a"), File("bc")]) == "abc";
  }

  /** The input follows the walk order, which is not sorted: reordering the same files changes it. */
  lemma OrderMatters()
    ensures HashInput([File("a"), File("b")]) != HashInput([File("b"), File("a")])
  {
    assert HashInput([File("a"), File("b")]) == "ab";
    assert HashInput([File("b"), File("a")]) == "ba";
    assert "ab"[0] != "ba"[0];
  }
}
