/**
 * Small shared vocabulary: Rust's Option, substring search, sequence filtering
 * and the discipline of auto-incremented primary keys shared by the three tables.
 */
module Common {

  /** Rust's `Option<T>`. */
  datatype Option<+T> = None | Some(value: T)

  /**
   * `needle` occurs in `hay` as a contiguous substring. This is what a SeaORM
   * `Column::contains(needle)` filter selects (SQL `LIKE '%needle%'`), read
   * without wildcard characters inside `needle`.
   */
  predicate Contains(hay: string, needle: string) {
    exists i | 0 <= i <= |hay| - |needle| :: OccursAt(hay, needle, i)
  }

  /** `needle` starts at position `i` of `hay`. */
  predicate OccursAt(hay: string, needle: string, i: int) {
    0 <= i <= |hay| - |needle| && hay[i..i + |needle|] == needle
  }

  /** The elements of `s` that satisfy `p`, in their original order. */
  function Filter<T(!new)>(s: seq<T>, p: T -> bool): (r: seq<T>)
    ensures |r| <= |s|
    ensures forall x :: x in r <==> x in s && p(x)
    decreases |s|
  {
    if s == [] then []
    else (if p(s[0]) then [s[0]] else []) + Filter(s[1..], p)
  }

  /**
   * The ids of a table, in table order, as an auto-incrementing primary key
   * leaves them: positive, below the next value of the counter, and strictly
   * increasing, since each insert takes the counter's value and advances it.
   */
  predicate IdsOk(ids: seq<int>, nextId: int) {
    1 <= nextId
    && (forall i :: 0 <= i < |ids| ==> 1 <= ids[i] < nextId)
    && (forall i, j :: 0 <= i < j < |ids| ==> ids[i] < ids[j])
  }

  /** The position of `id` among `ids`: the first, should there be several. */
  function IndexOf(ids: seq<int>, id: int): (r: Option<nat>)
    ensures r.Some? ==> r.value < |ids| && ids[r.value] == id
    ensures r.Some? ==> forall i :: 0 <= i < r.value ==> ids[i] != id
    ensures r.None? <==> forall i :: 0 <= i < |ids| ==> ids[i] != id
    decreases |ids|
  {
    if ids == [] then None
    else if ids[0] == id then Some(0)
    else match IndexOf(ids[1..], id)
      case None => None
      case Some(k) => Some(k + 1)
  }

  /** Keys are unique: in well-formed ids, the lookup of the id at `k` finds `k`. */
  lemma {:induction false} IndexOfAt(ids: seq<int>, nextId: int, k: int)
    requires IdsOk(ids, nextId) && 0 <= k < |ids|
    ensures IndexOf(ids, ids[k]) == Some(k)
  {
  }

  /** An insert takes the counter's value, which no row has yet, and keeps the ids well formed. */
  lemma {:induction false} IdsOkInsert(ids: seq<int>, nextId: int)
    requires IdsOk(ids, nextId)
    ensures IdsOk(ids + [nextId], nextId + 1)
    ensures IndexOf(ids, nextId) == None
  {
  }
}
