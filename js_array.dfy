/**
 * The few JavaScript array and string operations the geofence page relies on,
 * with their exact ECMAScript semantics on integer arguments:
 * `indexOf` (strict equality, first occurrence, -1 when absent) and
 * `slice` (negative positions count from the end, positions are clamped).
 */
module JsArray {

  /** `s.indexOf(x)`: the first position holding `x`, or -1. */
  function IndexOf<T(==)>(s: seq<T>, x: T): (k: int)
    ensures -1 <= k < |s|
    ensures k == -1 <==> x !in s
    ensures 0 <= k ==> s[k] == x && x !in s[..k]
  {
    if s == [] then -1
    else if s[0] == x then 0
    else
      var k' := IndexOf(s[1..], x);
      assert s[1..][..if k' < 0 then 0 else k'] == s[1..if k' < 0 then 1 else k' + 1];
      if k' == -1 then -1 else k' + 1
  }

  /** A relative position of `slice`, resolved against length `n`. */
  function Clamp(pos: int, n: nat): (p: nat)
    ensures p <= n
    ensures 0 <= pos <= n ==> p == pos
    ensures pos < 0 && -pos <= n ==> p == n + pos
  {
    if pos < 0 then (if n + pos < 0 then 0 else n + pos)
    else if pos > n then n
    else pos
  }

  /** `s.slice(start, end)`. */
  function Slice<T>(s: seq<T>, start: int, end: int): (r: seq<T>)
    ensures |r| <= |s|
    ensures forall x :: x in r ==> x in s
  {
    var from, to := Clamp(start, |s|), Clamp(end, |s|);
    if to <= from then [] else s[from..to]
  }

  /**
   * The cases of `slice` the page meets: in-range positions give the plain sub-sequence,
   * an empty or inverted range gives nothing, and a negative end counts from the end.
   */
  lemma SliceCases<T>(s: seq<T>, start: int, end: int)
    ensures 0 <= start <= end <= |s| ==> Slice(s, start, end) == s[start..end]
    ensures 0 <= end <= start ==> Slice(s, start, end) == []
    ensures start == 0 && end < 0 && -end <= |s| ==> Slice(s, start, end) == s[..|s| + end]
  {
  }

  /** `[...s.slice(0, index), ...s.slice(index + 1)]`, the splice the page uses to drop one entry. */
  function SpliceOut<T>(s: seq<T>, index: int): (r: seq<T>)
    ensures forall x :: x in r ==> x in s
  {
    Slice(s, 0, index) + Slice(s, index + 1, |s|)
  }

  /** At a valid position the splice removes exactly that entry and keeps the order of the rest. */
  lemma SpliceOutAt<T>(s: seq<T>, i: int)
    requires 0 <= i < |s|
    ensures SpliceOut(s, i) == s[..i] + s[i + 1..]
    ensures |SpliceOut(s, i)| == |s| - 1
  {
  }

  /**
   * At -1, the result `indexOf` gives for a missing entry, the splice does not shrink the
   * array: `slice(0, -1)` is all but the last entry and `slice(0)` is all of it.
   */
  lemma SpliceOutMissing<T>(s: seq<T>)
    requires s != []
    ensures SpliceOut(s, -1) == s[..|s| - 1] + s
    ensures |SpliceOut(s, -1)| == 2 * |s| - 1
  {
  }

  /**
   * Splicing out `indexOf(x)`: when `x` is present its first occurrence is removed and the
   * rest keeps its order; when it is missing, a non-empty array grows to 2n - 1 entries.
   */
  lemma SpliceOutIndexOf<T>(s: seq<T>, x: T)
    ensures var r := SpliceOut(s, IndexOf(s, x));
      && (x in s ==> r == s[..IndexOf(s, x)] + s[IndexOf(s, x) + 1..] && |r| == |s| - 1)
      && (x !in s && s != [] ==> r == s[..|s| - 1] + s && |r| == 2 * |s| - 1)
      && (s == [] ==> r == [])
  {
    if x in s {
      SpliceOutAt(s, IndexOf(s, x));
    } else if s != [] {
      SpliceOutMissing(s);
    }
  }

  /** Removing the only occurrence of `x` leaves an array without `x`. */
  lemma SpliceOutOnlyOccurrence<T>(s: seq<T>, x: T)
    requires x in s
    requires forall i, j :: 0 <= i < j < |s| && s[i] == x ==> s[j] != x
    ensures x !in SpliceOut(s, IndexOf(s, x))
  {
    SpliceOutAt(s, IndexOf(s, x));
  }

  /**
   * Removing the same entry twice with `indexOf` + splice: the first removal takes it out,
   * the second gets -1 and grows the remaining n - 1 entries to 2(n - 1) - 1.
   */
  lemma SpliceOutTwice<T>(s: seq<T>, x: T)
    requires x in s && |s| >= 2
    requires forall i, j :: 0 <= i < j < |s| && s[i] == x ==> s[j] != x
    ensures var once := SpliceOut(s, IndexOf(s, x));
            var twice := SpliceOut(once, IndexOf(once, x));
            |once| == |s| - 1 && IndexOf(once, x) == -1 &&
            twice == once[..|once| - 1] + once && |twice| == 2 * |s| - 3
  {
    var once := SpliceOut(s, IndexOf(s, x));
    SpliceOutAt(s, IndexOf(s, x));
    SpliceOutOnlyOccurrence(s, x);
    SpliceOutMissing(once);
  }
}
