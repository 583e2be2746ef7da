/**
 * The array operations the list screens are built from: `Array.prototype.filter`,
 * `Array.prototype.slice`, and client-side paging (a page of `size` rows and
 * `Math.ceil(total / size)` pages).
 */
module Lists {

  // ---------------------------------------------------------------------------
  // filter
  // ---------------------------------------------------------------------------

  /** `s.filter(p)`: the elements of `s` that satisfy `p`, in their original order. */
  function Filter<T>(s: seq<T>, p: T -> bool): (r: seq<T>)
    ensures |r| <= |s|
    ensures forall i :: 0 <= i < |r| ==> r[i] in s && p(r[i])
    ensures forall i :: 0 <= i < |s| && p(s[i]) ==> s[i] in r
    decreases |s|
  {
    if s == [] then []
    else if p(s[0]) then [s[0]] + Filter(s[1..], p)
    else Filter(s[1..], p)
  }

  /** Filtering keeps every passing element as often as it occurs in `s`, and no other. */
  lemma {:induction false} FilterCounts<T>(s: seq<T>, p: T -> bool, x: T)
    ensures multiset(Filter(s, p))[x] == if p(x) then multiset(s)[x] else 0
    decreases |s|
  {
    if s != [] {
      FilterCounts(s[1..], p, x);
      assert s == [s[0]] + s[1..];
      assert multiset(s) == multiset([s[0]]) + multiset(s[1..]);
    }
  }

  /** `r` is `s` with some elements left out and the rest kept in order. */
  predicate IsSubsequence<T(==)>(r: seq<T>, s: seq<T>)
    decreases |s|
  {
    if r == [] then true
    else if s == [] then false
    else if r[0] == s[0] then IsSubsequence(r[1..], s[1..])
    else IsSubsequence(r, s[1..])
  }

  /** Filtering keeps the relative order of the rows it retains. */
  lemma {:induction false} FilterIsSubsequence<T>(s: seq<T>, p: T -> bool)
    ensures IsSubsequence(Filter(s, p), s)
    decreases |s|
  {
    if s != [] {
      FilterIsSubsequence(s[1..], p);
      if p(s[0]) {
        assert Filter(s, p)[1..] == Filter(s[1..], p);
      }
    }
  }

  /** Filtering twice is filtering once by both conditions. */
  lemma {:induction false} FilterTwice<T>(s: seq<T>, p: T -> bool, q: T -> bool)
    ensures Filter(Filter(s, p), q) == Filter(s, x => p(x) && q(x))
    decreases |s|
  {
    if s != [] {
      FilterTwice(s[1..], p, q);
      if p(s[0]) {
        assert Filter(s, p) == [s[0]] + Filter(s[1..], p);
        assert ([s[0]] + Filter(s[1..], p))[1..] == Filter(s[1..], p);
      }
    }
  }

  /** A condition every row meets keeps the whole list. */
  lemma {:induction false} FilterAll<T>(s: seq<T>, p: T -> bool)
    requires forall i :: 0 <= i < |s| ==> p(s[i])
    ensures Filter(s, p) == s
    decreases |s|
  {
    if s != [] {
      FilterAll(s[1..], p);
    }
  }

  /** Filtering distributes over concatenation. */
  lemma {:induction false} FilterAppend<T>(a: seq<T>, b: seq<T>, p: T -> bool)
    ensures Filter(a + b, p) == Filter(a, p) + Filter(b, p)
    decreases |a|
  {
    if a != [] {
      assert (a + b)[0] == a[0];
      assert (a + b)[1..] == a[1..] + b;
      FilterAppend(a[1..], b, p);
    } else {
      assert a + b == b;
    }
  }

  /** A subsequence of `t` is also one of `t` with an element put in front. */
  lemma {:induction false} SubsequenceCons<T>(r: seq<T>, t: seq<T>, x: T)
    requires IsSubsequence(r, t)
    ensures IsSubsequence(r, [x] + t)
    decreases |t|, 1
  {
    if r != [] && r[0] == x {
      SubsequenceTail(r, t);
      assert ([x] + t)[1..] == t;
    } else if r != [] {
      assert ([x] + t)[1..] == t;
    }
  }

  /** Dropping the first element of a subsequence leaves a subsequence. */
  lemma {:induction false} SubsequenceTail<T>(r: seq<T>, t: seq<T>)
    requires r != [] && IsSubsequence(r, t)
    ensures IsSubsequence(r[1..], t)
    decreases |t|, 0
  {
    if r[0] == t[0] {
      SubsequenceCons(r[1..], t[1..], t[0]);
      assert [t[0]] + t[1..] == t;
    } else {
      SubsequenceTail(r, t[1..]);
      SubsequenceCons(r[1..], t[1..], t[0]);
      assert [t[0]] + t[1..] == t;
    }
  }

  /** Filtering by a stronger condition keeps a subsequence of what the weaker one
      keeps: adding a filter only ever hides rows. */
  lemma {:induction false} FilterStronger<T>(s: seq<T>, p: T -> bool, q: T -> bool)
    requires forall i :: 0 <= i < |s| && p(s[i]) ==> q(s[i])
    ensures IsSubsequence(Filter(s, p), Filter(s, q))
    decreases |s|
  {
    if s != [] {
      FilterStronger(s[1..], p, q);
      if p(s[0]) {
        assert Filter(s, p) == [s[0]] + Filter(s[1..], p);
        assert Filter(s, q) == [s[0]] + Filter(s[1..], q);
        assert ([s[0]] + Filter(s[1..], p))[1..] == Filter(s[1..], p);
        assert ([s[0]] + Filter(s[1..], q))[1..] == Filter(s[1..], q);
      } else if q(s[0]) {
        SubsequenceCons(Filter(s[1..], p), Filter(s[1..], q), s[0]);
      }
    }
  }

  /** No element occurs twice. */
  predicate NoDuplicates<T(==)>(s: seq<T>) {
    forall i, j :: 0 <= i < j < |s| ==> s[i] != s[j]
  }

  // ---------------------------------------------------------------------------
  // slice and paging
  // ---------------------------------------------------------------------------

  /** The index a `slice` bound stands for: a negative bound counts from the end,
      and the result is clipped to `0..len`. */
  function ClipIndex(k: int, len: nat): (r: nat)
    ensures r <= len
    ensures 0 <= k <= len ==> r == k
    ensures k > len ==> r == len
    ensures k < 0 ==> r == if len + k < 0 then 0 else len + k
  {
    if k < 0 then (if len + k < 0 then 0 else len + k)
    else if k > len then len
    else k
  }

  /** `s.slice(begin, end)`: the run of `s` from the clipped begin up to the clipped
      end, empty when the end does not lie past the begin. */
  function Slice<T>(s: seq<T>, begin: int, end: int): (r: seq<T>)
    ensures var b, e := ClipIndex(begin, |s|), ClipIndex(end, |s|);
      |r| == (if b < e then e - b else 0) && forall i :: 0 <= i < |r| ==> r[i] == s[b + i]
  {
    var b, e := ClipIndex(begin, |s|), ClipIndex(end, |s|);
    if b < e then s[b..e] else []
  }

  /** Bounds already inside the list are taken as they are. */
  lemma SliceWithin<T>(s: seq<T>, b: int, e: int)
    requires 0 <= b <= e <= |s|
    ensures Slice(s, b, e) == s[b..e]
  {
    var r := Slice(s, b, e);
    assert |r| == e - b;
    assert forall i :: 0 <= i < |r| ==> r[i] == s[b..e][i];
  }

  /** `s.slice(0, s.length)` copies the whole list. */
  lemma SliceWhole<T>(s: seq<T>)
    ensures Slice(s, 0, |s|) == s
  {
    var r := Slice(s, 0, |s|);
    assert |r| == |s|;
    assert forall i :: 0 <= i < |r| ==> r[i] == s[i];
  }

  /** Two adjacent slices joined are the slice over both ranges. */
  lemma SliceAdjacent<T>(s: seq<T>, a: int, b: int, c: int)
    requires 0 <= a <= b <= c <= |s|
    ensures Slice(s, a, b) + Slice(s, b, c) == Slice(s, a, c)
  {
    var x, y, z := Slice(s, a, b), Slice(s, b, c), Slice(s, a, c);
    assert |x + y| == |z|;
    forall i | 0 <= i < |z|
      ensures (x + y)[i] == z[i]
    {
      if i < |x| {
        assert (x + y)[i] == x[i];
      } else {
        assert (x + y)[i] == y[i - |x|];
      }
    }
  }

  /** A begin at or past the end, or an end at or before the begin, gives nothing. */
  lemma SliceEmpty<T>(s: seq<T>, begin: int, end: int)
    ensures begin >= |s| ==> Slice(s, begin, end) == []
    ensures 0 <= end <= begin ==> Slice(s, begin, end) == []
  {
    if begin >= |s| || 0 <= end <= begin {
      assert |Slice(s, begin, end)| == 0;
    }
  }

  /** A negative begin counts from the end: `[1, 2, 3].slice(-1, 3)` is `[3]`, and
      `[1, 2, 3].slice(-5, 2)` starts from the front and is `[1, 2]`. */
  lemma SliceNegativeBegin()
    ensures Slice([1, 2, 3], -1, 3) == [3]
    ensures Slice([1, 2, 3], -5, 2) == [1, 2]
  {
    var s := [1, 2, 3];
    var r := Slice(s, -1, 3);
    assert |r| == 1 && r[0] == s[2];
    var t := Slice(s, -5, 2);
    assert |t| == 2 && t[0] == s[0] && t[1] == s[1];
  }

  /** The rows shown on page `page` (counted from 1) when a page holds `size` rows:
      `s.slice((page - 1) * size, page * size)`. */
  function PageOf<T>(s: seq<T>, page: int, size: nat): seq<T> {
    Slice(s, (page - 1) * size, page * size)
  }

  /** `Math.ceil(total / size)`. */
  function TotalPages(total: nat, size: nat): (r: nat)
    requires size > 0
    ensures r * size >= total
    ensures r == 0 || (r - 1) * size < total
  {
    (total + size - 1) / size
  }

  /** No page holds more than `size` rows, and each page from 1 holds exactly the
      rows that fall in its index range. */
  lemma PageContents<T>(s: seq<T>, page: int, size: nat)
    requires page >= 1
    ensures |PageOf(s, page, size)| <= size
    ensures (page - 1) * size < |s| ==>
      PageOf(s, page, size) == s[(page - 1) * size..if page * size <= |s| then page * size else |s|]
  {
    var lo := (page - 1) * size;
    MulNonNegative(page - 1, size);
    assert page * size == lo + size;
    assert PageOf(s, page, size) == Slice(s, lo, lo + size);
    Window(s, lo, size);
  }

  /** The slice of at most `size` rows from a non-negative `lo`. */
  lemma Window<T>(s: seq<T>, lo: int, size: nat)
    requires lo >= 0
    ensures |Slice(s, lo, lo + size)| <= size
    ensures lo < |s| ==> Slice(s, lo, lo + size) == s[lo..if lo + size <= |s| then lo + size else |s|]
  {
    if lo < |s| {
      SliceWithin(s, lo, if lo + size <= |s| then lo + size else |s|);
    }
  }

  /** Pages past the last one are empty, and every page from 1 to the last holds at least
      one row. */
  lemma NonEmptyPagesExactly<T>(s: seq<T>, page: int, size: nat)
    requires size > 0 && page >= 1
    ensures PageOf(s, page, size) != [] <==> page <= TotalPages(|s|, size)
  {
    var n := TotalPages(|s|, size);
    var lo := (page - 1) * size;
    assert page * size == lo + size;
    assert PageOf(s, page, size) != [] <==> lo < |s| by {
      MulNonNegative(page - 1, size);
    }
    if page <= n {
      MulMonotone(page - 1, n - 1, size);
    } else {
      MulMonotone(n, page - 1, size);
    }
  }

  lemma MulNonNegative(a: int, b: int)
    requires a >= 0 && b >= 0
    ensures a * b >= 0
  {
  }

  lemma MulMonotone(a: int, b: int, c: int)
    requires a <= b && c >= 0
    ensures a * c <= b * c
  {
    MulNonNegative(b - a, c);
    assert b * c - a * c == (b - a) * c;
  }

  /** The first `k` pages, one after the other. */
  function FirstPages<T>(s: seq<T>, size: nat, k: nat): seq<T>
    decreases k
  {
    if k == 0 then [] else FirstPages(s, size, k - 1) + PageOf(s, k, size)
  }

  lemma {:induction false} FirstPagesPrefix<T>(s: seq<T>, size: nat, k: nat)
    ensures FirstPages(s, size, k) == s[..if k * size <= |s| then k * size else |s|]
    decreases k
  {
    if k > 0 {
      FirstPagesPrefix(s, size, k - 1);
      var lo := (k - 1) * size;
      MulNonNegative(k - 1, size);
      assert k * size == lo + size;
      var hi := if k * size <= |s| then k * size else |s|;
      assert FirstPages(s, size, k) == FirstPages(s, size, k - 1) + PageOf(s, k, size);
      if lo < |s| {
        PageContents(s, k, size);
        assert FirstPages(s, size, k - 1) == s[..lo];
        assert s[..lo] + s[lo..hi] == s[..hi];
      } else {
        assert PageOf(s, k, size) == [];
        assert FirstPages(s, size, k - 1) == s[..hi];
      }
    }
  }

  /** Reading every page from 1 to `TotalPages` gives the whole list exactly once. */
  lemma PagesCoverList<T>(s: seq<T>, size: nat)
    requires size > 0
    ensures FirstPages(s, size, TotalPages(|s|, size)) == s
  {
    FirstPagesPrefix(s, size, TotalPages(|s|, size));
  }
}
