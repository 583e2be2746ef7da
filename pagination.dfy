/**
 * The shared pagination bar (src/components/Pagination.tsx): the number of pages,
 * the "showing a - b" range, the row of page buttons with `...` gaps, and when the
 * previous and next buttons are disabled.
 */
module Pagination {
  import opened Lists

  /** One entry of the button row: a page number or a `...` gap. */
  datatype PageItem = Page(n: int) | Ellipsis

  /** The pages that get their own button: the first, the last, and every page within
      two of the current one. */
  predicate Shown(i: int, current: int, total: int) {
    i == 1 || i == total || (current - 2 <= i && i <= current + 2)
  }

  /** The row as it stands after the loop has looked at pages `1..k`. */
  function ItemsUpTo(current: int, total: int, k: nat): seq<PageItem>
    decreases k
  {
    if k == 0 then []
    else
      var r := ItemsUpTo(current, total, k - 1);
      if Shown(k, current, total) then r + [Page(k)]
      else if |r| > 0 && r[|r| - 1] == Ellipsis then r
      else r + [Ellipsis]
  }

  /** `getPageNumbers()` for a bar with `total` pages. */
  function PageNumbers(current: int, total: nat): seq<PageItem> {
    ItemsUpTo(current, total, total)
  }

  /** `getPageNumbers()`: the loop over `1..totalPages` that pushes a page number or,
      once per run of skipped pages, a `...`. */
  method GetPageNumbers(current: int, total: nat) returns (range: seq<PageItem>)
    ensures range == PageNumbers(current, total)
    ensures total == 0 ==> range == []
    ensures total >= 1 ==> RowShape(range, current, total)
  {
    range := [];
    for i := 1 to total + 1
      invariant range == ItemsUpTo(current, total, i - 1)
    {
      if i == 1 || i == total || (i >= current - 2 && i <= current + 2) {
        range := range + [Page(i)];
      } else if |range| == 0 || range[|range| - 1] != Ellipsis {
        range := range + [Ellipsis];
      }
    }
    if total >= 1 {
      PageNumbersShape(current, total);
    }
  }

  /** Neighbouring buttons at `j` and `j + 1` are consecutive pages. */
  predicate ConsecutiveAt(r: seq<PageItem>, j: int)
    requires 0 <= j < |r| - 1
  {
    r[j].Page? && r[j + 1].Page? ==> r[j + 1].n == r[j].n + 1
  }

  /** A `...` at `j` follows a button. */
  predicate AfterButtonAt(r: seq<PageItem>, j: int)
    requires 0 <= j < |r|
  {
    r[j].Ellipsis? ==> 0 < j && r[j - 1].Page?
  }

  /** A `...` at `j` with something after it is followed by a button more than one page
      beyond the button before it. */
  predicate GapAt(r: seq<PageItem>, j: int)
    requires 0 < j < |r| - 1
  {
    r[j].Ellipsis? ==> r[j + 1].Page? && r[j - 1].Page? && r[j + 1].n > r[j - 1].n + 1
  }

  /** What the row looks like: it starts at page 1 and ends at the last page, it holds a
      button for exactly the shown pages, neighbouring buttons are consecutive pages, and
      a `...` stands between two buttons whose pages are not consecutive. */
  ghost predicate RowShape(r: seq<PageItem>, current: int, total: int) {
    && |r| >= 1 && r[0] == Page(1) && r[|r| - 1] == Page(total)
    && (forall i :: Page(i) in r <==> 1 <= i <= total && Shown(i, current, total))
    && (forall j :: 0 <= j < |r| - 1 ==> ConsecutiveAt(r, j))
    && (forall j :: 0 <= j < |r| ==> AfterButtonAt(r, j))
    && (forall j :: 0 < j < |r| - 1 ==> GapAt(r, j))
  }

  /** The loop invariant behind `RowShape`, for the row after pages `1..k`. */
  ghost predicate PartialShape(r: seq<PageItem>, current: int, total: int, k: int) {
    && |r| >= 1 && r[0] == Page(1)
    && (forall i :: Page(i) in r <==> 1 <= i <= k && Shown(i, current, total))
    && (forall j :: 0 <= j < |r| - 1 ==> ConsecutiveAt(r, j))
    && (forall j :: 0 <= j < |r| ==> AfterButtonAt(r, j))
    && (forall j :: 0 < j < |r| - 1 ==> GapAt(r, j))
    && (Shown(k, current, total) ==> r[|r| - 1] == Page(k))
    && (!Shown(k, current, total) ==>
          |r| >= 2 && r[|r| - 1] == Ellipsis && r[|r| - 2].Page? && r[|r| - 2].n < k)
  }

  /** Page `k + 1` is shown: its button goes at the end. */
  lemma AppendPageStep(r: seq<PageItem>, current: int, total: int, k: int)
    requires k >= 1 && PartialShape(r, current, total, k) && Shown(k + 1, current, total)
    ensures PartialShape(r + [Page(k + 1)], current, total, k + 1)
  {
    var r' := r + [Page(k + 1)];
    forall i ensures Page(i) in r' <==> 1 <= i <= k + 1 && Shown(i, current, total) {
      assert Page(i) in r' <==> Page(i) in r || i == k + 1;
    }
    forall j | 0 <= j < |r'| - 1 ensures ConsecutiveAt(r', j) {
      if j < |r| - 1 {
        assert ConsecutiveAt(r, j);
      }
    }
    forall j | 0 <= j < |r'| ensures AfterButtonAt(r', j) {
      if j < |r| {
        assert AfterButtonAt(r, j);
      }
    }
    forall j | 0 < j < |r'| - 1 ensures GapAt(r', j) {
      if j < |r| - 1 {
        assert GapAt(r, j);
      }
    }
  }

  /** Page `k + 1` is skipped and a `...` already ends the row: nothing changes. */
  lemma SkipStep(r: seq<PageItem>, current: int, total: int, k: int)
    requires k >= 1 && PartialShape(r, current, total, k) && !Shown(k + 1, current, total)
    requires r[|r| - 1] == Ellipsis
    ensures PartialShape(r, current, total, k + 1)
  {
    forall i ensures Page(i) in r <==> 1 <= i <= k + 1 && Shown(i, current, total) {
    }
    assert !Shown(k, current, total);
  }

  /** Page `k + 1` is the first of a run of skipped pages: a `...` goes at the end. */
  lemma AppendEllipsisStep(r: seq<PageItem>, current: int, total: int, k: int)
    requires k >= 1 && PartialShape(r, current, total, k) && !Shown(k + 1, current, total)
    requires r[|r| - 1] != Ellipsis
    ensures PartialShape(r + [Ellipsis], current, total, k + 1)
  {
    var r' := r + [Ellipsis];
    assert Shown(k, current, total);
    forall i ensures Page(i) in r' <==> 1 <= i <= k + 1 && Shown(i, current, total) {
      assert Page(i) in r' <==> Page(i) in r;
    }
    forall j | 0 <= j < |r'| - 1 ensures ConsecutiveAt(r', j) {
      if j < |r| - 1 {
        assert ConsecutiveAt(r, j);
      }
    }
    forall j | 0 <= j < |r'| ensures AfterButtonAt(r', j) {
      if j < |r| {
        assert AfterButtonAt(r, j);
      }
    }
    forall j | 0 < j < |r'| - 1 ensures GapAt(r', j) {
      if j < |r| - 1 {
        assert GapAt(r, j);
      }
    }
  }

  lemma {:induction false} ItemsUpToShape(current: int, total: int, k: nat)
    requires k >= 1
    ensures PartialShape(ItemsUpTo(current, total, k), current, total, k)
    decreases k
  {
    if k == 1 {
      assert ItemsUpTo(current, total, 0) == [];
    } else {
      ItemsUpToShape(current, total, k - 1);
      var r := ItemsUpTo(current, total, k - 1);
      if Shown(k, current, total) {
        AppendPageStep(r, current, total, k - 1);
      } else if r[|r| - 1] == Ellipsis {
        SkipStep(r, current, total, k - 1);
      } else {
        AppendEllipsisStep(r, current, total, k - 1);
      }
    }
  }

  /** The whole row has `RowShape`: the last page is always shown, so no `...` ends it. */
  lemma PageNumbersShape(current: int, total: nat)
    requires total >= 1
    ensures RowShape(PageNumbers(current, total), current, total)
  {
    ItemsUpToShape(current, total, total);
  }

  /** With at least one page, the current page, when it exists, has a button. */
  lemma CurrentPageHasButton(current: int, total: nat)
    requires 1 <= current <= total
    ensures Page(current) in PageNumbers(current, total)
  {
    PageNumbersShape(current, total);
  }

  /** Rows for a few bars: five pages seen from page 1 skip page 4, ten pages seen from
      page 5 have a gap on both sides, and three pages seen from page 2 show every
      page. */
  lemma ExampleRows()
    ensures PageNumbers(1, 5) == [Page(1), Page(2), Page(3), Ellipsis, Page(5)]
    ensures PageNumbers(5, 10) ==
      [Page(1), Ellipsis, Page(3), Page(4), Page(5), Page(6), Page(7), Ellipsis, Page(10)]
    ensures PageNumbers(2, 3) == [Page(1), Page(2), Page(3)]
    ensures PageNumbers(1, 0) == []
  {
  }

  // ---------------------------------------------------------------------------
  // The "showing a - b of n" caption and the arrow buttons
  // ---------------------------------------------------------------------------

  /** `startItem`: the 1-based number of the first row on the current page. */
  function StartItem(current: int, size: nat): int {
    (current - 1) * size + 1
  }

  /** `endItem`: the number of the last row on the current page. */
  function EndItem(current: int, size: nat, totalItems: nat): int {
    if current * size < totalItems then current * size else totalItems
  }

  /** On any page that has rows, the caption names exactly the rows the list screens
      slice out for that page: rows `startItem` to `endItem`, counted from 1. */
  lemma CaptionMatchesPage<T>(s: seq<T>, current: int, size: nat)
    requires size > 0 && 1 <= current <= TotalPages(|s|, size)
    ensures 1 <= StartItem(current, size) <= EndItem(current, size, |s|) <= |s|
    ensures PageOf(s, current, size) == s[StartItem(current, size) - 1..EndItem(current, size, |s|)]
  {
    PageStartsInList(s, current, size);
    PageContents(s, current, size);
    var lo := (current - 1) * size;
    MulNonNegative(current - 1, size);
    assert current * size == lo + size;
    assert StartItem(current, size) == lo + 1;
    assert EndItem(current, size, |s|) == if lo + size <= |s| then lo + size else |s|;
  }

  lemma PageStartsInList<T>(s: seq<T>, current: int, size: nat)
    requires size > 0 && 1 <= current <= TotalPages(|s|, size)
    ensures (current - 1) * size < |s|
  {
    NonEmptyPagesExactly(s, current, size);
  }

  /** The previous button is disabled on page 1. */
  predicate PreviousDisabled(current: int) {
    current == 1
  }

  /** The next button as written: disabled only when the current page is the last. */
  predicate NextDisabled(current: int, total: int) {
    current == total
  }

  /** Pressing an enabled previous or next button on a page of a non-empty list moves to
      a page that exists. */
  lemma ArrowsStayInRange(current: int, total: int)
    requires 1 <= current <= total
    ensures !PreviousDisabled(current) ==> 1 <= current - 1 <= total
    ensures !NextDisabled(current, total) ==> 1 <= current + 1 <= total
  {
  }

  /** On an empty list there are no pages, yet page 1 reads "1 - 0" and leaves the next
      button enabled, and pressing it moves to page 2, whose caption reads "11 - 0" for ten
      rows a page. */
  lemma NextEnabledOnEmptyList()
    ensures TotalPages(0, 10) == 0
    ensures StartItem(1, 10) == 1 && EndItem(1, 10, 0) == 0
    ensures !NextDisabled(1, TotalPages(0, 10))
    ensures StartItem(2, 10) == 11 && EndItem(2, 10, 0) == 0
  {
  }

  /** The next button disabled on the last page and whenever there is no later page. */
  predicate NextDisabledCorrected(current: int, total: int) {
    current >= total
  }

  /** With the corrected guard, an enabled next button always leads to an existing page,
      on an empty list as well, and the guard agrees with the written one on every page
      of a non-empty list. */
  lemma NextCorrectedStaysInRange(current: int, total: int)
    requires current >= 1
    ensures !NextDisabledCorrected(current, total) ==> 1 <= current + 1 <= total
    ensures current <= total ==> (NextDisabledCorrected(current, total) <==> NextDisabled(current, total))
  {
  }
}
