/**
 The `pagination_range` template filter
 (proma/common/templatetags/pagination_tags.py): the page links shown under
 a paginated list, a window of pages around the current one, with the first
 and last page and "..." gaps added when there are more pages than `length`.
 */
module Pagination {

  /** One entry of the output: a page number, or the string "...". */
  datatype PageItem = Page(number: int) | Ellipsis

  /** Python's `int(x / 2)`: halve, truncating toward zero. */
  function TruncHalf(x: int): (r: int)
    ensures x >= 0 ==> 2 * r <= x <= 2 * r + 1
    ensures x == -1 ==> r == 0
  {
    if x >= 0 then x / 2 else -((-x) / 2)
  }

  /** How far the window reaches on each side of the current page. */
  function Variation(numPages: int, length: int): int {
    if numPages > length then TruncHalf(length) else length
  }

  function WindowStart(numPages: int, current: int, length: int): int {
    var v := Variation(numPages, length);
    if current - v > 0 then current - v else 1
  }

  function WindowEnd(numPages: int, current: int, length: int): int {
    var v := Variation(numPages, length);
    if current + v < numPages then current + v else numPages
  }

  /** `list(range(lo, hi + 1))` as page entries. */
  function Pages(lo: int, hi: int): (r: seq<PageItem>)
    ensures |r| == if lo <= hi then hi - lo + 1 else 0
    ensures forall i :: 0 <= i < |r| ==> r[i] == Page(lo + i)
    decreases hi - lo
  {
    if lo > hi then [] else [Page(lo)] + Pages(lo + 1, hi)
  }

  /** `left_block`: page 1, then "..." unless the window starts at page 2. */
  function LeftBlock(numPages: int, length: int, lo: int): seq<PageItem> {
    if numPages > length && lo != 1 then [Page(1)] + (if lo != 2 then [Ellipsis] else []) else []
  }

  /** `right_block`: "..." unless the window ends at the next-to-last page, then the last page. */
  function RightBlock(numPages: int, length: int, hi: int): seq<PageItem> {
    if numPages > length && hi != numPages then (if hi != numPages - 1 then [Ellipsis] else []) + [Page(numPages)]
    else []
  }

  /** Page numbers strictly increase from left to right, gaps aside. */
  predicate Increasing(r: seq<PageItem>) {
    forall i, j :: 0 <= i < j < |r| && r[i].Page? && r[j].Page? ==> r[i].number < r[j].number
  }

  predicate PagesBelow(r: seq<PageItem>, x: int) {
    forall i :: 0 <= i < |r| && r[i].Page? ==> r[i].number < x
  }

  predicate PagesFrom(r: seq<PageItem>, x: int) {
    forall i :: 0 <= i < |r| && r[i].Page? ==> x <= r[i].number
  }

  lemma IncreasingConcat(a: seq<PageItem>, b: seq<PageItem>, m: int)
    requires Increasing(a) && Increasing(b) && PagesBelow(a, m) && PagesFrom(b, m)
    ensures Increasing(a + b)
  {
    var ab := a + b;
    forall i, j | 0 <= i < j < |ab| && ab[i].Page? && ab[j].Page?
      ensures ab[i].number < ab[j].number
    {
      if j < |a| {
        assert ab[i] == a[i] && ab[j] == a[j];
      } else if i >= |a| {
        assert ab[i] == b[i - |a|] && ab[j] == b[j - |a|];
      } else {
        assert ab[i] == a[i] && ab[j] == b[j - |a|];
      }
    }
  }

  /** The window always lies inside `[1, numPages]` and holds the current page;
      each end is the current page shifted by the variation unless clipped. */
  lemma WindowBounds(numPages: int, current: int, length: int)
    requires 1 <= current <= numPages
    requires length >= -1
    ensures var lo, hi, v := WindowStart(numPages, current, length), WindowEnd(numPages, current, length),
                            Variation(numPages, length);
      && 0 <= v
      && 1 <= lo <= current <= hi <= numPages
      && (lo == current - v || (lo == 1 && current - v <= 0))
      && (hi == current + v || (hi == numPages && current + v >= numPages))
      && (numPages <= length ==> lo == 1 && hi == numPages)
  {
  }

  /** `pagination_range(page_obj, length)` for a page object whose paginator
      has `numPages` pages and whose number is `current`. A length below -1
      empties the window and makes the source fail, so it is excluded. */
  function PaginationRange(numPages: int, current: int, length: int): (r: seq<PageItem>)
    requires 1 <= current <= numPages
    requires length >= -1
    ensures |r| > 0 && r[0] == Page(1) && r[|r| - 1] == Page(numPages)
    ensures Page(current) in r
    ensures forall i :: 0 <= i < |r| && r[i].Page? ==> 1 <= r[i].number <= numPages
    ensures Increasing(r)
  {
    WindowBounds(numPages, current, length);
    var lo := WindowStart(numPages, current, length);
    var hi := WindowEnd(numPages, current, length);
    AssembledRange(numPages, length, lo, current, hi);
    LeftBlock(numPages, length, lo) + Pages(lo, hi) + RightBlock(numPages, length, hi)
  }

  /** The blocks around any window inside `[1, numPages]` form a list that
      runs from page 1 to the last page, increasing, holding every page of the window. */
  lemma AssembledRange(numPages: int, length: int, lo: int, current: int, hi: int)
    requires 1 <= lo <= current <= hi <= numPages
    requires numPages <= length ==> lo == 1 && hi == numPages
    ensures var r := LeftBlock(numPages, length, lo) + Pages(lo, hi) + RightBlock(numPages, length, hi);
      && |r| > 0 && r[0] == Page(1) && r[|r| - 1] == Page(numPages)
      && Page(current) in r
      && PagesFrom(r, 1) && PagesBelow(r, numPages + 1)
      && Increasing(r)
  {
    var left := LeftBlock(numPages, length, lo);
    var window := Pages(lo, hi);
    var right := RightBlock(numPages, length, hi);
    var r := left + window + right;
    assert r[|left| + current - lo] == window[current - lo];
    LeftBlockOrdered(numPages, length, lo);
    RightBlockOrdered(numPages, length, hi);
    IncreasingConcat(left, window, lo);
    BoundsConcat(left, window, 1, hi + 1);
    IncreasingConcat(left + window, right, hi + 1);
    BoundsConcat(left + window, right, 1, numPages + 1);
  }

  lemma LeftBlockOrdered(numPages: int, length: int, lo: int)
    requires 1 <= lo
    ensures var left := LeftBlock(numPages, length, lo);
      Increasing(left) && PagesFrom(left, 1) && PagesBelow(left, lo)
  {
  }

  lemma RightBlockOrdered(numPages: int, length: int, hi: int)
    requires hi <= numPages
    ensures var right := RightBlock(numPages, length, hi);
      Increasing(right) && PagesFrom(right, hi + 1) && PagesBelow(right, numPages + 1)
  {
  }

  lemma BoundsConcat(a: seq<PageItem>, b: seq<PageItem>, x: int, y: int)
    requires PagesFrom(a, x) && PagesFrom(b, x) && PagesBelow(a, y) && PagesBelow(b, y)
    ensures PagesFrom(a + b, x) && PagesBelow(a + b, y)
  {
    var ab := a + b;
    forall i | 0 <= i < |ab| && ab[i].Page?
      ensures x <= ab[i].number < y
    {
      if i < |a| {
        assert ab[i] == a[i];
      } else {
        assert ab[i] == b[i - |a|];
      }
    }
  }

  /** With no more pages than `length`, every page is listed and nothing else. */
  lemma SmallPageCount(numPages: int, current: int, length: int)
    requires 1 <= current <= numPages <= length
    ensures var r := PaginationRange(numPages, current, length);
      |r| == numPages && forall i :: 0 <= i < |r| ==> r[i] == Page(i + 1)
  {
    assert LeftBlock(numPages, length, 1) == [];
    assert RightBlock(numPages, length, numPages) == [];
    assert PaginationRange(numPages, current, length) == [] + Pages(1, numPages) + [];
  }

  /** A "..." stands before the window exactly when the window starts above
      page 2, and after it exactly when it ends below the next-to-last page. */
  lemma GapPlacement(numPages: int, current: int, length: int)
    requires 1 <= current <= numPages
    requires length >= -1
    ensures var lo, hi := WindowStart(numPages, current, length), WindowEnd(numPages, current, length);
      && PaginationRange(numPages, current, length)
         == LeftBlock(numPages, length, lo) + Pages(lo, hi) + RightBlock(numPages, length, hi)
      && (Ellipsis in LeftBlock(numPages, length, lo) <==> lo > 2)
      && (Ellipsis in RightBlock(numPages, length, hi) <==> hi < numPages - 1)
      && Ellipsis !in Pages(lo, hi)
  {
    WindowBounds(numPages, current, length);
  }

  /** Exactly the first page, the last page and the pages of the window are shown. */
  lemma PagesShown(numPages: int, current: int, length: int, p: int)
    requires 1 <= current <= numPages
    requires length >= -1
    ensures var lo, hi := WindowStart(numPages, current, length), WindowEnd(numPages, current, length);
      Page(p) in PaginationRange(numPages, current, length) <==> p == 1 || p == numPages || lo <= p <= hi
  {
    WindowBounds(numPages, current, length);
    AssembledPages(numPages, length, WindowStart(numPages, current, length), WindowEnd(numPages, current, length), p);
  }

  lemma AssembledPages(numPages: int, length: int, lo: int, hi: int, p: int)
    requires 1 <= lo <= hi <= numPages
    requires numPages <= length ==> lo == 1 && hi == numPages
    ensures Page(p) in LeftBlock(numPages, length, lo) + Pages(lo, hi) + RightBlock(numPages, length, hi)
            <==> p == 1 || p == numPages || lo <= p <= hi
  {
    var left := LeftBlock(numPages, length, lo);
    var window := Pages(lo, hi);
    var right := RightBlock(numPages, length, hi);
    var r := left + window + right;
    if lo <= p <= hi {
      assert r[|left| + p - lo] == window[p - lo];
    }
    if Page(p) in r {
      var i :| 0 <= i < |r| && r[i] == Page(p);
      if i >= |left| && i < |left| + |window| {
        assert r[i] == window[i - |left|];
      }
    }
  }

  /** The three forms the left block takes, by where the window starts. */
  predicate LeftShape(left: seq<PageItem>, lo: int) {
    || (left == [] && lo == 1)
    || (left == [Page(1)] && lo == 2)
    || (left == [Page(1), Ellipsis] && lo > 2)
  }

  /** The three forms the right block takes, by where the window ends. */
  predicate RightShape(right: seq<PageItem>, hi: int, numPages: int) {
    || (right == [] && hi == numPages)
    || (right == [Page(numPages)] && hi == numPages - 1)
    || (right == [Ellipsis, Page(numPages)] && hi < numPages - 1)
  }

  lemma BlockShapes(numPages: int, current: int, length: int)
    requires 1 <= current <= numPages
    requires length >= -1
    ensures var lo, hi := WindowStart(numPages, current, length), WindowEnd(numPages, current, length);
      LeftShape(LeftBlock(numPages, length, lo), lo) && RightShape(RightBlock(numPages, length, hi), hi, numPages)
  {
    WindowBounds(numPages, current, length);
  }

  predicate AdjacentPagesConsecutive(r: seq<PageItem>) {
    forall i :: 0 <= i < |r| - 1 && r[i].Page? && r[i + 1].Page? ==> r[i + 1].number == r[i].number + 1
  }

  predicate GapsBetweenDistantPages(r: seq<PageItem>) {
    forall i :: 0 <= i < |r| && r[i] == Ellipsis ==>
      0 < i < |r| - 1 && r[i - 1].Page? && r[i + 1].Page? && r[i + 1].number > r[i - 1].number + 1
  }

  lemma ShapedAdjacent(left: seq<PageItem>, lo: int, hi: int, right: seq<PageItem>, numPages: int)
    requires lo <= hi
    requires LeftShape(left, lo) && RightShape(right, hi, numPages)
    ensures AdjacentPagesConsecutive(left + Pages(lo, hi) + right)
  {
    var window := Pages(lo, hi);
    var r := left + window + right;
    var w := |left| + |window|;
    forall i | 0 <= i < |r| - 1 && r[i].Page? && r[i + 1].Page?
      ensures r[i + 1].number == r[i].number + 1
    {
      if i + 1 < |left| {
        assert false;
      } else if i + 1 == |left| {
        assert r[i] == left[i] && r[i + 1] == window[0];
      } else if i + 1 < w {
        assert r[i] == window[i - |left|] && r[i + 1] == window[i + 1 - |left|];
      } else if i + 1 == w {
        assert r[i] == window[|window| - 1] && r[i + 1] == right[0];
      } else {
        assert false;
      }
    }
  }

  lemma ShapedGaps(left: seq<PageItem>, lo: int, hi: int, right: seq<PageItem>, numPages: int)
    requires lo <= hi
    requires LeftShape(left, lo) && RightShape(right, hi, numPages)
    ensures GapsBetweenDistantPages(left + Pages(lo, hi) + right)
  {
    var window := Pages(lo, hi);
    var r := left + window + right;
    var w := |left| + |window|;
    forall i | 0 <= i < |r| && r[i] == Ellipsis
      ensures 0 < i < |r| - 1 && r[i - 1].Page? && r[i + 1].Page? && r[i + 1].number > r[i - 1].number + 1
    {
      if i < |left| {
        assert r[i] == left[i];
        assert i == 1 && r[0] == Page(1) && r[2] == window[0];
      } else if i < w {
        assert false;
      } else {
        assert r[i] == right[i - w];
        assert i == w && r[i - 1] == window[|window| - 1] && r[i + 1] == right[1];
      }
    }
  }

  /** Neighbouring page numbers are consecutive, and a "..." always sits
      between two pages with at least one page hidden between them. */
  lemma GapsHidePages(numPages: int, current: int, length: int)
    requires 1 <= current <= numPages
    requires length >= -1
    ensures AdjacentPagesConsecutive(PaginationRange(numPages, current, length))
    ensures GapsBetweenDistantPages(PaginationRange(numPages, current, length))
  {
    WindowBounds(numPages, current, length);
    BlockShapes(numPages, current, length);
    var lo := WindowStart(numPages, current, length);
    var hi := WindowEnd(numPages, current, length);
    ShapedAdjacent(LeftBlock(numPages, length, lo), lo, hi, RightBlock(numPages, length, hi), numPages);
    ShapedGaps(LeftBlock(numPages, length, lo), lo, hi, RightBlock(numPages, length, hi), numPages);
  }
}
