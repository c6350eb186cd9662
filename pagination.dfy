/**
 * The page bar of the job lists: the early-return guard, the window of page
 * numbers with its ellipses, the two-digit page labels and the
 * Previous/Next buttons.
 */
module Pagination {
  import opened Wrappers
  import opened Text

  /** An entry of the page bar: a page button or the "..." marker. */
  datatype PageItem = Page(n: int) | Ellipsis

  function Max(a: int, b: int): int { if a >= b then a else b }

  function Min(a: int, b: int): int { if a <= b then a else b }

  /** The page buttons `lo`, `lo + 1`, ..., `hi`; none when `lo > hi`. */
  function Range(lo: int, hi: int): seq<PageItem> {
    if lo > hi then [] else seq(hi - lo + 1, i requires 0 <= i < hi - lo + 1 => Page(lo + i))
  }

  /**
   * The entries of the bar: every page when there are at most seven;
   * otherwise the first page, the current page with its neighbours, the last
   * page, and a "..." on each side where pages are skipped.
   */
  function Window(currentPage: int, totalPages: int): seq<PageItem> {
    if totalPages <= 7 then Range(1, totalPages)
    else
      [Page(1)]
      + (if currentPage > 3 then [Ellipsis] else [])
      + Range(Max(2, currentPage - 1), Min(totalPages - 1, currentPage + 1))
      + (if currentPage < totalPages - 2 then [Ellipsis] else [])
      + [Page(totalPages)]
  }

  /** The guard before rendering: a bar needs two pages, no load in progress and no error message. */
  predicate Renders(totalPages: int, loading: bool, error: Option<string>) {
    totalPages > 1 && !loading && (error.None? || error.value == "")
  }

  predicate PreviousDisabled(currentPage: int) {
    currentPage == 1
  }

  predicate NextDisabled(currentPage: int, totalPages: int) {
    currentPage == totalPages
  }

  /** The label of a page button: its number padded to two digits with zeros. */
  function PageLabel(n: nat): string {
    PadStart(Decimal(n), 2, '0')
  }

  lemma RangeExtend(lo: int, hi: int)
    requires lo <= hi
    ensures Range(lo, hi) == Range(lo, hi - 1) + [Page(hi)]
  {
    var r := Range(lo, hi - 1) + [Page(hi)];
    assert |r| == hi - lo + 1;
    forall i | 0 <= i < hi - lo + 1 ensures Range(lo, hi)[i] == r[i] {
    }
  }

  /** `getPageNumbers`: pushes the entries of the bar one by one. */
  method GetPageNumbers(currentPage: int, totalPages: int) returns (pages: seq<PageItem>)
    ensures pages == Window(currentPage, totalPages)
  {
    pages := [];
    if totalPages <= 7 {
      var i := 1;
      while i <= totalPages
        invariant 1 <= i && (i <= totalPages + 1 || i == 1)
        invariant pages == Range(1, i - 1)
      {
        RangeExtend(1, i);
        pages := pages + [Page(i)];
        i := i + 1;
      }
    } else {
      pages := [Page(1)];
      if currentPage > 3 {
        pages := pages + [Ellipsis];
      }
      assert pages == [Page(1)] + (if currentPage > 3 then [Ellipsis] else []);
      var start := Max(2, currentPage - 1);
      var end := Min(totalPages - 1, currentPage + 1);
      ghost var head := pages;
      var i := start;
      while i <= end
        invariant start <= i && (i <= end + 1 || i == start)
        invariant pages == head + Range(start, i - 1)
      {
        RangeExtend(start, i);
        pages := pages + [Page(i)];
        i := i + 1;
      }
      assert pages == head + Range(start, end) by {
        assert i - 1 == end || (i == start && Range(start, i - 1) == [] == Range(start, end));
      }
      if currentPage < totalPages - 2 {
        pages := pages + [Ellipsis];
      }
      pages := pages + [Page(totalPages)];
    }
  }

  /** With at most seven pages the bar is exactly 1, 2, ..., totalPages. */
  lemma FewPagesAllShown(currentPage: int, totalPages: int)
    requires totalPages <= 7
    ensures var w := Window(currentPage, totalPages);
      && |w| == Max(totalPages, 0)
      && forall i :: 0 <= i < |w| ==> w[i] == Page(i + 1)
  {
  }

  /** Whenever the bar is rendered it starts at page 1 and ends at the last page. */
  lemma FirstAndLast(currentPage: int, totalPages: int, loading: bool, error: Option<string>)
    requires Renders(totalPages, loading, error)
    ensures var w := Window(currentPage, totalPages);
      |w| >= 2 && w[0] == Page(1) && w[|w| - 1] == Page(totalPages)
  {
  }

  /**
   * Where each entry of a long bar sits, for a current page within range:
   * page 1, the optional leading "...", the neighbours `lo..hi` of the
   * current page, the optional trailing "...", and the last page.
   */
  lemma WindowLayout(currentPage: int, totalPages: int)
    requires totalPages > 7 && 1 <= currentPage <= totalPages
    ensures var w := Window(currentPage, totalPages);
      var m := if currentPage > 3 then 2 else 1;
      var lo := Max(2, currentPage - 1);
      var hi := Min(totalPages - 1, currentPage + 1);
      var t := if currentPage < totalPages - 2 then 1 else 0;
      && lo <= hi && (1 < currentPage < totalPages ==> lo <= currentPage <= hi)
      && |w| == m + (hi - lo + 1) + t + 1
      && w[0] == Page(1) && w[|w| - 1] == Page(totalPages)
      && (forall i :: 0 < i < m ==> w[i] == Ellipsis)
      && (forall i :: m <= i <= m + hi - lo ==> w[i] == Page(lo + i - m))
      && (forall i :: m + hi - lo < i < |w| - 1 ==> w[i] == Ellipsis)
  {
    var lead := if currentPage > 3 then [Ellipsis] else [];
    var lo := Max(2, currentPage - 1);
    var hi := Min(totalPages - 1, currentPage + 1);
    var mid := Range(lo, hi);
    var trail := if currentPage < totalPages - 2 then [Ellipsis] else [];
    var w := Window(currentPage, totalPages);
    assert w == [Page(1)] + lead + mid + trail + [Page(totalPages)];
  }

  /**
   * For a current page within range and more than seven pages, the second
   * entry is "..." exactly when the current page is beyond 3, the
   * next-to-last exactly when it is more than two before the end, and no
   * other entry is "...".
   */
  lemma EllipsisPlacement(currentPage: int, totalPages: int)
    requires totalPages > 7 && 1 <= currentPage <= totalPages
    ensures var w := Window(currentPage, totalPages);
      && |w| >= 4
      && (w[1] == Ellipsis <==> currentPage > 3)
      && (w[|w| - 2] == Ellipsis <==> currentPage < totalPages - 2)
      && forall i :: 1 < i < |w| - 2 ==> w[i].Page?
  {
    WindowLayout(currentPage, totalPages);
  }

  /**
   * For a current page within range: the page numbers rise strictly, stay
   * within 1..totalPages, include the current page, and the bar has at most
   * seven entries.
   */
  lemma WindowShape(currentPage: int, totalPages: int)
    requires 1 <= currentPage <= totalPages
    ensures var w := Window(currentPage, totalPages);
      && (forall i, j :: 0 <= i < j < |w| && w[i].Page? && w[j].Page? ==> w[i].n < w[j].n)
      && (forall i :: 0 <= i < |w| && w[i].Page? ==> 1 <= w[i].n <= totalPages)
      && Page(currentPage) in w
      && |w| <= 7
  {
    var w := Window(currentPage, totalPages);
    if totalPages > 7 {
      WindowLayout(currentPage, totalPages);
      var m := if currentPage > 3 then 2 else 1;
      if 1 < currentPage < totalPages {
        assert w[m + currentPage - Max(2, currentPage - 1)] == Page(currentPage);
      } else if currentPage == 1 {
        assert w[0] == Page(currentPage);
      } else {
        assert w[|w| - 1] == Page(currentPage);
      }
    } else {
      assert w[currentPage - 1] == Page(currentPage);
    }
  }

  /**
   * The bar hides no page silently: neighbouring page buttons are
   * consecutive pages, and each "..." stands between two pages with at least
   * one page skipped.
   */
  lemma WindowGaps(currentPage: int, totalPages: int)
    requires 1 <= currentPage <= totalPages
    ensures var w := Window(currentPage, totalPages);
      && (forall i :: 0 <= i < |w| - 1 && w[i].Page? && w[i + 1].Page? ==> w[i + 1].n == w[i].n + 1)
      && (forall i :: 0 <= i < |w| && w[i] == Ellipsis ==>
            0 < i < |w| - 1 && w[i - 1].Page? && w[i + 1].Page? && w[i + 1].n > w[i - 1].n + 1)
  {
    if totalPages > 7 {
      WindowLayout(currentPage, totalPages);
    }
  }

  /**
   * For a current page within range, each of Previous and Next is disabled
   * exactly when the page it would move to lies outside 1..totalPages.
   */
  lemma NavigationStaysInRange(currentPage: int, totalPages: int)
    requires 1 <= currentPage <= totalPages
    ensures PreviousDisabled(currentPage) <==> !(1 <= currentPage - 1 <= totalPages)
    ensures NextDisabled(currentPage, totalPages) <==> !(1 <= currentPage + 1 <= totalPages)
  {
  }

  /** A page label has at least two digits and reads back as the page number. */
  lemma PageLabelValue(n: nat)
    ensures |PageLabel(n)| >= 2 && AllDigits(PageLabel(n)) && DigitsValue(PageLabel(n)) == n
  {
    PadStartShape(Decimal(n), 2, '0');
    PaddedDecimalValue(n, 2);
  }
}
