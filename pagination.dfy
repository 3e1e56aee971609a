/**
 * The pagination hook of the table view (usePagination): a page size that is
 * never below one, the page count, clamping of a requested page into range,
 * the [startIndex, endIndex) window of the current page, navigation and the
 * slice of the data shown on the current page.
 *
 * The hook's one piece of React state, the stored current page, is the field
 * `currentPage` of class Paginator; the hook's options (`totalItems`,
 * `rowsPerPage`) are fields that a re-render with new props replaces. All
 * derived values are pure functions of the fields.
 */
module Pagination {

  function Max(a: int, b: int): int { if a >= b then a else b }

  function Min(a: int, b: int): int { if a <= b then a else b }

  /** Math.max(1, rowsPerPage): the page size actually used, never zero or negative. */
  function SafeRowsPerPage(rowsPerPage: int): (size: int)
    ensures size >= 1
    ensures rowsPerPage >= 1 ==> size == rowsPerPage
    ensures rowsPerPage < 1 ==> size == 1
  {
    Max(1, rowsPerPage)
  }

  /** Integer ceiling division n / d, with its defining bounds. */
  lemma CeilDivBounds(n: nat, d: int)
    requires d >= 1
    ensures var q := (n + d - 1) / d;
      q >= 0 && n <= q * d && (q == 0 || (q - 1) * d < n) && (q == 0 <==> n == 0)
  {
    var q := (n + d - 1) / d;
    var r := (n + d - 1) % d;
    assert n + d - 1 == q * d + r && 0 <= r < d;
    assert (q - 1) * d == q * d - d;
    if q > 0 {
      assert q * d >= d by { MulLe(1, q, d); }
    }
  }

  /** Multiplying both sides by a non-negative factor keeps the order. */
  lemma MulLe(a: int, b: int, c: int)
    requires a <= b && 0 <= c
    ensures a * c <= b * c
  {
    assert b * c - a * c == (b - a) * c;
  }

  /**
   * totalPages = Math.ceil(totalItems / safeRowsPerPage): the least number of
   * pages of the safe size that holds every item.
   */
  function PageCount(totalItems: nat, rowsPerPage: int): (pages: nat)
    ensures totalItems <= pages * SafeRowsPerPage(rowsPerPage)
    ensures pages == 0 || (pages - 1) * SafeRowsPerPage(rowsPerPage) < totalItems
    ensures pages == 0 <==> totalItems == 0
  {
    var size := SafeRowsPerPage(rowsPerPage);
    CeilDivBounds(totalItems, size);
    (totalItems + size - 1) / size
  }

  /**
   * getValidPage: 1 when there are no pages, otherwise the page clamped into
   * [1, totalPages].
   */
  function GetValidPage(page: int, totalPages: nat): (valid: int)
    ensures totalPages == 0 ==> valid == 1
    ensures totalPages > 0 ==> 1 <= valid <= totalPages
    ensures 1 <= page <= totalPages ==> valid == page
    ensures totalPages > 0 && page < 1 ==> valid == 1
    ensures totalPages > 0 && page > totalPages ==> valid == totalPages
  {
    if totalPages == 0 then 1 else Max(1, Min(page, totalPages))
  }

  /** Clamping an already clamped page changes nothing. */
  lemma GetValidPageIdempotent(page: int, totalPages: nat)
    ensures GetValidPage(GetValidPage(page, totalPages), totalPages) == GetValidPage(page, totalPages)
  {
  }

  /** startIndex: the index of the first item of the (clamped) page. */
  function PageStart(page: int, rowsPerPage: int, totalItems: nat): (start: nat)
    ensures start <= totalItems
    ensures start == (GetValidPage(page, PageCount(totalItems, rowsPerPage)) - 1) * SafeRowsPerPage(rowsPerPage)
    ensures totalItems > 0 ==> start < totalItems
  {
    var size := SafeRowsPerPage(rowsPerPage);
    var pages := PageCount(totalItems, rowsPerPage);
    var valid := GetValidPage(page, pages);
    OffsetBounds(valid, pages, size, totalItems);
    (valid - 1) * size
  }

  /** The offset of a page in range lies inside the items. */
  lemma OffsetBounds(valid: int, pages: nat, size: int, totalItems: nat)
    requires size >= 1 && 1 <= valid
    requires pages == 0 ==> valid == 1 && totalItems == 0
    requires pages > 0 ==> valid <= pages && (pages - 1) * size < totalItems
    ensures 0 <= (valid - 1) * size <= totalItems
    ensures totalItems > 0 ==> (valid - 1) * size < totalItems
  {
    MulLe(0, valid - 1, size);
    if pages > 0 {
      MulLe(valid - 1, pages - 1, size);
    }
  }

  /**
   * endIndex = min(startIndex + pageSize, totalItems): one past the last item
   * of the page. Every page but the last is full, and no page is empty while
   * there are items.
   */
  function PageEnd(page: int, rowsPerPage: int, totalItems: nat): (end: nat)
    ensures PageStart(page, rowsPerPage, totalItems) <= end <= totalItems
    ensures end == Min(PageStart(page, rowsPerPage, totalItems) + SafeRowsPerPage(rowsPerPage), totalItems)
    ensures end - PageStart(page, rowsPerPage, totalItems) <= SafeRowsPerPage(rowsPerPage)
    ensures totalItems > 0 ==> PageStart(page, rowsPerPage, totalItems) < end
    ensures GetValidPage(page, PageCount(totalItems, rowsPerPage)) < PageCount(totalItems, rowsPerPage)
      ==> end - PageStart(page, rowsPerPage, totalItems) == SafeRowsPerPage(rowsPerPage)
  {
    var size := SafeRowsPerPage(rowsPerPage);
    var pages := PageCount(totalItems, rowsPerPage);
    var valid := GetValidPage(page, pages);
    FullPage(valid, pages, size, totalItems);
    Min(PageStart(page, rowsPerPage, totalItems) + size, totalItems)
  }

  /** A page before the last one ends at least one page size past its start. */
  lemma FullPage(valid: int, pages: nat, size: int, totalItems: nat)
    requires size >= 1 && 1 <= valid
    requires pages > 0 ==> (pages - 1) * size < totalItems
    ensures valid < pages ==> (valid - 1) * size + size <= totalItems
  {
    if valid < pages {
      MulLe(valid, pages - 1, size);
      assert (valid - 1) * size + size == valid * size;
    }
  }

  /**
   * JavaScript Array.prototype.slice(start, end) on integer arguments: negative
   * arguments count from the end, and both are clamped into [0, |a|].
   */
  function JsSlice<T>(a: seq<T>, start: int, end: int): (r: seq<T>)
    ensures |r| <= |a|
    ensures 0 <= start <= end <= |a| ==> r == a[start..end]
    ensures 0 <= start <= end ==> |r| <= end - start
    ensures 0 <= end <= start ==> r == []
  {
    var from := if start < 0 then Max(|a| + start, 0) else Min(start, |a|);
    var to := if end < 0 then Max(|a| + end, 0) else Min(end, |a|);
    if from < to then a[from..to] else []
  }

  /** sliceData for a given page over the whole data set (totalItems == |data|). */
  function PageSlice<T>(data: seq<T>, rowsPerPage: int, page: int): seq<T> {
    JsSlice(data, PageStart(page, rowsPerPage, |data|), PageEnd(page, rowsPerPage, |data|))
  }

  /** The slices of pages from, from + 1, ..., totalPages, concatenated in order. */
  function PagesFrom<T>(data: seq<T>, rowsPerPage: int, from: nat): seq<T>
    decreases PageCount(|data|, rowsPerPage) + 1 - from
  {
    if from < 1 || from > PageCount(|data|, rowsPerPage) then []
    else PageSlice(data, rowsPerPage, from) + PagesFrom(data, rowsPerPage, from + 1)
  }

  /** The pages from `from` on hold exactly the items from that page's start on. */
  lemma {:induction false} PagesFromSuffix<T>(data: seq<T>, rowsPerPage: int, from: nat)
    requires 1 <= from <= PageCount(|data|, rowsPerPage) + 1
    ensures PagesFrom(data, rowsPerPage, from)
            == data[Min((from - 1) * SafeRowsPerPage(rowsPerPage), |data|)..]
    decreases PageCount(|data|, rowsPerPage) + 1 - from
  {
    var size := SafeRowsPerPage(rowsPerPage);
    var pages := PageCount(|data|, rowsPerPage);
    if from > pages {
      assert (from - 1) * size >= |data|;
    } else {
      PagesFromSuffix(data, rowsPerPage, from + 1);
      assert from * size == (from - 1) * size + size;
      MulLe(from - 1, pages - 1, size);
      var start := PageStart(from, rowsPerPage, |data|);
      var end := PageEnd(from, rowsPerPage, |data|);
      assert start == (from - 1) * size;
      assert end == Min(from * size, |data|);
      assert data[start..end] + data[end..] == data[start..];
    }
  }

  /**
   * Concatenating sliceData over pages 1..totalPages in order reproduces the
   * data exactly: the pages partition the items, each once, in order.
   */
  lemma PagesPartition<T>(data: seq<T>, rowsPerPage: int)
    ensures PagesFrom(data, rowsPerPage, 1) == data
  {
    PagesFromSuffix(data, rowsPerPage, 1);
  }

  /** The state and the derived values of one usePagination hook instance. */
  class Paginator {
    /** The hook's options, replaced on every render. */
    var totalItems: nat
    var rowsPerPage: int
    /** The stored React state; it is not re-clamped when the options change. */
    var currentPage: int

    /** The first render: the stored page starts as getValidPage(initialPage). */
    constructor (totalItems: nat, rowsPerPage: int, initialPage: int := 1)
      ensures this.totalItems == totalItems && this.rowsPerPage == rowsPerPage
      ensures currentPage == GetValidPage(initialPage, PageCount(totalItems, rowsPerPage))
    {
      this.totalItems := totalItems;
      this.rowsPerPage := rowsPerPage;
      currentPage := GetValidPage(initialPage, PageCount(totalItems, rowsPerPage));
    }

    /** The safe page size. */
    function PageSize(): (size: int)
      reads this
      ensures size >= 1
      ensures rowsPerPage >= 1 ==> size == rowsPerPage
      ensures rowsPerPage < 1 ==> size == 1
    {
      SafeRowsPerPage(rowsPerPage)
    }

    /** totalPages: the least number of pages that holds every item. */
    function TotalPages(): (pages: nat)
      reads this
      ensures totalItems <= pages * PageSize()
      ensures pages == 0 || (pages - 1) * PageSize() < totalItems
      ensures pages == 0 <==> totalItems == 0
    {
      PageCount(totalItems, rowsPerPage)
    }

    /**
     * The reported page (validCurrentPage): the stored page clamped against the
     * current page count, so it is in range even after totalItems shrank.
     */
    function CurrentPage(): (page: int)
      reads this
      ensures 1 <= page <= Max(TotalPages(), 1)
      ensures 1 <= currentPage <= TotalPages() ==> page == currentPage
    {
      GetValidPage(currentPage, TotalPages())
    }

    /** startIndex: the first item of the reported page. */
    function StartIndex(): (start: nat)
      reads this
      ensures start <= totalItems
      ensures start == (CurrentPage() - 1) * PageSize()
    {
      PageStart(currentPage, rowsPerPage, totalItems)
    }

    /** endIndex: one past the last item of the reported page. */
    function EndIndex(): (end: nat)
      reads this
      ensures StartIndex() <= end <= totalItems
      ensures end - StartIndex() <= PageSize()
      ensures end == Min(StartIndex() + PageSize(), totalItems)
    {
      PageEnd(currentPage, rowsPerPage, totalItems)
    }

    /** sliceData: the items of the current page. */
    function SliceData<T>(data: seq<T>): (page: seq<T>)
      reads this
      ensures |page| <= PageSize()
      ensures |data| == totalItems ==> page == data[StartIndex()..EndIndex()]
    {
      JsSlice(data, StartIndex(), EndIndex())
    }

    /** The hook's slice is the reported page's slice, so PagesPartition applies to it. */
    lemma SliceIsPageSlice<T>(data: seq<T>)
      requires |data| == totalItems
      ensures SliceData(data) == PageSlice(data, rowsPerPage, CurrentPage())
      ensures SliceData(data) == PageSlice(data, rowsPerPage, currentPage)
    {
      GetValidPageIdempotent(currentPage, TotalPages());
    }

    /** A later render with new options; the stored page is kept as it was. */
    method Rerender(totalItems: nat, rowsPerPage: int)
      modifies this`totalItems, this`rowsPerPage
      ensures this.totalItems == totalItems && this.rowsPerPage == rowsPerPage
      ensures currentPage == old(currentPage)
      ensures CurrentPage() == GetValidPage(old(currentPage), PageCount(totalItems, rowsPerPage))
    {
      this.totalItems := totalItems;
      this.rowsPerPage := rowsPerPage;
    }

    /** goToPage: store the requested page clamped into range. */
    method GoToPage(page: int)
      modifies this`currentPage
      ensures currentPage == GetValidPage(page, TotalPages())
      ensures CurrentPage() == currentPage
    {
      currentPage := GetValidPage(page, TotalPages());
    }

    /** nextPage: one page forward, a no-op on the last page (or with no pages). */
    method NextPage()
      modifies this`currentPage
      ensures old(CurrentPage()) < TotalPages() ==> currentPage == old(CurrentPage()) + 1
      ensures old(CurrentPage()) >= TotalPages() ==> currentPage == old(currentPage)
      ensures CurrentPage() == Min(old(CurrentPage()) + 1, Max(TotalPages(), 1))
    {
      var valid := CurrentPage();
      if valid < TotalPages() {
        currentPage := valid + 1;
      }
    }

    /** prevPage: one page back, a no-op on page 1. */
    method PrevPage()
      modifies this`currentPage
      ensures old(CurrentPage()) > 1 ==> currentPage == old(CurrentPage()) - 1
      ensures old(CurrentPage()) <= 1 ==> currentPage == old(currentPage)
      ensures CurrentPage() == Max(old(CurrentPage()) - 1, 1)
    {
      var valid := CurrentPage();
      if valid > 1 {
        currentPage := valid - 1;
      }
    }
  }

  /** 120 items at 50 per page: three pages, and goToPage(5) lands on page 3, items 100 to 120. */
  method OneHundredTwentyItemsScenario() {
    var pager := new Paginator(120, 50);
    assert pager.TotalPages() == 3;
    pager.GoToPage(5);
    assert pager.CurrentPage() == 3;
    assert pager.StartIndex() == 100 && pager.EndIndex() == 120;
  }

  /** From the last of three pages nextPage stays put, prevPage steps back, and 30 items re-clamp to page 1. */
  method LastPageNavigationScenario() {
    var pager := new Paginator(120, 50, 3);
    assert pager.CurrentPage() == 3;
    pager.NextPage();
    assert pager.CurrentPage() == 3;
    pager.PrevPage();
    assert pager.CurrentPage() == 2;
    pager.Rerender(30, 50);
    assert pager.currentPage == 2 && pager.CurrentPage() == 1;
  }
}
