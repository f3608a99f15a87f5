/**
 * The pagination bar under the product list: the guard that forwards a page
 * change only inside 1..totalPages, the "Mostrando X a Y de Z resultados"
 * range with twenty products a page, the row of page buttons with the current
 * one highlighted, and the previous/next buttons.
 */
module Pagination {
  import opened Options

  const ItemsPerPage: int := 20

  /** What the list page passes down: the page shown, the number of pages and of products. */
  datatype Props = Props(currentPage: int, totalPages: int, totalResults: int)

  // ---------------------------------------------------------------------------
  // The guard
  // ---------------------------------------------------------------------------

  /** `handlePageChange`: the page handed to `onPageChange`, or None when the guard drops the request. */
  function RequestPage(p: Props, newPage: int): (r: Option<int>)
    ensures r.Some? <==> 1 <= newPage <= p.totalPages
    ensures r.Some? ==> r.value == newPage
  {
    if newPage >= 1 && newPage <= p.totalPages then Some(newPage) else None
  }

  /** With no pages (an empty result) no page change is ever forwarded. */
  lemma NoPagesNoChange(p: Props, newPage: int)
    requires p.totalPages <= 0
    ensures RequestPage(p, newPage) == None
  {
  }

  /** Every page the guard forwards has a button of its own, and every button is forwarded. */
  lemma ForwardedIffButton(p: Props, newPage: int)
    ensures RequestPage(p, newPage).Some? <==> newPage in PageButtons(p.totalPages)
  {
    ButtonsAreThePages(p.totalPages, newPage);
  }

  // ---------------------------------------------------------------------------
  // The range shown
  // ---------------------------------------------------------------------------

  /** `startResult`: the position of the first product of the current page. */
  function StartResult(p: Props): int {
    (p.currentPage - 1) * ItemsPerPage + 1
  }

  /** `endResult`: the position of the last product shown, capped by the total. */
  function EndResult(p: Props): int {
    if p.currentPage * ItemsPerPage <= p.totalResults then p.currentPage * ItemsPerPage else p.totalResults
  }

  /** The range never runs past the total and never spans more than a page. */
  lemma RangeBounds(p: Props)
    ensures EndResult(p) <= p.totalResults
    ensures EndResult(p) - StartResult(p) + 1 <= ItemsPerPage
  {
  }

  /**
   * On a page that holds products the range counts exactly the products of
   * that page: a full page of twenty, or what remains on the last one.
   */
  lemma RangeCountsPage(p: Props)
    requires p.currentPage >= 1 && (p.currentPage - 1) * ItemsPerPage < p.totalResults
    ensures 1 <= StartResult(p) <= EndResult(p)
    ensures EndResult(p) - StartResult(p) + 1 == Min(ItemsPerPage, p.totalResults - (p.currentPage - 1) * ItemsPerPage)
  {
  }

  function Min(a: int, b: int): int {
    if a <= b then a else b
  }

  // ---------------------------------------------------------------------------
  // The page buttons
  // ---------------------------------------------------------------------------

  /** The numbers on the page buttons: 1 to totalPages, none when there are no pages. */
  function PageButtons(totalPages: int): (r: seq<int>)
    ensures |r| == if totalPages > 0 then totalPages else 0
    ensures forall k :: 0 <= k < |r| ==> r[k] == k + 1
  {
    if totalPages <= 0 then [] else PageButtons(totalPages - 1) + [totalPages]
  }

  /** `renderPageNumbers`: the loop pushes 1, 2, …, totalPages. */
  method RenderPageNumbers(totalPages: int) returns (pageNumbers: seq<int>)
    ensures pageNumbers == PageButtons(totalPages)
  {
    pageNumbers := [];
    var i := 1;
    while i <= totalPages
      invariant 1 <= i <= if totalPages >= 0 then totalPages + 1 else 1
      invariant pageNumbers == PageButtons(i - 1)
      decreases totalPages - i
    {
      pageNumbers := pageNumbers + [i];
      i := i + 1;
    }
  }

  /** A number has a button iff it is a page. */
  lemma ButtonsAreThePages(totalPages: int, n: int)
    ensures n in PageButtons(totalPages) <==> 1 <= n <= totalPages
  {
    var r := PageButtons(totalPages);
    if 1 <= n <= totalPages {
      assert r[n - 1] == n;
    }
  }

  /** The buttons ascend strictly, so no page has two. */
  lemma ButtonsAscend(totalPages: int)
    ensures forall i, j :: 0 <= i < j < |PageButtons(totalPages)| ==> PageButtons(totalPages)[i] < PageButtons(totalPages)[j]
  {
  }

  /** A button is highlighted iff it carries the current page. */
  predicate Highlighted(p: Props, pageNumber: int) {
    p.currentPage == pageNumber
  }

  /**
   * At most one button is highlighted, and exactly one when the current page
   * is one of the pages.
   */
  lemma OneHighlighted(p: Props)
    ensures forall i, j ::
      (0 <= i < |PageButtons(p.totalPages)| && 0 <= j < |PageButtons(p.totalPages)|
       && Highlighted(p, PageButtons(p.totalPages)[i]) && Highlighted(p, PageButtons(p.totalPages)[j])) ==> i == j
    ensures (exists i :: 0 <= i < |PageButtons(p.totalPages)| && Highlighted(p, PageButtons(p.totalPages)[i]))
      <==> 1 <= p.currentPage <= p.totalPages
  {
    var r := PageButtons(p.totalPages);
    if 1 <= p.currentPage <= p.totalPages {
      assert Highlighted(p, r[p.currentPage - 1]);
    }
  }

  /** Clicking a page button asks for that page, which the guard always forwards. */
  lemma ButtonClickForwarded(p: Props, k: int)
    requires 0 <= k < |PageButtons(p.totalPages)|
    ensures RequestPage(p, PageButtons(p.totalPages)[k]) == Some(k + 1)
  {
  }

  // ---------------------------------------------------------------------------
  // Previous and next
  // ---------------------------------------------------------------------------

  /** "Anterior" is disabled on page 1. */
  predicate PrevDisabled(p: Props) {
    p.currentPage == 1
  }

  /** "Próxima" is disabled on the last page. */
  predicate NextDisabled(p: Props) {
    p.currentPage == p.totalPages
  }

  /** What a click on "Anterior" forwards: nothing when disabled, else the guarded page before. */
  function PrevClick(p: Props): (r: Option<int>)
    ensures r.Some? ==> !PrevDisabled(p) && r.value == p.currentPage - 1
  {
    if PrevDisabled(p) then None else RequestPage(p, p.currentPage - 1)
  }

  /** What a click on "Próxima" forwards: nothing when disabled, else the guarded page after. */
  function NextClick(p: Props): (r: Option<int>)
    ensures r.Some? ==> !NextDisabled(p) && r.value == p.currentPage + 1
  {
    if NextDisabled(p) then None else RequestPage(p, p.currentPage + 1)
  }

  /**
   * Inside the range of pages the buttons behave as their labels say: the
   * previous page exists iff this is not the first, the next iff this is not
   * the last.
   */
  lemma PrevNextInRange(p: Props)
    requires 1 <= p.currentPage <= p.totalPages
    ensures PrevClick(p).Some? <==> p.currentPage > 1
    ensures NextClick(p).Some? <==> p.currentPage < p.totalPages
    ensures PrevClick(p).Some? ==> PrevClick(p).value in PageButtons(p.totalPages)
    ensures NextClick(p).Some? ==> NextClick(p).value in PageButtons(p.totalPages)
  {
    ButtonsAreThePages(p.totalPages, p.currentPage - 1);
    ButtonsAreThePages(p.totalPages, p.currentPage + 1);
  }

  /** With no results "Próxima" is enabled (page 1 is not page 0), yet its click is dropped by the guard. */
  lemma EnabledNextRejected()
    ensures !NextDisabled(Props(1, 0, 0))
    ensures NextClick(Props(1, 0, 0)) == None
    ensures PrevClick(Props(1, 0, 0)) == None
  {
  }
}
