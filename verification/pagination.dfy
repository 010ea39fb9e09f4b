/**
  The `usePagination` hook (client/src/hooks/usePagination.ts): one
  `currentPage` state with step, reset and query operations.
*/
module Pagination {

  /** The page `prevPage` moves to from `p`: one back, but never below 1. */
  function Decremented(p: int): (r: int)
    ensures r >= 1
    ensures p > 1 ==> r == p - 1
    ensures p <= 1 ==> r == 1
  {
    if p > 1 then p - 1 else 1
  }

  /** From any page p >= 1, `nextPage` then `prevPage` comes back to p. */
  lemma NextThenPrev(p: int)
    requires p >= 1
    ensures Decremented(p + 1) == p
  {
  }


  class Pager {
    const initialPage: int
    var currentPage: int

    /** `usePagination({ initialPage })`, with initialPage 1 when not given. */
    constructor (initialPage: int := 1)
      ensures this.initialPage == initialPage && currentPage == initialPage
    {
      this.initialPage := initialPage;
      currentPage := initialPage;
    }

    method SetCurrentPage(page: int)
      modifies this
      ensures currentPage == page
    {
      currentPage := page;
    }

    method NextPage()
      modifies this
      ensures currentPage == old(currentPage) + 1
    {
      currentPage := currentPage + 1;
    }

    method PrevPage()
      modifies this
      ensures currentPage == Decremented(old(currentPage))
    {
      currentPage := if currentPage > 1 then currentPage - 1 else 1;
    }

    /** Back to the initial page; a second reset changes nothing more. */
    method ResetPage()
      modifies this
      ensures currentPage == initialPage
    {
      currentPage := initialPage;
    }

    function HasNextPage(totalPages: int): bool
      reads this
    {
      currentPage < totalPages
    }

    function HasPrevPage(): bool
      reads this
    {
      currentPage > 1
    }
  }

  /** From a page at or above 1, `prevPage` moves exactly when `hasPrevPage` holds. */
  lemma PrevMovesIffHasPrev(pager: Pager)
    requires pager.currentPage >= 1
    ensures Decremented(pager.currentPage) != pager.currentPage <==> pager.HasPrevPage()
  {
  }
}
