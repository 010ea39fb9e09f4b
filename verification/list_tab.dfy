/**
  The two list tabs (client/src/components/Users/UsersTab.tsx and
  client/src/components/Roles/RolesTab.tsx), which differ only in the
  resource they list and their messages: a search box whose settled
  (debounced) term resets the page, Previous/Next handlers guarded by the
  loaded page's `prev`/`next`, the list request built from that state, and
  the props handed to the table.
*/
module ListTab {
  import opened Types
  import opened QueryCache
  import ApiService
  import Pagination
  import TablePaginationRow
  import ToastContext

  // ----- reading the loaded page (`xData?.prev`, `xData?.data || []`, ...) -----

  /** `xData?.prev`: the loaded page's prev, absent when nothing (or no page) is loaded. */
  function PrevOf<T>(e: Entry<T>): (r: Option<int>)
    ensures e.Paged? ==> r == e.page.prev
    ensures !e.Paged? ==> r.None?
  {
    if e.Paged? then e.page.prev else None
  }

  function NextOf<T>(e: Entry<T>): (r: Option<int>)
    ensures e.Paged? ==> r == e.page.next
    ensures !e.Paged? ==> r.None?
  {
    if e.Paged? then e.page.next else None
  }

  /** The page `handlePreviousPage` moves to: one back when the loaded page has a truthy prev, else unchanged. */
  function PreviousPageFrom<T>(e: Entry<T>, currentPage: int): (p: int)
    ensures NumberTruthy(PrevOf(e)) ==> p == currentPage - 1
    ensures !NumberTruthy(PrevOf(e)) ==> p == currentPage
  {
    if NumberTruthy(PrevOf(e)) then currentPage - 1 else currentPage
  }

  /** The page `handleNextPage` moves to: one on when the loaded page has a truthy next, else unchanged. */
  function NextPageFrom<T>(e: Entry<T>, currentPage: int): (p: int)
    ensures NumberTruthy(NextOf(e)) ==> p == currentPage + 1
    ensures !NumberTruthy(NextOf(e)) ==> p == currentPage
  {
    if NumberTruthy(NextOf(e)) then currentPage + 1 else currentPage
  }

  /** `xData?.data || []`: the rows handed to the table. */
  function TableData<T>(e: Entry<T>): (rows: seq<T>)
    ensures e.Paged? ==> rows == e.page.data
    ensures !e.Paged? ==> rows == []
  {
    if e.Paged? then e.page.data else []
  }

  /**
    `paginationData`: absent while nothing is loaded; otherwise the current
    page, the page count and the truthiness of next and prev. `Unpaged`
    stands for a loaded value that carries none of the page fields: its
    `pages` is undefined, read as 0 here, which, like undefined, is not above
    1, so no pagination row is drawn; its `next` and `prev` are undefined, so
    both are false.
  */
  function PaginationFor<T>(e: Entry<T>, currentPage: int): (p: Option<PaginationData>)
    ensures p.Some? <==> Truthy(e)
    ensures e.Paged? ==> p == Some(PaginationData(currentPage, e.page.pages,
      NumberTruthy(e.page.next), NumberTruthy(e.page.prev)))
    ensures e.Unpaged? ==> p == Some(PaginationData(currentPage, 0, false, false))
  {
    match e
    case Empty => None
    case Paged(page) => Some(PaginationData(currentPage, page.pages, NumberTruthy(page.next), NumberTruthy(page.prev)))
    case Unpaged => Some(PaginationData(currentPage, 0, false, false))
  }

  /**
    The pagination row and the tab agree: with no load under way, clicking
    Next reaches a handler exactly when that handler moves the page, and
    likewise for Previous; a disabled button's handler would not move it.
  */
  lemma ButtonsAgreeWithHandlers<T>(e: Entry<T>, currentPage: int)
    requires Truthy(e)
    ensures var row := TablePaginationRow.Render(PaginationFor(e, currentPage).value, false);
      && (TablePaginationRow.Click(row.next).Some? <==> NextPageFrom(e, currentPage) != currentPage)
      && (TablePaginationRow.Click(row.previous).Some? <==> PreviousPageFrom(e, currentPage) != currentPage)
  {
    TablePaginationRow.ClicksReachTheirCallbacks(PaginationFor(e, currentPage).value, false);
  }

  /** Next then Previous on a page that has both neighbours comes back to the same page. */
  lemma NextThenPrevious<T>(e: Entry<T>, currentPage: int)
    requires NumberTruthy(NextOf(e)) && NumberTruthy(PrevOf(e))
    ensures PreviousPageFrom(e, NextPageFrom(e, currentPage)) == currentPage
    ensures NextPageFrom(e, PreviousPageFrom(e, currentPage)) == currentPage
  {
  }

  // ----- the request -----

  /** The list request for the tab's state: the settled search term and the current page. */
  function QueryCallFor(resource: ApiService.Resource, debouncedSearchTerm: string, currentPage: int): (c: ApiService.ServiceCall)
    ensures c.List? && c.resource == resource && c.page == currentPage
    ensures c.search == Some(debouncedSearchTerm)
  {
    ApiService.List(resource, Some(debouncedSearchTerm), currentPage)
  }

  /**
    The URL the tab requests carries its state: reading it back gives the
    resource, the current page and the settled search term (an empty term
    adds no `search` parameter and reads back as empty).
  */
  lemma QueryUrlCarriesState(resource: ApiService.Resource, debouncedSearchTerm: string, currentPage: int)
    ensures var req := ApiService.Route(QueryCallFor(resource, debouncedSearchTerm, currentPage));
      req.verb == ApiService.GET &&
      ApiService.ParseListUrl(req.url) == Some(ApiService.ListQuery(resource, currentPage, debouncedSearchTerm))
  {
    ApiService.ListUrlRoundTrip(resource, Some(debouncedSearchTerm), currentPage);
  }

  // ----- what the tab draws -----

  /** The query's status flags (react-query's `isLoading`, `isFetching`, `isError`, `error`). */
  datatype QueryStatus = QueryStatus(isLoading: bool, isFetching: bool, isError: bool, error: Option<string>)

  datatype TabView<T> =
    | ErrorWithRetry(message: string, isRetrying: bool)
    | Table(rows: seq<T>, isLoading: bool, pagination: Option<PaginationData>)

  function LoadErrorFallback(resource: ApiService.Resource): string
  {
    match resource
    case Users => "Failed to load users. Please try again."
    case Roles => "Failed to load roles. Please try again."
  }

  /** The toast text of a failed load. */
  function LoadErrorToast(resource: ApiService.Resource, message: string): string
  {
    match resource
    case Users => "Failed to load users: " + message
    case Roles => "Failed to load roles: " + message
  }

  /**
    On error the retry panel with the error's message or the fallback;
    otherwise the table with the loaded rows (or none), loading while the
    query loads or fetches, and the pagination props.
  */
  function Render<T>(resource: ApiService.Resource, e: Entry<T>, currentPage: int, q: QueryStatus): (v: TabView<T>)
    ensures v.ErrorWithRetry? <==> q.isError
    ensures v.ErrorWithRetry? ==> v.isRetrying == q.isFetching
    ensures v.ErrorWithRetry? && StringTruthy(q.error) ==> v.message == q.error.value
    ensures v.ErrorWithRetry? && !StringTruthy(q.error) ==> v.message == LoadErrorFallback(resource)
    ensures v.Table? ==> v.rows == TableData(e) && (v.isLoading <==> q.isLoading || q.isFetching)
    ensures v.Table? ==> v.pagination == PaginationFor(e, currentPage)
  {
    if q.isError then ErrorWithRetry(OrElse(q.error, LoadErrorFallback(resource)), q.isFetching)
    else Table(TableData(e), q.isLoading || q.isFetching, PaginationFor(e, currentPage))
  }

  // ----- the tab's state -----

  class Tab<T> {
    const resource: ApiService.Resource
    const cache: Cache<T>                     // the tab's query ("users" or "roles")
    const pager: Pagination.Pager
    const toasts: ToastContext.ToastProvider
    var searchTerm: string
    var debouncedSearchTerm: string

    /** `usePagination()` starts on page 1. */
    predicate Valid()
    {
      pager.initialPage == 1
    }

    constructor (resource: ApiService.Resource, cache: Cache<T>, toasts: ToastContext.ToastProvider)
      ensures Valid()
      ensures this.resource == resource && this.cache == cache && this.toasts == toasts
      ensures searchTerm == "" && debouncedSearchTerm == "" && pager.currentPage == 1
      ensures fresh(pager)
    {
      this.resource := resource;
      this.cache := cache;
      this.toasts := toasts;
      pager := new Pagination.Pager();
      searchTerm := "";
      debouncedSearchTerm := "";
    }

    /** Typing in the search box changes the term but not yet the request. */
    method HandleSearchChange(value: string)
      modifies this
      ensures searchTerm == value && debouncedSearchTerm == old(debouncedSearchTerm)
    {
      searchTerm := value;
    }

    /** The debounce delay has passed: the settled term catches up, and a changed term goes back to page 1. */
    method DebouncedSearchSettled()
      requires Valid()
      modifies this, pager
      ensures debouncedSearchTerm == old(searchTerm) && searchTerm == old(searchTerm)
      ensures old(debouncedSearchTerm) != old(searchTerm) ==> pager.currentPage == 1
      ensures old(debouncedSearchTerm) == old(searchTerm) ==> pager.currentPage == old(pager.currentPage)
    {
      var changed := debouncedSearchTerm != searchTerm;
      debouncedSearchTerm := searchTerm;
      if changed {
        pager.ResetPage();
      }
    }

    method HandlePreviousPage()
      modifies pager
      ensures pager.currentPage == PreviousPageFrom(cache.entry, old(pager.currentPage))
    {
      if NumberTruthy(PrevOf(cache.entry)) {
        pager.SetCurrentPage(pager.currentPage - 1);
      }
    }

    method HandleNextPage()
      modifies pager
      ensures pager.currentPage == NextPageFrom(cache.entry, old(pager.currentPage))
    {
      if NumberTruthy(NextOf(cache.entry)) {
        pager.SetCurrentPage(pager.currentPage + 1);
      }
    }

    /** Runs the callback a pagination button invoked. */
    method Dispatch(h: TablePaginationRow.Handler)
      modifies pager
      ensures h == TablePaginationRow.OnPrevPage ==> pager.currentPage == PreviousPageFrom(cache.entry, old(pager.currentPage))
      ensures h == TablePaginationRow.OnNextPage ==> pager.currentPage == NextPageFrom(cache.entry, old(pager.currentPage))
    {
      match h
      case OnPrevPage => HandlePreviousPage();
      case OnNextPage => HandleNextPage();
    }

    /** The request the query sends for the current state. */
    function QueryCall(): ApiService.ServiceCall
      reads this, pager
    {
      QueryCallFor(resource, debouncedSearchTerm, pager.currentPage)
    }

    /** The query's `onError`: an error toast naming the failed load. */
    method LoadFailed(message: string, toastId: string)
      modifies toasts
      ensures toasts.toasts == old(toasts.toasts) +
        [ToastContext.ToastMessage(toastId, ToastContext.Error, None, LoadErrorToast(resource, message))]
      ensures toasts.open
    {
      toasts.ShowToast(ToastContext.Error, LoadErrorToast(resource, message), None, toastId);
    }

    function View(q: QueryStatus): TabView<T>
      reads this, pager, cache
    {
      Render(resource, cache.entry, pager.currentPage, q)
    }
  }
}
