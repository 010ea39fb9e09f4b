/**
  The choice both tables make before drawing rows (client/src/components/Users/UsersTable.tsx
  and client/src/components/Roles/RolesTable.tsx): a skeleton while the first
  load is under way, a "nothing found" message for an empty list, otherwise
  the rows; and whether the pagination row is drawn under them.
*/
module TableView {
  import opened Types

  datatype Mode = SkeletonMode | EmptyMode | RowsMode

  function ModeFor(isLoading: bool, count: nat): (m: Mode)
    ensures m == SkeletonMode <==> isLoading && count == 0
    ensures m == EmptyMode <==> !isLoading && count == 0
    ensures m == RowsMode <==> count > 0
  {
    if isLoading && count == 0 then SkeletonMode
    else if count == 0 then EmptyMode
    else RowsMode
  }

  /** `paginationData && paginationData.totalPages > 1`. */
  predicate ShowsPaginationRow(p: Option<PaginationData>)
  {
    p.Some? && p.value.totalPages > 1
  }
}
