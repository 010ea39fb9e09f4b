/**
  The roles table (client/src/components/Roles/RolesTable.tsx): a skeleton
  while the first page loads, "No roles found." for an empty list, otherwise
  one row per role (name, description or "-", a "Default" badge on the default
  role, the row's action menu) followed by the pagination row when there is
  more than one page.
*/
module RolesTable {
  import opened Types
  import TableView
  import TablePaginationRow
  import QueryCache
  import RoleActionsMenu

  const NoRolesMessage := "No roles found."
  const SkeletonRows := 4
  const MissingDescription := "-"

  /** `role.description || '-'`. */
  function DescriptionText(description: Option<string>): (text: string)
    ensures StringTruthy(description) ==> text == description.value
    ensures !StringTruthy(description) ==> text == MissingDescription
  {
    OrElse(description, MissingDescription)
  }

  /** What one row shows; `menuRole` is the prop of the row's action menu. */
  datatype RoleRow = RoleRow(name: string, description: string, defaultBadge: bool, menuRole: Role)

  function RowFor(role: Role): (row: RoleRow)
    ensures row.name == role.name
    ensures row.description == DescriptionText(role.description)
    ensures row.defaultBadge <==> role.isDefault
    ensures row.menuRole == role
  {
    RoleRow(role.name, DescriptionText(role.description), role.isDefault, role)
  }

  function Rows(roles: seq<Role>): (rows: seq<RoleRow>)
    ensures |rows| == |roles|
    ensures forall i :: 0 <= i < |roles| ==> rows[i] == RowFor(roles[i])
    decreases |roles|
  {
    if roles == [] then [] else [RowFor(roles[0])] + Rows(roles[1..])
  }

  datatype View =
    | Skeleton(rowCount: nat)
    | Message(text: string)
    | Grid(rows: seq<RoleRow>, pagination: Option<TablePaginationRow.RowView>)

  function Render(roles: seq<Role>, isLoading: bool, paginationData: Option<PaginationData>): (v: View)
    ensures v.Skeleton? <==> isLoading && |roles| == 0
    ensures v.Skeleton? ==> v.rowCount == SkeletonRows
    ensures v.Message? <==> !isLoading && |roles| == 0
    ensures v.Message? ==> v.text == NoRolesMessage
    ensures v.Grid? <==> |roles| > 0
    ensures v.Grid? ==> v.rows == Rows(roles)
    ensures v.Grid? ==> (v.pagination.Some? <==> TableView.ShowsPaginationRow(paginationData))
    ensures v.Grid? && v.pagination.Some? ==> v.pagination.value == TablePaginationRow.Render(paginationData.value, isLoading)
  {
    match TableView.ModeFor(isLoading, |roles|)
    case SkeletonMode => Skeleton(SkeletonRows)
    case EmptyMode => Message(NoRolesMessage)
    case RowsMode =>
      var pagination := if TableView.ShowsPaginationRow(paginationData)
        then Some(TablePaginationRow.Render(paginationData.value, isLoading)) else None;
      Grid(Rows(roles), pagination)
  }

  /** The number of default roles in a list. */
  function CountDefaults(roles: seq<Role>): (c: nat)
    ensures c <= |roles|
    ensures c == 0 <==> forall i :: 0 <= i < |roles| ==> !roles[i].isDefault
    decreases |roles|
  {
    if roles == [] then 0
    else (if roles[0].isDefault then 1 else 0) + CountDefaults(roles[1..])
  }

  /** The number of rows that carry the "Default" badge. */
  function CountBadges(rows: seq<RoleRow>): (c: nat)
    ensures c <= |rows|
    decreases |rows|
  {
    if rows == [] then 0
    else (if rows[0].defaultBadge then 1 else 0) + CountBadges(rows[1..])
  }

  /** The table shows one badge per default role. */
  lemma {:induction false} BadgesCountDefaults(roles: seq<Role>)
    ensures CountBadges(Rows(roles)) == CountDefaults(roles)
    decreases |roles|
  {
    if roles != [] {
      BadgesCountDefaults(roles[1..]);
      assert Rows(roles)[1..] == Rows(roles[1..]);
    }
  }

  /** A list whose only default role is at `k` counts exactly one default. */
  lemma {:induction false} SingleDefaultCountsOne(roles: seq<Role>, k: nat)
    requires k < |roles| && roles[k].isDefault
    requires forall i :: 0 <= i < |roles| && roles[i].isDefault ==> i == k
    ensures CountDefaults(roles) == 1
    decreases |roles|
  {
    if k == 0 {
      assert forall i :: 0 <= i < |roles[1..]| ==> !roles[1..][i].isDefault by {
        forall i | 0 <= i < |roles[1..]|
          ensures !roles[1..][i].isDefault
        {
          assert roles[1..][i] == roles[i + 1];
        }
      }
    } else {
      assert !roles[0].isDefault;
      forall i | 0 <= i < |roles[1..]| && roles[1..][i].isDefault
        ensures i == k - 1
      {
        assert roles[i + 1].isDefault;
      }
      SingleDefaultCountsOne(roles[1..], k - 1);
    }
  }

  /**
    After "Set as default" on a role of a page with distinct ids, the table
    drawn from the patched page shows exactly one "Default" badge, on that
    role's row.
  */
  lemma SetDefaultShowsOneBadge(page: PagedData<Role>, k: nat)
    requires k < |page.data|
    requires RoleActionsMenu.UniqueIds(page.data)
    ensures var patched := RoleActionsMenu.SetDefaultPatch(QueryCache.Paged(page), page.data[k].id).page.data;
      && CountBadges(Rows(patched)) == 1
      && Rows(patched)[k].defaultBadge
  {
    var roleId := page.data[k].id;
    var patched := RoleActionsMenu.SetDefaultPatch(QueryCache.Paged(page), roleId).page.data;
    RoleActionsMenu.SetDefaultLeavesOneDefault(page, roleId);
    assert patched[k].isDefault;
    BadgesCountDefaults(patched);
    SingleDefaultCountsOne(patched, k);
  }
}
