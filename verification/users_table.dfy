/**
  The users table (client/src/components/Users/UsersTable.tsx): a skeleton
  while the first page loads, "No users found." for an empty list, otherwise
  one row per user (avatar initials, full name, role name, join date and the
  row's action menu) followed by the pagination row when there is more than
  one page.
*/
module UsersTable {
  import opened Types
  import TableView
  import TablePaginationRow

  const UnknownRole := "Unknown Role"
  const NoUsersMessage := "No users found."
  const SkeletonRows := 5

  /**
    `getRoleName`: the name of the first loaded role with the id, or
    "Unknown Role" when no roles page is loaded or none matches.
  */
  function GetRoleName(rolesData: Option<PagedData<Role>>, roleId: string): (name: string)
    ensures rolesData.None? ==> name == UnknownRole
    ensures rolesData.Some? ==> var r := FindRole(rolesData.value.data, roleId);
      name == if r.Some? then r.value.name else UnknownRole
  {
    if rolesData.None? then UnknownRole
    else
      var r := FindRole(rolesData.value.data, roleId);
      if r.Some? then r.value.name else UnknownRole
  }

  /** Among roles with distinct ids, the name shown for a role's own id is that role's name. */
  lemma RoleNameOfListedRole(rolesData: PagedData<Role>, i: nat)
    requires i < |rolesData.data|
    requires forall j, k :: 0 <= j < k < |rolesData.data| ==> rolesData.data[j].id != rolesData.data[k].id
    ensures GetRoleName(Some(rolesData), rolesData.data[i].id) == rolesData.data[i].name
  {
    var r := FindRole(rolesData.data, rolesData.data[i].id);
    var k :| 0 <= k < |rolesData.data| && rolesData.data[k] == r.value && rolesData.data[k].id == rolesData.data[i].id &&
      (forall j :: 0 <= j < k ==> rolesData.data[j].id != rolesData.data[i].id);
    assert k == i;
  }

  /** `s.charAt(0)`: the first character, or "" for an empty string. */
  function FirstChar(s: string): (r: string)
    ensures s == [] ==> r == []
    ensures s != [] ==> r == [s[0]]
  {
    if s == [] then [] else [s[0]]
  }

  /** What one row shows. `menuUserId`/`menuUserName` are the props of the row's action menu. */
  datatype UserRow = UserRow(
    avatarSrc: Option<string>,
    initials: string,
    fullName: string,
    roleName: string,
    joined: string,
    menuUserId: string,
    menuUserName: string)

  function FullName(user: User): string
  {
    user.first + " " + user.last
  }

  function RowFor(user: User, rolesData: Option<PagedData<Role>>, formatDate: string -> string): (row: UserRow)
    ensures row.avatarSrc == user.photo
    ensures row.initials == FirstChar(user.first) + FirstChar(user.last)
    ensures |row.initials| <= 2
    ensures row.fullName == row.menuUserName == user.first + " " + user.last
    ensures row.roleName == GetRoleName(rolesData, user.roleId)
    ensures row.joined == formatDate(user.updatedAt)
    ensures row.menuUserId == user.id
  {
    UserRow(user.photo, FirstChar(user.first) + FirstChar(user.last), FullName(user),
      GetRoleName(rolesData, user.roleId), formatDate(user.updatedAt), user.id, FullName(user))
  }

  function Rows(users: seq<User>, rolesData: Option<PagedData<Role>>, formatDate: string -> string): (rows: seq<UserRow>)
    ensures |rows| == |users|
    ensures forall i :: 0 <= i < |users| ==> rows[i] == RowFor(users[i], rolesData, formatDate)
    decreases |users|
  {
    if users == [] then [] else [RowFor(users[0], rolesData, formatDate)] + Rows(users[1..], rolesData, formatDate)
  }

  datatype View =
    | Skeleton(rowCount: nat)
    | Message(text: string)
    | Grid(rows: seq<UserRow>, pagination: Option<TablePaginationRow.RowView>)

  /**
    The table for the given props. `rolesData` is the cached roles page the
    table reads role names from; `formatDate` stands for `formatIsoToShortUS`.
  */
  function Render(users: seq<User>, isLoading: bool, paginationData: Option<PaginationData>,
                  rolesData: Option<PagedData<Role>>, formatDate: string -> string): (v: View)
    ensures v.Skeleton? <==> isLoading && |users| == 0
    ensures v.Skeleton? ==> v.rowCount == SkeletonRows
    ensures v.Message? <==> !isLoading && |users| == 0
    ensures v.Message? ==> v.text == NoUsersMessage
    ensures v.Grid? <==> |users| > 0
    ensures v.Grid? ==> |v.rows| == |users|
    ensures v.Grid? ==> forall i :: 0 <= i < |users| ==> v.rows[i] == RowFor(users[i], rolesData, formatDate)
    ensures v.Grid? ==> (v.pagination.Some? <==> TableView.ShowsPaginationRow(paginationData))
    ensures v.Grid? && v.pagination.Some? ==> v.pagination.value == TablePaginationRow.Render(paginationData.value, isLoading)
  {
    match TableView.ModeFor(isLoading, |users|)
    case SkeletonMode => Skeleton(SkeletonRows)
    case EmptyMode => Message(NoUsersMessage)
    case RowsMode =>
      var pagination := if TableView.ShowsPaginationRow(paginationData)
        then Some(TablePaginationRow.Render(paginationData.value, isLoading)) else None;
      Grid(Rows(users, rolesData, formatDate), pagination)
  }

  /**
    Each row's action menu is bound to that row's user, so with distinct ids
    the menus of two different rows never act on the same user.
  */
  lemma MenusFollowRows(users: seq<User>, isLoading: bool, paginationData: Option<PaginationData>,
                        rolesData: Option<PagedData<Role>>, formatDate: string -> string)
    requires |users| > 0
    requires forall j, k :: 0 <= j < k < |users| ==> users[j].id != users[k].id
    ensures var v := Render(users, isLoading, paginationData, rolesData, formatDate);
      v.Grid? && forall i, j :: 0 <= i < |v.rows| && 0 <= j < |v.rows| && v.rows[i].menuUserId == v.rows[j].menuUserId ==> i == j
  {
    var v := Render(users, isLoading, paginationData, rolesData, formatDate);
    forall i, j | 0 <= i < |v.rows| && 0 <= j < |v.rows| && v.rows[i].menuUserId == v.rows[j].menuUserId
      ensures i == j
    {
      assert users[i].id == users[j].id;
    }
  }
}
