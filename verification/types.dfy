/**
  The record types of the admin client (client/src/types/index.ts) and the few
  pieces of JavaScript value semantics that the components lean on: `null` and
  `undefined` become `None`, and the truthiness tests `x || y`, `!!x` and
  `if (x)` on numbers and strings are written out once here, as is the
  lookup of a role by id (`roles.find(role => role.id === roleId)`).
*/
module Types {

  datatype Option<+T> = None | Some(value: T)

  /** A user record; `photo` is optional. Timestamps are ISO strings. */
  datatype User = User(
    id: string,
    createdAt: string,
    updatedAt: string,
    first: string,
    last: string,
    roleId: string,
    photo: Option<string>)

  /** A role record; `description` is optional. */
  datatype Role = Role(
    id: string,
    createdAt: string,
    updatedAt: string,
    name: string,
    description: Option<string>,
    isDefault: bool)

  /** One page of a list response: `next` and `prev` are page numbers or `null`. */
  datatype PagedData<T> = PagedData(data: seq<T>, next: Option<int>, prev: Option<int>, pages: int)

  /**
    The pagination props handed to a table. The two callbacks `onNextPage` and
    `onPrevPage` are not values here: a table's pagination row reports which one
    a click invokes (TablePaginationRow.Handler), and the tab that owns the data
    runs the matching handler.
  */
  datatype PaginationData = PaginationData(currentPage: int, totalPages: int, hasNext: bool, hasPrev: bool)

  /** JavaScript truthiness of a `number | null`: neither `null` nor `0`. */
  predicate NumberTruthy(n: Option<int>)
  {
    n.Some? && n.value != 0
  }

  /** JavaScript truthiness of a `string | undefined`: present and not empty. */
  predicate StringTruthy(s: Option<string>)
  {
    s.Some? && s.value != ""
  }

  /** `s || fallback` for an optional string: `s` when it is truthy, else `fallback`. */
  function OrElse(s: Option<string>, fallback: string): (r: string)
    ensures StringTruthy(s) ==> r == s.value
    ensures !StringTruthy(s) ==> r == fallback
  {
    if StringTruthy(s) then s.value else fallback
  }

  /** The position of the first role with id `roleId`, or `|roles|` when there is none. */
  function FindIndex(roles: seq<Role>, roleId: string): (i: nat)
    ensures i <= |roles|
    ensures forall j :: 0 <= j < i ==> roles[j].id != roleId
    ensures i < |roles| ==> roles[i].id == roleId
    decreases |roles|
  {
    if roles == [] then 0 else if roles[0].id == roleId then 0 else 1 + FindIndex(roles[1..], roleId)
  }

  /** `roles.find(role => role.id === roleId)`: the first role with that id, if any. */
  function FindRole(roles: seq<Role>, roleId: string): (r: Option<Role>)
    ensures r.None? <==> forall i :: 0 <= i < |roles| ==> roles[i].id != roleId
    ensures r.Some? ==>
      exists i :: 0 <= i < |roles| && roles[i] == r.value && roles[i].id == roleId &&
        (forall j :: 0 <= j < i ==> roles[j].id != roleId)
  {
    var i := FindIndex(roles, roleId);
    if i < |roles| then Some(roles[i]) else None
  }

  /** Two lists with the same ids in the same order have their first role with an id at the same place. */
  lemma FindIndexFollowsIds(a: seq<Role>, b: seq<Role>, roleId: string)
    requires |a| == |b|
    requires forall i :: 0 <= i < |a| ==> a[i].id == b[i].id
    ensures FindIndex(a, roleId) == FindIndex(b, roleId)
  {
  }
}
