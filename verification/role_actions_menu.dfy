/**
  The actions menu of a role row (client/src/components/Roles/RoleActionsMenu.tsx):
  "Set as default" and the edit dialog's update, both applied optimistically
  to the cached roles page, with a snapshot taken first and restored when the
  server call fails.
*/
module RoleActionsMenu {
  import opened Types
  import opened QueryCache
  import ApiService
  import ToastContext

  // ----- the optimistic patches -----

  /** Every role flagged default exactly when its id is `roleId`; nothing else about it changes. */
  function MarkDefault(roles: seq<Role>, roleId: string): (r: seq<Role>)
    ensures |r| == |roles|
    ensures forall i :: 0 <= i < |r| ==> r[i] == roles[i].(isDefault := roles[i].id == roleId)
    decreases |roles|
  {
    if roles == [] then []
    else [roles[0].(isDefault := roles[0].id == roleId)] + MarkDefault(roles[1..], roleId)
  }

  /** The set-default patch of the cached roles page (`old && old.data ? {...old, data: ...} : old`). */
  function SetDefaultPatch(entry: Entry<Role>, roleId: string): (r: Entry<Role>)
    ensures !entry.Paged? ==> r == entry
    ensures entry.Paged? ==> r == Paged(entry.page.(data := MarkDefault(entry.page.data, roleId)))
  {
    match entry
    case Paged(page) => Paged(page.(data := MarkDefault(page.data, roleId)))
    case _ => entry
  }

  /** The edit dialog's values. */
  datatype FormValues = FormValues(name: string, description: string)

  /** `{...r, ...formData}`: the role with the form's name and description, and nothing else changed. */
  function MergeForm(r: Role, form: FormValues): (m: Role)
    ensures m.id == r.id && m.createdAt == r.createdAt && m.updatedAt == r.updatedAt && m.isDefault == r.isDefault
    ensures m.name == form.name && m.description == Some(form.description)
  {
    r.(name := form.name, description := Some(form.description))
  }

  /** The role matching `roleId` takes the form's name and description; every other role is identical. */
  function ApplyForm(roles: seq<Role>, roleId: string, form: FormValues): (r: seq<Role>)
    ensures |r| == |roles|
    ensures forall i :: 0 <= i < |r| && roles[i].id == roleId ==> r[i] == MergeForm(roles[i], form)
    ensures forall i :: 0 <= i < |r| && roles[i].id != roleId ==> r[i] == roles[i]
    decreases |roles|
  {
    if roles == [] then []
    else
      var head := if roles[0].id == roleId then MergeForm(roles[0], form) else roles[0];
      [head] + ApplyForm(roles[1..], roleId, form)
  }

  /** The update patch of the cached roles page. */
  function UpdatePatch(entry: Entry<Role>, roleId: string, form: FormValues): (r: Entry<Role>)
    ensures !entry.Paged? ==> r == entry
    ensures entry.Paged? ==> r == Paged(entry.page.(data := ApplyForm(entry.page.data, roleId, form)))
  {
    match entry
    case Paged(page) => Paged(page.(data := ApplyForm(page.data, roleId, form)))
    case _ => entry
  }

  predicate UniqueIds(roles: seq<Role>)
  {
    forall i, j :: 0 <= i < j < |roles| ==> roles[i].id != roles[j].id
  }

  /**
    After the set-default patch a page with distinct ids has exactly one
    default role, the chosen one, when it is on the page, and none otherwise;
    ids, order and page metadata stay.
  */
  lemma SetDefaultLeavesOneDefault(page: PagedData<Role>, roleId: string)
    requires UniqueIds(page.data)
    ensures var r := SetDefaultPatch(Paged(page), roleId).page;
      && r.next == page.next && r.prev == page.prev && r.pages == page.pages
      && |r.data| == |page.data|
      && (forall i :: 0 <= i < |r.data| ==> r.data[i].id == page.data[i].id)
      && (forall i, j :: 0 <= i < |r.data| && 0 <= j < |r.data| && r.data[i].isDefault && r.data[j].isDefault ==> i == j)
      && ((exists i :: 0 <= i < |page.data| && page.data[i].id == roleId) <==>
          (exists i :: 0 <= i < |r.data| && r.data[i].isDefault))
  {
    var r := SetDefaultPatch(Paged(page), roleId).page;
    if exists i :: 0 <= i < |page.data| && page.data[i].id == roleId {
      var i :| 0 <= i < |page.data| && page.data[i].id == roleId;
      assert r.data[i].isDefault;
    }
  }

  /** Setting the same role default twice is the same as once. */
  lemma SetDefaultIdempotent(entry: Entry<Role>, roleId: string)
    ensures SetDefaultPatch(SetDefaultPatch(entry, roleId), roleId) == SetDefaultPatch(entry, roleId)
  {
    if entry.Paged? {
      var once := MarkDefault(entry.page.data, roleId);
      assert MarkDefault(once, roleId) == once;
    }
  }

  /** The update patch changes at most one role of a page with distinct ids, and keeps ids and metadata. */
  lemma UpdateTouchesOnlyTheRole(page: PagedData<Role>, roleId: string, form: FormValues)
    requires UniqueIds(page.data)
    ensures var r := UpdatePatch(Paged(page), roleId, form).page;
      && r.next == page.next && r.prev == page.prev && r.pages == page.pages
      && (forall i :: 0 <= i < |r.data| ==> r.data[i].id == page.data[i].id && r.data[i].isDefault == page.data[i].isDefault)
      && (forall i, j :: 0 <= i < |r.data| && 0 <= j < |r.data| && r.data[i] != page.data[i] && r.data[j] != page.data[j] ==> i == j)
  {
  }

  /**
    Rolling back to the snapshot taken just before a patch undoes it exactly,
    also when the snapshot is empty and no restore happens, because the
    patches leave an empty cache empty.
  */
  lemma RollbackUndoesPatches(snapshot: Entry<Role>, roleId: string, form: FormValues)
    ensures Rollback(snapshot, SetDefaultPatch(snapshot, roleId)) == snapshot
    ensures Rollback(snapshot, UpdatePatch(snapshot, roleId, form)) == snapshot
  {
  }

  /**
    The role a row's menu is rendered with. The table keys its rows by id,
    so after a write to the cached page the menu of role `roleId` is handed
    the page's first role with that id; a role not on the page has no row.
  */
  function ListedRole(entry: Entry<Role>, roleId: string): (r: Option<Role>)
    ensures r.Some? ==> entry.Paged? && r.value in entry.page.data && r.value.id == roleId
    ensures entry.Paged? && (exists i :: 0 <= i < |entry.page.data| && entry.page.data[i].id == roleId) ==> r.Some?
  {
    if entry.Paged? then FindRole(entry.page.data, roleId) else None
  }

  /** After the update patch, the row of the updated role is its old row merged with the form. */
  lemma UpdatePatchRow(entry: Entry<Role>, roleId: string, form: FormValues)
    ensures ListedRole(UpdatePatch(entry, roleId, form), roleId) ==
      match ListedRole(entry, roleId)
      case Some(r) => Some(MergeForm(r, form))
      case None => None
  {
    if entry.Paged? {
      var a := entry.page.data;
      var b := ApplyForm(a, roleId, form);
      FindIndexFollowsIds(a, b, roleId);
    }
  }

  /** After the set-default patch, the row of the chosen role is its old row flagged default. */
  lemma SetDefaultPatchRow(entry: Entry<Role>, roleId: string)
    ensures ListedRole(SetDefaultPatch(entry, roleId), roleId) ==
      match ListedRole(entry, roleId)
      case Some(r) => Some(r.(isDefault := true))
      case None => None
  {
    if entry.Paged? {
      var a := entry.page.data;
      var b := MarkDefault(a, roleId);
      FindIndexFollowsIds(a, b, roleId);
    }
  }

  // ----- the form and the menu -----

  /** The form's default values: the role's name, and its description or "". */
  function FormDefaults(role: Role): (f: FormValues)
    ensures f.name == role.name
    ensures f.description == (if role.description.Some? then role.description.value else "")
  {
    FormValues(role.name, OrElse(role.description, ""))
  }

  /** A role merged with a form resets the form to those very values. */
  lemma FormOfMergedRole(r: Role, form: FormValues)
    ensures FormDefaults(MergeForm(r, form)) == form
  {
  }

  datatype MenuItem =
    | EditRole
    | SetAsDefault(disabled: bool)
    | DefaultRoleLabel     // shown disabled
    | DeleteRole

  /** The menu: "Set as default" for a role that is not the default, a disabled "Default role" for the one that is. */
  function MenuItems(role: Role, setDefaultPending: bool): (items: seq<MenuItem>)
    ensures |items| == 3 && items[0] == EditRole && items[2] == DeleteRole
    ensures items[1].SetAsDefault? <==> !role.isDefault
    ensures items[1] == DefaultRoleLabel <==> role.isDefault
    ensures items[1].SetAsDefault? ==> items[1].disabled == setDefaultPending
  {
    [EditRole, if role.isDefault then DefaultRoleLabel else SetAsDefault(setDefaultPending), DeleteRole]
  }

  datatype ActionButton = RetryButton(disabled: bool) | SaveButton(disabled: bool)

  /** The dialog's action button: Retry replaces Save exactly when an error is shown. */
  function ActionButtonFor(error: Option<string>, updatePending: bool): (b: ActionButton)
    ensures b.RetryButton? <==> StringTruthy(error)
    ensures b.disabled == updatePending
  {
    if StringTruthy(error) then RetryButton(updatePending) else SaveButton(updatePending)
  }

  /** The form's one validation rule: the name field is required, so an empty name is never submitted. */
  predicate FormValid(form: FormValues)
  {
    form.name != ""
  }

  const SetDefaultFallback := "Failed to set role as default. Please try again."
  const UpdateFallback := "Something went wrong. Please try again."

  /** The request each mutation sends: `updateRole(role.id, body)`. */
  function SetDefaultCall(roleId: string): ApiService.ServiceCall
  {
    ApiService.Update(ApiService.Roles, roleId, ApiService.RoleFields(None, None, Some(true)))
  }

  function UpdateCall(roleId: string, form: FormValues): ApiService.ServiceCall
  {
    ApiService.Update(ApiService.Roles, roleId, ApiService.RoleFields(Some(form.name), Some(form.description), None))
  }

  class Menu {
    var role: Role                            // the row's role prop
    const cache: Cache<Role>                  // the "roles" query
    const toasts: ToastContext.ToastProvider
    var open: bool                            // the edit dialog
    var error: Option<string>
    var defaultError: Option<string>
    var form: FormValues                      // the edit form's current values
    var submitted: Option<FormValues>         // the update mutation's last variables
    var setDefaultPending: bool
    var updatePending: bool

    constructor (role: Role, cache: Cache<Role>, toasts: ToastContext.ToastProvider)
      ensures this.role == role && this.cache == cache && this.toasts == toasts
      ensures !open && error.None? && defaultError.None? && form == FormDefaults(role) && submitted.None?
      ensures !setDefaultPending && !updatePending
    {
      this.role := role;
      this.cache := cache;
      this.toasts := toasts;
      open := false;
      error := None;
      defaultError := None;
      form := FormDefaults(role);
      submitted := None;
      setDefaultPending := false;
      updatePending := false;
    }

    function Items(): seq<MenuItem>
      reads this
    {
      MenuItems(role, setDefaultPending)
    }

    /** A new `role` prop: the effect resets the form, and the defaults of later resets, to its values. */
    method RoleChanged(r: Role)
      modifies this
      ensures role == r && form == FormDefaults(r)
      ensures open == old(open) && error == old(error) && defaultError == old(defaultError)
      ensures submitted == old(submitted)
      ensures setDefaultPending == old(setDefaultPending) && updatePending == old(updatePending)
    {
      role := r;
      form := FormDefaults(r);
    }

    /**
      The table re-rendered after a write to the cached page replaced this
      role's row: the menu is handed the new row, and the form is reset to
      it. A role no longer on the page keeps the menu as it was.
    */
    method Rerender()
      modifies this
      ensures var row := ListedRole(cache.entry, old(role).id);
        && (row.Some? ==> role == row.value && form == FormDefaults(row.value))
        && (row.None? ==> role == old(role) && form == old(form))
      ensures role.id == old(role).id
      ensures open == old(open) && error == old(error) && defaultError == old(defaultError)
      ensures submitted == old(submitted)
      ensures setDefaultPending == old(setDefaultPending) && updatePending == old(updatePending)
    {
      match ListedRole(cache.entry, role.id)
      case Some(r) => RoleChanged(r);
      case None =>
    }

    /** "Edit role" opens the dialog. */
    method SelectEdit()
      modifies this
      ensures open
      ensures role == old(role) && error == old(error) && defaultError == old(defaultError) && form == old(form)
      ensures submitted == old(submitted)
      ensures setDefaultPending == old(setDefaultPending) && updatePending == old(updatePending)
    {
      open := true;
    }

    /** Typing into the form. */
    method EditForm(values: FormValues)
      modifies this
      ensures form == values
      ensures role == old(role) && open == old(open) && error == old(error) && defaultError == old(defaultError)
      ensures submitted == old(submitted)
      ensures setDefaultPending == old(setDefaultPending) && updatePending == old(updatePending)
    {
      form := values;
    }

    /** The set-default mutation's `onMutate`: snapshot the cache, then patch it. */
    method BeginSetAsDefault() returns (call: ApiService.ServiceCall, snapshot: Entry<Role>)
      modifies this, cache
      ensures call == SetDefaultCall(role.id)
      ensures snapshot == old(cache.entry)
      ensures cache.entry == SetDefaultPatch(old(cache.entry), role.id)
      ensures setDefaultPending
      ensures role == old(role) && open == old(open) && error == old(error) && defaultError == old(defaultError)
      ensures form == old(form) && submitted == old(submitted) && updatePending == old(updatePending)
    {
      call := SetDefaultCall(role.id);
      setDefaultPending := true;
      snapshot := cache.entry;
      cache.SetQueryData(SetDefaultPatch(cache.entry, role.id));
    }

    /**
      `onSuccess`: clear the error and announce it, naming the role as it was
      when the mutation started (the callbacks are those of that render); the
      patched cache stays until the next fetch.
    */
    method SetAsDefaultSucceeded(toastId: string, roleName: string)
      modifies this, toasts
      ensures defaultError.None? && !setDefaultPending
      ensures toasts.toasts == old(toasts.toasts) +
        [ToastContext.ToastMessage(toastId, ToastContext.Success, None, "Role " + roleName + " set as default successfully")]
      ensures toasts.open
      ensures role == old(role) && open == old(open) && error == old(error) && form == old(form)
      ensures submitted == old(submitted) && updatePending == old(updatePending)
    {
      setDefaultPending := false;
      defaultError := None;
      toasts.ShowToast(ToastContext.Success, "Role " + roleName + " set as default successfully", None, toastId);
    }

    /** `onError`: put the snapshot back when there is one, and show the message or the fallback. */
    method SetAsDefaultFailed(snapshot: Entry<Role>, message: string)
      modifies this, cache
      ensures cache.entry == Rollback(snapshot, old(cache.entry))
      ensures defaultError == Some(OrElse(Some(message), SetDefaultFallback)) && !setDefaultPending
      ensures role == old(role) && open == old(open) && error == old(error) && form == old(form)
      ensures submitted == old(submitted) && updatePending == old(updatePending)
    {
      setDefaultPending := false;
      if Truthy(snapshot) {
        cache.SetQueryData(snapshot);
      }
      defaultError := Some(OrElse(Some(message), SetDefaultFallback));
    }

    /**
      The whole set-default mutation, with the server's answer given: the
      patch, the re-render it causes, then success or the rollback and its
      re-render. A listed role ends flagged default on success (the menu then
      offers "Default role") and as it was before on failure, with the form
      reset to it either way.
    */
    method SetAsDefault(outcome: MutationOutcome, toastId: string) returns (call: ApiService.ServiceCall)
      modifies this, cache, toasts
      ensures call == SetDefaultCall(old(role).id)
      ensures outcome.Succeeded? ==>
        cache.entry == SetDefaultPatch(old(cache.entry), old(role).id) && defaultError.None?
      ensures outcome.Failed? ==>
        cache.entry == old(cache.entry) && defaultError == Some(OrElse(Some(outcome.message), SetDefaultFallback))
      ensures outcome.Succeeded? ==>
        && toasts.toasts == old(toasts.toasts) + [ToastContext.ToastMessage(toastId, ToastContext.Success, None,
          "Role " + old(role).name + " set as default successfully")]
        && toasts.open
      ensures outcome.Failed? ==> toasts.toasts == old(toasts.toasts) && toasts.open == old(toasts.open)
      ensures var row := ListedRole(old(cache.entry), old(role).id);
        && (row.Some? && outcome.Succeeded? ==> role == row.value.(isDefault := true) && Items()[1] == DefaultRoleLabel)
        && (row.Some? && outcome.Failed? ==> role == row.value)
        && (row.Some? ==> form == FormDefaults(row.value))
        && (row.None? ==> role == old(role) && form == old(form))
      ensures !setDefaultPending && open == old(open) && error == old(error) && submitted == old(submitted)
      ensures updatePending == old(updatePending)
    {
      var roleName := role.name;
      var snapshot;
      call, snapshot := BeginSetAsDefault();
      SetDefaultPatchRow(snapshot, role.id);
      Rerender();
      match outcome
      case Succeeded =>
        SetAsDefaultSucceeded(toastId, roleName);
      case Failed(message) =>
        SetAsDefaultFailed(snapshot, message);
        RollbackUndoesPatches(snapshot, role.id, form);
        Rerender();
    }

    /** The update mutation's `mutate(values)` and its `onMutate`: snapshot the cache, then patch it. */
    method Mutate(values: FormValues) returns (call: ApiService.ServiceCall, snapshot: Entry<Role>)
      modifies this, cache
      ensures call == UpdateCall(role.id, values)
      ensures snapshot == old(cache.entry)
      ensures cache.entry == UpdatePatch(old(cache.entry), role.id, values)
      ensures submitted == Some(values) && updatePending
      ensures role == old(role) && open == old(open) && error == old(error) && defaultError == old(defaultError)
      ensures form == old(form) && setDefaultPending == old(setDefaultPending)
    {
      call := UpdateCall(role.id, values);
      submitted := Some(values);
      updatePending := true;
      snapshot := cache.entry;
      cache.SetQueryData(UpdatePatch(cache.entry, role.id, values));
    }

    /**
      Submitting the form (Save, or Retry after an error). An empty name fails
      validation and nothing is sent; otherwise the form's values are mutated.
    */
    method Submit() returns (call: Option<ApiService.ServiceCall>, snapshot: Entry<Role>)
      modifies this, cache
      ensures call.Some? <==> FormValid(form)
      ensures call.Some? ==> call.value == UpdateCall(role.id, form)
      ensures snapshot == old(cache.entry)
      ensures FormValid(form) ==>
        cache.entry == UpdatePatch(old(cache.entry), role.id, form) && updatePending && submitted == Some(form)
      ensures !FormValid(form) ==>
        cache.entry == old(cache.entry) && updatePending == old(updatePending) && submitted == old(submitted)
      ensures role == old(role) && open == old(open) && error == old(error) && defaultError == old(defaultError)
      ensures form == old(form) && setDefaultPending == old(setDefaultPending)
    {
      snapshot := cache.entry;
      if !FormValid(form) {
        return None, snapshot;
      }
      var c;
      c, snapshot := Mutate(form);
      call := Some(c);
    }

    /**
      The Retry button as written: `handleSubmit(onSubmit)` submits whatever
      the form holds now, exactly as Save does. After a failed update that is
      the rolled-back role's values, not the ones that failed (see
      RetryAfterFailedRenameAsWritten).
    */
    method Retry() returns (call: Option<ApiService.ServiceCall>, snapshot: Entry<Role>)
      modifies this, cache
      ensures call.Some? <==> FormValid(form)
      ensures call.Some? ==> call.value == UpdateCall(role.id, form)
      ensures snapshot == old(cache.entry)
      ensures FormValid(form) ==>
        cache.entry == UpdatePatch(old(cache.entry), role.id, form) && updatePending && submitted == Some(form)
      ensures !FormValid(form) ==>
        cache.entry == old(cache.entry) && updatePending == old(updatePending) && submitted == old(submitted)
      ensures role == old(role) && open == old(open) && error == old(error) && defaultError == old(defaultError)
      ensures form == old(form) && setDefaultPending == old(setDefaultPending)
    {
      call, snapshot := Submit();
    }

    /**
      The Retry the dialog evidently intends: send again the values of the
      submission that failed (the mutation's last variables), whatever the
      form shows after the rollback. Before any submission it submits the form.
    */
    method ResubmitLast() returns (call: Option<ApiService.ServiceCall>, snapshot: Entry<Role>)
      modifies this, cache
      ensures old(submitted).Some? ==>
        && call == Some(UpdateCall(role.id, old(submitted).value))
        && cache.entry == UpdatePatch(old(cache.entry), role.id, old(submitted).value)
        && updatePending && submitted == old(submitted)
      ensures old(submitted).None? ==>
        && (call.Some? <==> FormValid(form))
        && (call.Some? ==> call.value == UpdateCall(role.id, form))
      ensures snapshot == old(cache.entry)
      ensures role == old(role) && open == old(open) && error == old(error) && defaultError == old(defaultError)
      ensures form == old(form) && setDefaultPending == old(setDefaultPending)
    {
      if submitted.Some? {
        var c;
        c, snapshot := Mutate(submitted.value);
        call := Some(c);
      } else {
        call, snapshot := Submit();
      }
    }

    /**
      `onSuccess` of the update: close the dialog, clear the error, and
      announce it, naming the role as it was when the mutation started.
    */
    method UpdateSucceeded(toastId: string, roleName: string)
      modifies this, toasts
      ensures !open && error.None? && !updatePending
      ensures toasts.toasts == old(toasts.toasts) +
        [ToastContext.ToastMessage(toastId, ToastContext.Success, None, "Role " + roleName + " updated successfully")]
      ensures toasts.open
      ensures role == old(role) && defaultError == old(defaultError) && form == old(form)
      ensures submitted == old(submitted) && setDefaultPending == old(setDefaultPending)
    {
      updatePending := false;
      open := false;
      error := None;
      toasts.ShowToast(ToastContext.Success, "Role " + roleName + " updated successfully", None, toastId);
    }

    /** `onError` of the update: roll back and show the message or the fallback; the dialog stays open. */
    method UpdateFailed(snapshot: Entry<Role>, message: string)
      modifies this, cache
      ensures cache.entry == Rollback(snapshot, old(cache.entry))
      ensures error == Some(OrElse(Some(message), UpdateFallback)) && !updatePending
      ensures role == old(role) && open == old(open) && defaultError == old(defaultError) && form == old(form)
      ensures submitted == old(submitted) && setDefaultPending == old(setDefaultPending)
    {
      updatePending := false;
      if Truthy(snapshot) {
        cache.SetQueryData(snapshot);
      }
      error := Some(OrElse(Some(message), UpdateFallback));
    }

    /**
      The whole update mutation from a submit, with the server's answer
      given: the patch and the re-render it causes, then success, or the
      rollback and its re-render. The patched row carries the submitted
      values, so the form keeps them while the call is out and after a
      success; after a failure the rolled-back row resets the form to the
      values the role had before the edit.
    */
    method Update(outcome: MutationOutcome, toastId: string) returns (call: Option<ApiService.ServiceCall>)
      modifies this, cache, toasts
      ensures call.Some? <==> FormValid(old(form))
      ensures call.Some? ==> call.value == UpdateCall(old(role).id, old(form)) && submitted == Some(old(form))
      ensures !FormValid(old(form)) ==>
        && cache.entry == old(cache.entry) && open == old(open) && error == old(error)
        && updatePending == old(updatePending) && role == old(role) && form == old(form)
      ensures FormValid(old(form)) && outcome.Succeeded? ==>
        && cache.entry == UpdatePatch(old(cache.entry), old(role).id, old(form)) && !open && error.None? && !updatePending
        && form == old(form)
      ensures FormValid(old(form)) && outcome.Failed? ==>
        && cache.entry == old(cache.entry) && open == old(open) && !updatePending
        && error == Some(OrElse(Some(outcome.message), UpdateFallback))
      ensures var row := ListedRole(old(cache.entry), old(role).id);
        && (FormValid(old(form)) && row.Some? && outcome.Succeeded? ==> role == MergeForm(row.value, old(form)))
        && (FormValid(old(form)) && row.Some? && outcome.Failed? ==> role == row.value && form == FormDefaults(row.value))
        && (row.None? ==> role == old(role) && form == old(form))
      ensures FormValid(old(form)) && outcome.Succeeded? ==>
        && toasts.toasts == old(toasts.toasts) + [ToastContext.ToastMessage(toastId, ToastContext.Success, None,
          "Role " + old(role).name + " updated successfully")]
        && toasts.open
      ensures !FormValid(old(form)) || outcome.Failed? ==>
        toasts.toasts == old(toasts.toasts) && toasts.open == old(toasts.open)
      ensures defaultError == old(defaultError) && setDefaultPending == old(setDefaultPending)
    {
      var roleName := role.name;
      var submittedForm := form;
      var snapshot;
      call, snapshot := Submit();
      if call.None? {
        return;
      }
      UpdatePatchRow(snapshot, role.id, submittedForm);
      Rerender();
      match ListedRole(snapshot, role.id) {
        case Some(r) => FormOfMergedRole(r, submittedForm);
        case None =>
      }
      match outcome
      case Succeeded =>
        UpdateSucceeded(toastId, roleName);
      case Failed(message) =>
        UpdateFailed(snapshot, message);
        RollbackUndoesPatches(snapshot, role.id, submittedForm);
        Rerender();
    }

    /** Cancel: close the dialog, reset the form to the current role's values, clear the error. */
    method Cancel()
      modifies this
      ensures !open && form == FormDefaults(role) && error.None?
      ensures role == old(role) && defaultError == old(defaultError) && submitted == old(submitted)
      ensures setDefaultPending == old(setDefaultPending) && updatePending == old(updatePending)
    {
      open := false;
      form := FormDefaults(role);
      error := None;
    }

    /** The dialog's `onOpenChange`: closing it also clears the error and resets the form. */
    method OpenChange(isOpen: bool)
      modifies this
      ensures open == isOpen
      ensures !isOpen ==> error.None? && form == FormDefaults(role)
      ensures isOpen ==> error == old(error) && form == old(form)
      ensures role == old(role) && defaultError == old(defaultError) && submitted == old(submitted)
      ensures setDefaultPending == old(setDefaultPending) && updatePending == old(updatePending)
    {
      open := isOpen;
      if !isOpen {
        error := None;
        form := FormDefaults(role);
      }
    }

    function DialogButton(): ActionButton
      reads this
    {
      ActionButtonFor(error, updatePending)
    }
  }

  // ----- a rename that the server refuses, then Retry -----

  const Admin := Role("r1", "2024-01-01", "2024-01-01", "Admin", None, false)

  /**
    As written: the user renames "Admin" to "Owner", the server refuses, the
    rollback hands the menu the old row and the form resets to it, so Retry
    sends the old name and the rename is lost.
  */
  method RetryAfterFailedRenameAsWritten() returns (sent: Option<ApiService.ServiceCall>)
    ensures sent == Some(UpdateCall("r1", FormValues("Admin", "")))
    ensures sent != Some(UpdateCall("r1", FormValues("Owner", "")))
  {
    var cache := new Cache(Paged(PagedData([Admin], None, None, 1)));
    var toasts := new ToastContext.ToastProvider();
    var menu := new Menu(Admin, cache, toasts);
    menu.SelectEdit();
    menu.EditForm(FormValues("Owner", ""));
    var saved := menu.Update(Failed("Server error"), "t1");
    var snapshot;
    sent, snapshot := menu.Retry();
  }

  /** Corrected: the same steps with ResubmitLast send the rename again. */
  method RetryAfterFailedRenameResubmits() returns (sent: Option<ApiService.ServiceCall>)
    ensures sent == Some(UpdateCall("r1", FormValues("Owner", "")))
  {
    var cache := new Cache(Paged(PagedData([Admin], None, None, 1)));
    var toasts := new ToastContext.ToastProvider();
    var menu := new Menu(Admin, cache, toasts);
    menu.SelectEdit();
    menu.EditForm(FormValues("Owner", ""));
    var saved := menu.Update(Failed("Server error"), "t1");
    var snapshot;
    sent, snapshot := menu.ResubmitLast();
  }
}
