/**
  The actions menu of a user row (client/src/components/Users/UserActionsMenu.tsx):
  "Delete user" opens a confirmation dialog whose Delete (or, after a
  failure, Retry) button deletes the user, removing it optimistically from
  the cached users page and restoring the snapshot when the server refuses.
*/
module UserActionsMenu {
  import opened Types
  import opened QueryCache
  import ApiService
  import ToastContext

  /** The users of the page other than those with id `userId`, in their order. */
  function WithoutUser(users: seq<User>, userId: string): (r: seq<User>)
    ensures |r| <= |users|
    ensures forall u :: u in r <==> u in users && u.id != userId
    decreases |users|
  {
    if users == [] then []
    else if users[0].id != userId then [users[0]] + WithoutUser(users[1..], userId)
    else WithoutUser(users[1..], userId)
  }

  /** The delete patch of the cached users page; an entry without a page is left as it is. */
  function DeletePatch(entry: Entry<User>, userId: string): (r: Entry<User>)
    ensures !entry.Paged? ==> r == entry
    ensures entry.Paged? ==> r == Paged(entry.page.(data := WithoutUser(entry.page.data, userId)))
  {
    match entry
    case Paged(page) => Paged(page.(data := WithoutUser(page.data, userId)))
    case _ => entry
  }

  /** Removal works piecewise, so the users that stay keep their relative order. */
  lemma {:induction false} WithoutUserAppend(a: seq<User>, b: seq<User>, userId: string)
    ensures WithoutUser(a + b, userId) == WithoutUser(a, userId) + WithoutUser(b, userId)
    decreases |a|
  {
    if a == [] {
      assert a + b == b;
    } else {
      assert (a + b)[0] == a[0];
      assert (a + b)[1..] == a[1..] + b;
      WithoutUserAppend(a[1..], b, userId);
    }
  }

  /** Deleting a user whose id is not on the page changes nothing. */
  lemma {:induction false} WithoutAbsentUser(users: seq<User>, userId: string)
    requires forall i :: 0 <= i < |users| ==> users[i].id != userId
    ensures WithoutUser(users, userId) == users
    decreases |users|
  {
    if users != [] {
      WithoutAbsentUser(users[1..], userId);
    }
  }

  /** Applying the delete patch twice is applying it once. */
  lemma DeleteIdempotent(entry: Entry<User>, userId: string)
    ensures DeletePatch(DeletePatch(entry, userId), userId) == DeletePatch(entry, userId)
  {
    if entry.Paged? {
      var once := WithoutUser(entry.page.data, userId);
      forall i | 0 <= i < |once|
        ensures once[i].id != userId
      {
        assert once[i] in once;
      }
      WithoutAbsentUser(once, userId);
    }
  }

  predicate UniqueIds(users: seq<User>)
  {
    forall i, j :: 0 <= i < j < |users| ==> users[i].id != users[j].id
  }

  /**
    On a page with distinct ids the delete removes exactly one row when the
    user is on the page and none otherwise.
  */
  lemma {:induction false} DeleteRemovesOneRow(users: seq<User>, userId: string)
    requires UniqueIds(users)
    ensures (exists i :: 0 <= i < |users| && users[i].id == userId) ==> |WithoutUser(users, userId)| == |users| - 1
    ensures (forall i :: 0 <= i < |users| ==> users[i].id != userId) ==> |WithoutUser(users, userId)| == |users|
    decreases |users|
  {
    if users == [] {
    } else if users[0].id == userId {
      WithoutAbsentUser(users[1..], userId);
    } else {
      DeleteRemovesOneRow(users[1..], userId);
      if exists i :: 0 <= i < |users| && users[i].id == userId {
        var i :| 0 <= i < |users| && users[i].id == userId;
        assert users[1..][i - 1].id == userId;
      }
      if forall i :: 0 <= i < |users| ==> users[i].id != userId {
        WithoutAbsentUser(users, userId);
      }
    }
  }

  /** The patch keeps the page metadata, and rolling back to its snapshot undoes it. */
  lemma DeleteKeepsMetadataAndRollsBack(snapshot: Entry<User>, userId: string)
    ensures snapshot.Paged? ==> var p := DeletePatch(snapshot, userId).page;
      p.next == snapshot.page.next && p.prev == snapshot.page.prev && p.pages == snapshot.page.pages
    ensures Rollback(snapshot, DeletePatch(snapshot, userId)) == snapshot
  {
  }

  const DeleteFallback := "Something went wrong. Please try again."

  function DeleteCall(userId: string): ApiService.ServiceCall
  {
    ApiService.Delete(ApiService.Users, userId)
  }

  function DeletedMessage(userName: string): string
  {
    "User " + userName + " has been successfully deleted."
  }

  datatype ActionButton = RetryButton(disabled: bool) | DeleteButton(disabled: bool)

  /** The confirmation dialog's action button: Retry replaces Delete exactly when an error is shown. */
  function ActionButtonFor(error: Option<string>, pending: bool): (b: ActionButton)
    ensures b.RetryButton? <==> StringTruthy(error)
    ensures b.disabled == pending
  {
    if StringTruthy(error) then RetryButton(pending) else DeleteButton(pending)
  }

  /**
    Whether the cached page lists a user with id `userId`. The users table
    keys its rows by user id, so this is whether the user's row, and the
    actions menu inside it, is on screen.
  */
  predicate ListedUser(entry: Entry<User>, userId: string)
  {
    entry.Paged? && exists i :: 0 <= i < |entry.page.data| && entry.page.data[i].id == userId
  }

  /** After the delete patch the user is listed nowhere, so its row is gone. */
  lemma DeleteUnlists(entry: Entry<User>, userId: string)
    ensures !ListedUser(DeletePatch(entry, userId), userId)
  {
    if entry.Paged? {
      var rest := WithoutUser(entry.page.data, userId);
      forall i | 0 <= i < |rest|
        ensures rest[i].id != userId
      {
        assert rest[i] in rest;
      }
    }
  }

  /**
    The actions menu of one user row. React keeps a component's state only
    while it is mounted: `mounted` says whether the row is on screen, and a
    state update made while it is not is lost.
  */
  class Menu {
    const userId: string
    const userName: string
    const cache: Cache<User>                  // the "users" query
    const toasts: ToastContext.ToastProvider
    var mounted: bool                         // the user's row is rendered
    var confirmDeleteOpen: bool
    var error: Option<string>
    var pending: bool

    constructor (userId: string, userName: string, cache: Cache<User>, toasts: ToastContext.ToastProvider)
      ensures this.userId == userId && this.userName == userName
      ensures this.cache == cache && this.toasts == toasts
      ensures mounted && !confirmDeleteOpen && error.None? && !pending
    {
      this.userId := userId;
      this.userName := userName;
      this.cache := cache;
      this.toasts := toasts;
      mounted := true;
      confirmDeleteOpen := false;
      error := None;
      pending := false;
    }

    /**
      The table re-rendered after a write to the cached page. A user no
      longer listed loses its row and this menu with it; a user listed again
      gets a new row whose menu starts from the initial state.
    */
    method Rerender()
      modifies this
      ensures mounted == ListedUser(cache.entry, userId)
      ensures !old(mounted) && mounted ==> !confirmDeleteOpen && error.None? && !pending
      ensures old(mounted) || !mounted ==>
        confirmDeleteOpen == old(confirmDeleteOpen) && error == old(error) && pending == old(pending)
    {
      var listed := ListedUser(cache.entry, userId);
      if listed && !mounted {
        confirmDeleteOpen := false;
        error := None;
        pending := false;
      }
      mounted := listed;
    }

    /** Whether the confirmation dialog is on screen. */
    function DialogShown(): bool
      reads this
    {
      mounted && confirmDeleteOpen
    }

    /** "Delete user" opens the confirmation dialog. */
    method SelectDelete()
      modifies this
      ensures confirmDeleteOpen && error == old(error) && pending == old(pending) && mounted == old(mounted)
    {
      confirmDeleteOpen := true;
    }

    /** The dialog's `onOpenChange` and its Cancel button set only the open flag: an error shown stays. */
    method OpenChange(isOpen: bool)
      modifies this
      ensures confirmDeleteOpen == isOpen && error == old(error) && pending == old(pending) && mounted == old(mounted)
    {
      confirmDeleteOpen := isOpen;
    }

    /**
      The mutation's `onMutate`: snapshot the cache, then remove the user
      from it. The table then drops the user's row, and this menu and its
      dialog are unmounted while the request is out.
    */
    method HandleDelete() returns (call: ApiService.ServiceCall, snapshot: Entry<User>)
      modifies this, cache
      ensures call == DeleteCall(userId)
      ensures snapshot == old(cache.entry)
      ensures cache.entry == DeletePatch(old(cache.entry), userId)
      ensures !mounted && !DialogShown()
      ensures pending && confirmDeleteOpen == old(confirmDeleteOpen) && error == old(error)
    {
      call := DeleteCall(userId);
      pending := true;
      snapshot := cache.entry;
      cache.SetQueryData(DeletePatch(cache.entry, userId));
      DeleteUnlists(snapshot, userId);
      Rerender();
    }

    /** Retry runs the same mutation: the same request, the same patch and the same unmount as Delete. */
    method HandleRetry() returns (call: ApiService.ServiceCall, snapshot: Entry<User>)
      modifies this, cache
      ensures call == DeleteCall(userId)
      ensures snapshot == old(cache.entry)
      ensures cache.entry == DeletePatch(old(cache.entry), userId)
      ensures !mounted && !DialogShown()
      ensures pending && confirmDeleteOpen == old(confirmDeleteOpen) && error == old(error)
    {
      call, snapshot := HandleDelete();
    }

    /**
      `onSuccess`: announce the deletion. Closing the dialog and clearing the
      error take effect only on a mounted menu.
    */
    method DeleteSucceeded(toastId: string)
      modifies this, toasts
      ensures mounted == old(mounted)
      ensures old(mounted) ==> !confirmDeleteOpen && error.None? && !pending
      ensures !old(mounted) ==>
        confirmDeleteOpen == old(confirmDeleteOpen) && error == old(error) && pending == old(pending)
      ensures toasts.toasts == old(toasts.toasts) +
        [ToastContext.ToastMessage(toastId, ToastContext.Success, None, DeletedMessage(userName))]
      ensures toasts.open
    {
      if mounted {
        pending := false;
        confirmDeleteOpen := false;
        error := None;
      }
      toasts.ShowToast(ToastContext.Success, DeletedMessage(userName), None, toastId);
    }

    /**
      `onError`: restore the snapshot when there is one. The message, or the
      fallback, reaches the dialog only when the menu is still mounted.
    */
    method DeleteFailed(snapshot: Entry<User>, message: string)
      modifies this, cache
      ensures cache.entry == Rollback(snapshot, old(cache.entry))
      ensures mounted == old(mounted) && confirmDeleteOpen == old(confirmDeleteOpen)
      ensures old(mounted) ==> error == Some(OrElse(Some(message), DeleteFallback)) && !pending
      ensures !old(mounted) ==> error == old(error) && pending == old(pending)
    {
      if Truthy(snapshot) {
        cache.SetQueryData(snapshot);
      }
      if mounted {
        pending := false;
        error := Some(OrElse(Some(message), DeleteFallback));
      }
    }

    /**
      The whole delete from the dialog, with the server's answer given. The
      patch unmounts the menu before the answer arrives. On a refusal the
      rollback brings the user back with a new menu: its dialog is closed,
      it shows no error, and it offers Delete rather than Retry.
    */
    method Delete(outcome: MutationOutcome, toastId: string) returns (call: ApiService.ServiceCall)
      modifies this, cache, toasts
      ensures call == DeleteCall(userId)
      ensures !DialogShown()
      ensures outcome.Succeeded? ==>
        && cache.entry == DeletePatch(old(cache.entry), userId) && !mounted
        && toasts.toasts == old(toasts.toasts) +
          [ToastContext.ToastMessage(toastId, ToastContext.Success, None, DeletedMessage(userName))]
      ensures outcome.Failed? ==>
        && cache.entry == old(cache.entry) && toasts.toasts == old(toasts.toasts)
        && mounted == ListedUser(old(cache.entry), userId)
        && (mounted ==> !confirmDeleteOpen && error.None? && !pending && DialogButton() == DeleteButton(false))
    {
      var snapshot;
      call, snapshot := HandleDelete();
      match outcome
      case Succeeded =>
        DeleteSucceeded(toastId);
      case Failed(message) =>
        DeleteFailed(snapshot, message);
        DeleteKeepsMetadataAndRollsBack(snapshot, userId);
        Rerender();
    }

    function DialogButton(): ActionButton
      reads this
    {
      ActionButtonFor(error, pending)
    }
  }

  /**
    The dialog as evidently intended: its state is held above the rows, so
    the optimistic removal of the user's row does not take it away. A
    refused delete leaves the dialog open with the error and a Retry button,
    and Retry runs the same delete again.
  */
  class DeleteDialog {
    const userId: string
    const userName: string
    const cache: Cache<User>
    const toasts: ToastContext.ToastProvider
    var open: bool
    var error: Option<string>
    var pending: bool

    constructor (userId: string, userName: string, cache: Cache<User>, toasts: ToastContext.ToastProvider)
      ensures this.userId == userId && this.userName == userName
      ensures this.cache == cache && this.toasts == toasts
      ensures !open && error.None? && !pending
    {
      this.userId := userId;
      this.userName := userName;
      this.cache := cache;
      this.toasts := toasts;
      open := false;
      error := None;
      pending := false;
    }

    method SelectDelete()
      modifies this
      ensures open && error == old(error) && pending == old(pending)
    {
      open := true;
    }

    /** Delete, or Retry after a refusal: the same request, patch and rollback as the row's menu. */
    method Confirm(outcome: MutationOutcome, toastId: string) returns (call: ApiService.ServiceCall)
      modifies this, cache, toasts
      ensures call == DeleteCall(userId) && !pending
      ensures outcome.Succeeded? ==>
        && cache.entry == DeletePatch(old(cache.entry), userId) && !open && error.None?
        && toasts.toasts == old(toasts.toasts) +
          [ToastContext.ToastMessage(toastId, ToastContext.Success, None, DeletedMessage(userName))]
      ensures outcome.Failed? ==>
        && cache.entry == old(cache.entry) && toasts.toasts == old(toasts.toasts) && open == old(open)
        && error == Some(OrElse(Some(outcome.message), DeleteFallback)) && DialogButton() == RetryButton(false)
    {
      call := DeleteCall(userId);
      var snapshot := cache.entry;
      cache.SetQueryData(DeletePatch(cache.entry, userId));
      pending := false;
      match outcome
      case Succeeded =>
        open := false;
        error := None;
        toasts.ShowToast(ToastContext.Success, DeletedMessage(userName), None, toastId);
      case Failed(message) =>
        if Truthy(snapshot) {
          cache.SetQueryData(snapshot);
        }
        DeleteKeepsMetadataAndRollsBack(snapshot, userId);
        error := Some(OrElse(Some(message), DeleteFallback));
    }

    function DialogButton(): ActionButton
      reads this
    {
      ActionButtonFor(error, pending)
    }
  }

  // ----- a delete that the server refuses -----

  const Ann := User("u1", "2024-01-01", "2024-01-01", "Ann", "Lee", "r1", None)
  const Bob := User("u2", "2024-01-01", "2024-01-01", "Bob", "Kim", "r1", None)

  /**
    As written: Ann's delete is refused. The rollback brings her row back
    with a new menu, so no dialog, no error and no toast is shown, and the
    menu offers Delete, not Retry.
  */
  method RefusedDeleteIsSilent() returns (shown: bool, error: Option<string>, button: ActionButton, notices: seq<ToastContext.ToastMessage>)
    ensures !shown && error.None? && button == DeleteButton(false) && notices == []
  {
    var cache := new Cache(Paged(PagedData([Ann, Bob], None, None, 1)));
    var toasts := new ToastContext.ToastProvider();
    var menu := new Menu(Ann.id, Ann.first, cache, toasts);
    menu.SelectDelete();
    assert cache.entry.page.data[0].id == "u1";
    var call := menu.Delete(Failed("Server error"), "t1");
    shown := menu.DialogShown();
    error := menu.error;
    button := menu.DialogButton();
    notices := toasts.toasts;
  }

  /** Corrected: the same refusal keeps the dialog open with the error, and Retry sends the delete again. */
  method RefusedDeleteOffersRetry() returns (shown: bool, error: Option<string>, button: ActionButton, retried: ApiService.ServiceCall)
    ensures shown && error == Some("Server error") && button == RetryButton(false)
    ensures retried == DeleteCall("u1")
  {
    var cache := new Cache(Paged(PagedData([Ann, Bob], None, None, 1)));
    var toasts := new ToastContext.ToastProvider();
    var dialog := new DeleteDialog(Ann.id, Ann.first, cache, toasts);
    dialog.SelectDelete();
    var call := dialog.Confirm(Failed("Server error"), "t1");
    shown := dialog.open;
    error := dialog.error;
    button := dialog.DialogButton();
    retried := dialog.Confirm(Succeeded, "t2");
  }
}
