/**
  The toast notification system (client/src/context/ToastContext.tsx): a
  provider holding the list of pending toasts and an `open` flag; the toast on
  display is the oldest one. Toast ids are parameters (the source draws them
  from the clock and a random number), and the 5-second auto-hide timer is
  not modelled: a caller hides a toast by calling HideToast.
*/
module ToastContext {
  import opened Types

  datatype ToastType = Success | Error

  datatype ToastMessage = ToastMessage(id: string, kind: ToastType, title: Option<string>, message: string)

  /** The toasts whose id is not `id`, in their order (`prevToasts.filter(t => t.id !== id)`). */
  function WithoutToast(toasts: seq<ToastMessage>, id: string): (r: seq<ToastMessage>)
    ensures |r| <= |toasts|
    ensures forall i :: 0 <= i < |r| ==> r[i].id != id
    decreases |toasts|
  {
    if toasts == [] then []
    else if toasts[0].id == id then WithoutToast(toasts[1..], id)
    else [toasts[0]] + WithoutToast(toasts[1..], id)
  }

  /** The filtered list holds exactly the toasts whose id differs. */
  lemma {:induction false} WithoutToastMembers(toasts: seq<ToastMessage>, id: string)
    ensures forall t :: t in WithoutToast(toasts, id) <==> t in toasts && t.id != id
    decreases |toasts|
  {
    if toasts != [] {
      WithoutToastMembers(toasts[1..], id);
      assert toasts == [toasts[0]] + toasts[1..];
    }
  }

  /** Removal distributes over concatenation, so the toasts that stay keep their order. */
  lemma {:induction false} WithoutToastAppend(a: seq<ToastMessage>, b: seq<ToastMessage>, id: string)
    ensures WithoutToast(a + b, id) == WithoutToast(a, id) + WithoutToast(b, id)
    decreases |a|
  {
    if a == [] {
      assert a + b == b;
    } else {
      assert (a + b)[0] == a[0];
      assert (a + b)[1..] == a[1..] + b;
      WithoutToastAppend(a[1..], b, id);
    }
  }

  /** Hiding an id no toast carries leaves the list as it is. */
  lemma {:induction false} WithoutUnknownId(toasts: seq<ToastMessage>, id: string)
    requires forall i :: 0 <= i < |toasts| ==> toasts[i].id != id
    ensures WithoutToast(toasts, id) == toasts
    decreases |toasts|
  {
    if toasts != [] {
      WithoutUnknownId(toasts[1..], id);
      assert [toasts[0]] + toasts[1..] == toasts;
    }
  }

  /** Hiding the same id twice is the same as hiding it once. */
  lemma WithoutToastIdempotent(toasts: seq<ToastMessage>, id: string)
    ensures WithoutToast(WithoutToast(toasts, id), id) == WithoutToast(toasts, id)
  {
    var once := WithoutToast(toasts, id);
    WithoutUnknownId(once, id);
  }

  /** A toast shown and then hidden by its own, fresh id leaves the earlier toasts as they were. */
  lemma ShowThenHide(toasts: seq<ToastMessage>, t: ToastMessage)
    requires forall i :: 0 <= i < |toasts| ==> toasts[i].id != t.id
    ensures WithoutToast(toasts + [t], t.id) == toasts
  {
    WithoutToastAppend(toasts, [t], t.id);
    WithoutUnknownId(toasts, t.id);
    assert WithoutToast([t], t.id) == [] by {
      assert [t][1..] == [];
    }
  }

  class ToastProvider {
    var toasts: seq<ToastMessage>
    var open: bool

    constructor ()
      ensures toasts == [] && !open
    {
      toasts := [];
      open := false;
    }

    /** `showToast(type, message, title)`, with the id it would generate given as `id`. */
    method ShowToast(kind: ToastType, message: string, title: Option<string>, id: string)
      modifies this
      ensures toasts == old(toasts) + [ToastMessage(id, kind, title, message)]
      ensures open
    {
      toasts := toasts + [ToastMessage(id, kind, title, message)];
      open := true;
    }

    /**
      `hideToast(id)`: drops every toast with that id; closes the toast
      region when the list held at most one toast before the removal,
      whether or not that toast had the id.
    */
    method HideToast(id: string)
      modifies this
      ensures toasts == WithoutToast(old(toasts), id)
      ensures open == (if |old(toasts)| <= 1 then false else old(open))
    {
      var before := toasts;
      toasts := WithoutToast(toasts, id);
      if |before| <= 1 {
        open := false;
      }
    }

    /** The region's `onOpenChange`. */
    method SetOpen(isOpen: bool)
      modifies this
      ensures toasts == old(toasts) && open == isOpen
    {
      open := isOpen;
    }

    /** The toast on display: the first, oldest, one; none when the list is empty. */
    function ActiveToast(): (t: Option<ToastMessage>)
      reads this
      ensures t.Some? <==> toasts != []
      ensures t.Some? ==> t.value == toasts[0] && t.value in toasts
    {
      if toasts == [] then None else Some(toasts[0])
    }

    /** The close button of the toast on display hides that toast. */
    method CloseActiveToast()
      requires ActiveToast().Some?
      modifies this
      ensures toasts == WithoutToast(old(toasts), old(toasts)[0].id)
      ensures open == (if |old(toasts)| <= 1 then false else old(open))
    {
      HideToast(toasts[0].id);
    }
  }

  datatype UseToastResult = Provided(provider: ToastProvider) | UsedOutsideProvider(message: string)

  /** `useToast()`: the provider in scope, or the error thrown when there is none. */
  function UseToast(context: Option<ToastProvider>): (r: UseToastResult)
    ensures context.Some? <==> r.Provided?
    ensures context.Some? ==> r.provider == context.value
    ensures context.None? ==> r.message == "useToast must be used within a ToastProvider"
  {
    match context
    case Some(p) => Provided(p)
    case None => UsedOutsideProvider("useToast must be used within a ToastProvider")
  }
}
