/**
 * The notification queue (frontend core/services/toast.service.ts): `show` numbers
 * each toast from a private counter and appends it; `dismiss` removes a toast by id.
 * The timer that dismisses a toast after 3.5 seconds is a later `Dismiss` call.
 */
module Toasts {

  import opened Lists

  /** The three kinds of toast. */
  datatype ToastType = Success | Error | Info

  /** One visible notification. */
  datatype Toast = Toast(id: int, kind: ToastType, message: string)

  /** Ids grow strictly along the list, so no id occurs twice. */
  predicate Increasing(toasts: seq<Toast>) {
    forall i, j :: 0 <= i < j < |toasts| ==> toasts[i].id < toasts[j].id
  }

  /** Every id lies in 1..next: it came from the counter. */
  predicate IssuedUpTo(toasts: seq<Toast>, next: int) {
    forall i :: 0 <= i < |toasts| ==> 1 <= toasts[i].id <= next
  }

  /** The filter predicate of `dismiss(id)`: the toasts with another id. */
  function OtherToast(id: int): Toast -> bool {
    (t: Toast) => t.id != id
  }

  /** The list after `dismiss(id)`. */
  function Dismissed(toasts: seq<Toast>, id: int): seq<Toast> {
    Filter(toasts, OtherToast(id))
  }

  /** `ToastService`. */
  class ToastService {

    var toasts: seq<Toast>
    var next: int

    /** The counter is not negative and is at least every id handed out. */
    predicate Valid()
      reads this
    {
      0 <= next && Increasing(toasts) && IssuedUpTo(toasts, next)
    }

    /** An empty queue with the counter at 0. */
    constructor()
      ensures toasts == [] && next == 0 && Valid()
    {
      toasts := [];
      next := 0;
    }

    /** `show(type, message)`: `++next` becomes the id of the toast appended. */
    method Show(kind: ToastType, message: string)
      modifies this
      ensures next == old(next) + 1
      ensures toasts == old(toasts) + [Toast(next, kind, message)]
      ensures old(Valid()) ==> Valid()
    {
      next := next + 1;
      toasts := toasts + [Toast(next, kind, message)];
    }

    /** `dismiss(id)`. */
    method Dismiss(id: int)
      modifies this
      ensures next == old(next)
      ensures toasts == Dismissed(old(toasts), id)
      ensures old(Valid()) ==> Valid()
    {
      DismissedSpec(toasts, id);
      if Valid() {
        DismissedKeepsOrder(toasts, id, next);
      }
      toasts := Dismissed(toasts, id);
    }

    /** `success(msg)`. */
    method Success(message: string)
      modifies this
      ensures next == old(next) + 1
      ensures toasts == old(toasts) + [Toast(next, ToastType.Success, message)]
      ensures old(Valid()) ==> Valid()
    {
      Show(ToastType.Success, message);
    }

    /** `error(msg)`. */
    method Error(message: string)
      modifies this
      ensures next == old(next) + 1
      ensures toasts == old(toasts) + [Toast(next, ToastType.Error, message)]
      ensures old(Valid()) ==> Valid()
    {
      Show(ToastType.Error, message);
    }

    /** `info(msg)`. */
    method Info(message: string)
      modifies this
      ensures next == old(next) + 1
      ensures toasts == old(toasts) + [Toast(next, ToastType.Info, message)]
      ensures old(Valid()) ==> Valid()
    {
      Show(ToastType.Info, message);
    }
  }

  // ---------------------------------------------------------------------------
  // Properties
  // ---------------------------------------------------------------------------

  /** A toast numbered past the counter extends an increasing list. */
  lemma ShownKeepsOrder(toasts: seq<Toast>, next: int, t: Toast)
    requires 0 <= next && Increasing(toasts) && IssuedUpTo(toasts, next) && t.id == next + 1
    ensures Increasing(toasts + [t]) && IssuedUpTo(toasts + [t], next + 1)
  {
    var r := toasts + [t];
    forall i, j | 0 <= i < j < |r| ensures r[i].id < r[j].id {
      assert r[i] == toasts[i];
    }
  }

  /** `dismiss(id)` leaves no toast with that id, keeps every other one, and drops nothing
      when the id is absent. */
  lemma DismissedSpec(toasts: seq<Toast>, id: int)
    ensures var r := Dismissed(toasts, id);
      && (forall i :: 0 <= i < |r| ==> r[i].id != id && r[i] in toasts)
      && (forall i :: 0 <= i < |toasts| && toasts[i].id != id ==> toasts[i] in r)
      && ((forall i :: 0 <= i < |toasts| ==> toasts[i].id != id) ==> r == toasts)
  {
    if forall i :: 0 <= i < |toasts| ==> toasts[i].id != id {
      FilterAll(toasts, OtherToast(id));
    }
  }

  /** Dismissing keeps the ids increasing and within the counter. */
  lemma DismissedKeepsOrder(toasts: seq<Toast>, id: int, next: int)
    requires Increasing(toasts) && IssuedUpTo(toasts, next)
    ensures Increasing(Dismissed(toasts, id)) && IssuedUpTo(Dismissed(toasts, id), next)
  {
    FilterPairwise(toasts, OtherToast(id), (a: Toast, b: Toast) => a.id < b.id);
    var r := Dismissed(toasts, id);
    forall i | 0 <= i < |r| ensures 1 <= r[i].id <= next {
      var k :| 0 <= k < |toasts| && toasts[k] == r[i];
    }
  }

  /** In an increasing list, dismissing the toast at position k removes exactly that one. */
  lemma DismissedAt(toasts: seq<Toast>, k: nat)
    requires Increasing(toasts) && k < |toasts|
    ensures Dismissed(toasts, toasts[k].id) == toasts[..k] + toasts[k + 1..]
  {
    var id := toasts[k].id;
    assert toasts == toasts[..k] + [toasts[k]] + toasts[k + 1..];
    FilterConcat(toasts[..k] + [toasts[k]], toasts[k + 1..], OtherToast(id));
    FilterConcat(toasts[..k], [toasts[k]], OtherToast(id));
    FilterAll(toasts[..k], OtherToast(id));
    FilterAll(toasts[k + 1..], OtherToast(id));
    assert Filter([toasts[k]], OtherToast(id)) == [] by {
      assert [toasts[k]][..0] == [];
    }
  }

  /** Showing and then dismissing the new toast leaves the list as it was. */
  lemma ShowThenDismiss(toasts: seq<Toast>, next: int, kind: ToastType, message: string)
    requires 0 <= next && Increasing(toasts) && IssuedUpTo(toasts, next)
    ensures Dismissed(toasts + [Toast(next + 1, kind, message)], next + 1) == toasts
  {
    var t := Toast(next + 1, kind, message);
    ShownKeepsOrder(toasts, next, t);
    DismissedAt(toasts + [t], |toasts|);
    assert (toasts + [t])[..|toasts|] == toasts;
  }
}
