/** The frontend's toast notifications: a shared list of toasts, each with
    an id drawn from a counter, added by the `show*` helpers and removed by
    id, either on request or when its display time has run out. */
module UseToast {
  import Wrappers
  import opened Seqs

  datatype ToastType = Success | Error | Warning | Info

  /** How long a toast stays when the caller gives no duration, in ms. */
  const DefaultDuration := 4000

  datatype Toast = Toast(id: nat, kind: ToastType, message: string)

  /** The filter callback `(t) => t.id !== id`. */
  function NotId(id: int): Toast -> bool
  {
    (t: Toast) => t.id != id
  }

  /** `toasts.filter((t) => t.id !== id)`. */
  function Removed(ts: seq<Toast>, id: int): (r: seq<Toast>)
    ensures |r| <= |ts|
    ensures forall t :: t in r ==> t in ts && t.id != id
  {
    FilterMembers(NotId(id), ts);
    Filter(NotId(id), ts)
  }

  /** Removal drops exactly the toasts with that id: a toast is left
      precisely when it was there and carries another id. */
  lemma RemovedMembers(ts: seq<Toast>, id: int)
    ensures forall t :: t in Removed(ts, id) <==> t in ts && t.id != id
  {
    forall t | t in ts && t.id != id
      ensures t in Removed(ts, id)
    {
      var i :| 0 <= i < |ts| && ts[i] == t;
      FilterKeeps(NotId(id), ts, i);
    }
  }

  /** The toasts that are left keep their original order. */
  lemma RemovedKeepsOrder(ts: seq<Toast>, id: int)
    ensures IsSubsequence(Removed(ts, id), ts)
  {
    FilterIsSubsequence(NotId(id), ts);
  }

  /** Removing an id that no toast carries changes nothing. */
  lemma RemoveAbsent(ts: seq<Toast>, id: int)
    requires forall i :: 0 <= i < |ts| ==> ts[i].id != id
    ensures Removed(ts, id) == ts
  {
    FilterAllKept(NotId(id), ts);
  }

  /** Removing twice is removing once. */
  lemma RemoveIdempotent(ts: seq<Toast>, id: int)
    ensures Removed(Removed(ts, id), id) == Removed(ts, id)
  {
    FilterIdempotent(NotId(id), ts);
  }

  /** Ids strictly increase along the list, so no two toasts share one. */
  ghost predicate IdsIncreasing(ts: seq<Toast>)
  {
    forall i, j :: 0 <= i < j < |ts| ==> ts[i].id < ts[j].id
  }

  /** Leaving toasts out keeps ids increasing. */
  lemma EmbeddedIdsIncreasing(a: seq<Toast>, b: seq<Toast>, idx: seq<nat>)
    requires Embeds(a, b, idx) && IdsIncreasing(b)
    ensures IdsIncreasing(a)
  {
    forall i, j | 0 <= i < j < |a|
      ensures a[i].id < a[j].id
    {
      assert idx[i] < idx[j];
    }
  }

  lemma RemovedIdsIncreasing(ts: seq<Toast>, id: int)
    requires IdsIncreasing(ts)
    ensures IdsIncreasing(Removed(ts, id))
  {
    EmbeddedIdsIncreasing(Removed(ts, id), ts, FilterIndices(NotId(id), ts));
  }

  /** The duration a call ends up with: the argument, or the default when
      it is left out. */
  function EffectiveDuration(duration: Wrappers.Option<int>): (d: int)
    ensures duration.None? ==> d == DefaultDuration
    ensures duration.Some? ==> d == duration.value
  {
    if duration.Some? then duration.value else DefaultDuration
  }

  /** The toast list and the id counter, shared by every user of the
      composable. */
  class ToastQueue {
    var toasts: seq<Toast>
    var nextId: nat

    /** Toast ids strictly increase along the list and are all below the
        next id to be handed out. */
    ghost predicate Valid()
      reads this
    {
      && IdsIncreasing(toasts)
      && forall i :: 0 <= i < |toasts| ==> toasts[i].id < nextId
    }

    constructor ()
      ensures Valid() && toasts == [] && nextId == 0
    {
      toasts, nextId := [], 0;
    }

    /** `addToast`: the new toast takes the current counter value, which is
        then incremented, and goes at the end of the list. When the effective
        duration is positive a timer is scheduled for the new toast's id;
        the returned timer stands for it. */
    method AddToast(kind: ToastType, message: string, duration: Wrappers.Option<int>) returns (timer: Wrappers.Option<nat>)
      requires Valid()
      modifies this
      ensures Valid()
      ensures toasts == old(toasts) + [Toast(old(nextId), kind, message)]
      ensures nextId == old(nextId) + 1
      ensures timer.Some? <==> EffectiveDuration(duration) > 0
      ensures timer.Some? ==> timer.value == old(nextId)
    {
      var id := nextId;
      nextId := nextId + 1;
      toasts := toasts + [Toast(id, kind, message)];
      if EffectiveDuration(duration) > 0 {
        timer := Wrappers.Some(id);
      } else {
        timer := Wrappers.None;
      }
    }

    /** `removeToast`: every toast with the id goes, the rest stay as they
        were, in order; the counter is untouched. */
    method RemoveToast(id: int)
      requires Valid()
      modifies this
      ensures Valid()
      ensures toasts == Removed(old(toasts), id)
      ensures nextId == old(nextId)
    {
      RemovedIdsIncreasing(toasts, id);
      toasts := Removed(toasts, id);
    }

    /** The scheduled timer for toast `id` running out. */
    method Dismiss(id: nat)
      requires Valid()
      modifies this
      ensures Valid()
      ensures toasts == Removed(old(toasts), id)
      ensures nextId == old(nextId)
    {
      RemovedIdsIncreasing(toasts, id);
      toasts := Removed(toasts, id);
    }

    method ShowSuccess(message: string, duration: Wrappers.Option<int>) returns (timer: Wrappers.Option<nat>)
      requires Valid()
      modifies this
      ensures Valid()
      ensures toasts == old(toasts) + [Toast(old(nextId), Success, message)]
      ensures nextId == old(nextId) + 1
      ensures timer.Some? <==> EffectiveDuration(duration) > 0
      ensures timer.Some? ==> timer.value == old(nextId)
    {
      timer := AddToast(Success, message, duration);
    }

    method ShowError(message: string, duration: Wrappers.Option<int>) returns (timer: Wrappers.Option<nat>)
      requires Valid()
      modifies this
      ensures Valid()
      ensures toasts == old(toasts) + [Toast(old(nextId), Error, message)]
      ensures nextId == old(nextId) + 1
      ensures timer.Some? <==> EffectiveDuration(duration) > 0
      ensures timer.Some? ==> timer.value == old(nextId)
    {
      timer := AddToast(Error, message, duration);
    }

    method ShowWarning(message: string, duration: Wrappers.Option<int>) returns (timer: Wrappers.Option<nat>)
      requires Valid()
      modifies this
      ensures Valid()
      ensures toasts == old(toasts) + [Toast(old(nextId), Warning, message)]
      ensures nextId == old(nextId) + 1
      ensures timer.Some? <==> EffectiveDuration(duration) > 0
      ensures timer.Some? ==> timer.value == old(nextId)
    {
      timer := AddToast(Warning, message, duration);
    }

    method ShowInfo(message: string, duration: Wrappers.Option<int>) returns (timer: Wrappers.Option<nat>)
      requires Valid()
      modifies this
      ensures Valid()
      ensures toasts == old(toasts) + [Toast(old(nextId), Info, message)]
      ensures nextId == old(nextId) + 1
      ensures timer.Some? <==> EffectiveDuration(duration) > 0
      ensures timer.Some? ==> timer.value == old(nextId)
    {
      timer := AddToast(Info, message, duration);
    }
  }

  /** Two toasts shown and the first dismissed by its timer: the second is
      left alone with id 1; a toast shown with duration 0 gets no timer. */
  method ShowAndDismiss(first: string, second: string) returns (left: seq<Toast>, sticky: Wrappers.Option<nat>)
    ensures left == [Toast(1, Error, second)]
    ensures sticky == Wrappers.None
  {
    var queue := new ToastQueue();
    var timer := queue.ShowSuccess(first, Wrappers.None);
    var _ := queue.ShowError(second, Wrappers.None);
    var t0, t1 := Toast(0, Success, first), Toast(1, Error, second);
    assert queue.toasts == [t0] + [t1];
    FilterSnoc(NotId(0), [], t0);
    FilterSnoc(NotId(0), [t0], t1);
    queue.Dismiss(timer.value);
    left := queue.toasts;
    sticky := queue.ShowInfo(first, Wrappers.Some(0));
  }
}
