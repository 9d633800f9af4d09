/** The one-shot timers the component obtains from its timer mixin,
    as the component uses them: `setTimeout` returns a fresh truthy handle,
    `clearTimeout` cancels the timer with that handle if it is still
    pending and is harmless on `null` or on a handle that already fired.
    Wall-clock time is not modelled: a pending timer may fire at any point
    between two events, and the order of firings is the caller's choice. */
module Timers {
  import opened Config

  datatype Option<T> = None | Some(value: T)

  /** What a timer runs when it fires: the deferred show of a grant, the
      bound `_hideActive`, the deferred `_onPressOut`, the deferred `_onPress`. */
  datatype Job = ShowJob | HideJob | PressOutJob | PressJob

  datatype Timer = Timer(handle: nat, job: Job, delay: Delay)

  /** The pending timers, oldest first, and the handle the next
      `setTimeout` returns. */
  datatype Timers = Timers(pending: seq<Timer>, next: nat)

  /** Pending handles are positive, below `next` and strictly increasing
      (so no two pending timers share a handle). */
  ghost predicate Ordered(q: Timers) {
    1 <= q.next &&
    (forall i :: 0 <= i < |q.pending| ==> 1 <= q.pending[i].handle < q.next) &&
    Increasing(q.pending)
  }

  ghost predicate Increasing(p: seq<Timer>) {
    forall i, j :: 0 <= i < j < |p| ==> p[i].handle < p[j].handle
  }

  predicate IsPending(q: Timers, h: nat) {
    exists t :: t in q.pending && t.handle == h
  }

  const NoTimers: Timers := Timers([], 1)

  /** `setTimeout(job, delay)`: schedules a new timer under the handle
      `q.next`, which no pending timer holds. */
  function SetTimeout(q: Timers, job: Job, delay: Delay): (r: Timers)
    ensures Ordered(q) ==> Ordered(r) && !IsPending(q, q.next)
    ensures IsPending(r, q.next) && r.next > q.next
    ensures forall t :: t in r.pending <==> t in q.pending || t == Timer(q.next, job, delay)
  {
    Timers(q.pending + [Timer(q.next, job, delay)], q.next + 1)
  }

  /** The timers of `p` whose handle is not `h`, in their order. */
  function Remove(p: seq<Timer>, h: nat): (r: seq<Timer>)
    ensures forall t :: t in r <==> t in p && t.handle != h
    ensures Increasing(p) ==> Increasing(r)
    ensures |r| <= |p|
  {
    if p == [] then []
    else if p[0].handle == h then Remove(p[1..], h)
    else [p[0]] + Remove(p[1..], h)
  }

  /** `clearTimeout(handle)`; a `null` handle changes nothing. */
  function ClearTimeout(q: Timers, h: Option<nat>): (r: Timers)
    ensures r.next == q.next
    ensures h.Some? ==> !IsPending(r, h.value)
    ensures forall t :: t in r.pending <==> t in q.pending && (h.None? || t.handle != h.value)
    ensures Ordered(q) ==> Ordered(r)
  {
    match h
    case None => q
    case Some(x) => Timers(Remove(q.pending, x), q.next)
  }

  /** The pending timer holding handle `h`, if any. */
  function Lookup(p: seq<Timer>, h: nat): (r: Option<Timer>)
    ensures r.Some? ==> r.value in p && r.value.handle == h
    ensures r.None? ==> forall t :: t in p ==> t.handle != h
  {
    if p == [] then None
    else if p[0].handle == h then Some(p[0])
    else Lookup(p[1..], h)
  }

  /** Handles being unique, looking up a pending timer's handle finds that timer. */
  lemma {:induction false} LookupFinds(p: seq<Timer>, t: Timer)
    requires Increasing(p) && t in p
    ensures Lookup(p, t.handle) == Some(t)
  {
    if p[0] != t {
      assert t in p[1..];
      LookupFinds(p[1..], t);
    }
  }

  /** Clearing the same handle twice is clearing it once. */
  lemma {:induction false} RemoveIdempotent(p: seq<Timer>, h: nat)
    ensures Remove(Remove(p, h), h) == Remove(p, h)
  {
    if p != [] {
      RemoveIdempotent(p[1..], h);
      if p[0].handle != h {
        assert ([p[0]] + Remove(p[1..], h))[1..] == Remove(p[1..], h);
      }
    }
  }

  /** Cancelling a handle that is not pending leaves the timers as they were. */
  lemma {:induction false} RemoveAbsent(p: seq<Timer>, h: nat)
    requires forall t :: t in p ==> t.handle != h
    ensures Remove(p, h) == p
  {
    if p != [] {
      assert p[0] in p;
      assert forall t :: t in p[1..] ==> t in p;
      RemoveAbsent(p[1..], h);
      assert [p[0]] + p[1..] == p;
    }
  }
}
