/** The invariant every reachable state of TouchableSetActive keeps: the
    timer slots agree with the pending timers, and the activation target
    has been told `true` and `false` alternately, ending with the value of
    the active flag. */
module Invariant {
  import opened Config
  import opened Timers
  import opened Machine

  // ---------------------------------------------------------------------
  // Timer slots

  ghost predicate SlotBelow(slot: Option<nat>, q: Timers) {
    slot.Some? ==> slot.value < q.next
  }

  /** The pending timers of kind `job` are exactly the one `slot` names,
      if it names one: the slot is only armed when empty and is emptied
      when its timer fires. */
  ghost predicate SlotExact(q: Timers, job: Job, slot: Option<nat>) {
    (forall t | t in q.pending :: t.job == job <==> slot == Some(t.handle)) &&
    (slot.Some? ==> IsPending(q, slot.value))
  }

  /** A slot that names a pending timer names one of its own kind. */
  ghost predicate SlotOwned(q: Timers, job: Job, slot: Option<nat>) {
    forall t | t in q.pending && slot == Some(t.handle) :: t.job == job
  }

  /** The show and press slots are exact (at most one timer of each kind
      is ever pending); the hide and press-out slots may lag behind their
      timers, since those are re-armed without being cleared. */
  ghost predicate TimingInv(tm: Timing) {
    Ordered(tm.timers) &&
    SlotBelow(tm.showTimeout, tm.timers) && SlotBelow(tm.hideTimeout, tm.timers) &&
    SlotBelow(tm.pressOutTimeout, tm.timers) && SlotBelow(tm.pressTimeout, tm.timers) &&
    SlotExact(tm.timers, ShowJob, tm.showTimeout) &&
    SlotExact(tm.timers, PressJob, tm.pressTimeout) &&
    SlotOwned(tm.timers, HideJob, tm.hideTimeout) &&
    SlotOwned(tm.timers, PressOutJob, tm.pressOutTimeout)
  }

  // ---------------------------------------------------------------------
  // Notification log

  /** Starts with `true` and never repeats a value: `true, false, true, ...` */
  ghost predicate Alternating(s: seq<bool>) {
    (s != [] ==> s[0]) &&
    forall i :: 0 <= i < |s| - 1 ==> s[i + 1] != s[i]
  }

  /** The last value of `s`, or `false` before any. */
  function Last(s: seq<bool>): bool {
    s != [] && s[|s| - 1]
  }

  /** The target has been told `true` and `false` alternately starting with
      `true`; it was last told `activeStatus`; every notification went
      through the call its type takes; a target of neither type was told
      nothing. */
  ghost predicate LogOk(activeType: ActiveType, activeStatus: bool, effects: seq<Effect>) {
    var s := Signals(effects);
    Alternating(s) &&
    (activeType == NoType ==> s == []) &&
    (activeType != NoType ==> activeStatus == Last(s)) &&
    (forall e | e in effects && e.Notify? :: e.via == activeType)
  }

  ghost predicate LogInv(m: Machine) {
    LogOk(m.activeType, m.activeStatus, m.effects)
  }

  /** The two mount-time flags agree with the props they were computed from. */
  ghost predicate ConfigInv(m: Machine) {
    (m.delayActive <==> m.props.delayActive.Ms?) &&
    (m.delayInactive <==> m.props.delayInactive.Ms?)
  }

  ghost predicate Inv(m: Machine) {
    ConfigInv(m) && TimingInv(m.timing) && LogInv(m)
  }

  // ---------------------------------------------------------------------
  // Timer operations keep the slots right

  lemma ArmSlotInv(tm: Timing, job: Job, delay: Delay)
    requires TimingInv(tm)
    requires job == ShowJob ==> tm.showTimeout.None?
    requires job == PressJob ==> tm.pressTimeout.None?
    ensures TimingInv(ArmSlot(tm, job, delay))
  {
  }

  lemma ClearSlotInv(tm: Timing, job: Job)
    requires TimingInv(tm)
    ensures TimingInv(ClearSlot(tm, job))
  {
  }

  /** Cancelling whatever the hide slot names keeps the show and press slots
      exact: a pending timer the hide slot names is a hide timer. */
  lemma CancelHideInv(tm: Timing)
    requires TimingInv(tm)
    ensures TimingInv(CancelHide(tm))
  {
    if tm.hideTimeout.Some? && !IsPending(tm.timers, tm.hideTimeout.value) {
      RemoveAbsent(tm.timers.pending, tm.hideTimeout.value);
    }
  }

  /** A hide or press-out timer that fires leaves the slots right. */
  lemma ExpireInv(tm: Timing, t: Timer)
    requires TimingInv(tm) && t in tm.timers.pending
    requires t.job == HideJob || t.job == PressOutJob
    ensures TimingInv(Expire(tm, t.handle))
  {
  }

  /** A show or press timer that fires, followed by the emptying of its
      slot in its own body, leaves the slots right. */
  lemma ExpireAndClearInv(tm: Timing, t: Timer)
    requires TimingInv(tm) && t in tm.timers.pending
    requires t.job == ShowJob || t.job == PressJob
    ensures Slot(tm, t.job) == Some(t.handle)
    ensures TimingInv(ClearSlot(Expire(tm, t.handle), t.job))
  {
    RemoveIdempotent(tm.timers.pending, t.handle);
    if t.job == ShowJob {
      assert ClearSlot(Expire(tm, t.handle), ShowJob) ==
        tm.(timers := ClearTimeout(tm.timers, Some(t.handle)), showTimeout := None);
      CancelShowInv(tm, t);
    } else {
      assert ClearSlot(Expire(tm, t.handle), PressJob) ==
        tm.(timers := ClearTimeout(tm.timers, Some(t.handle)), pressTimeout := None);
      CancelPressInv(tm, t);
    }
  }

  lemma CancelShowInv(tm: Timing, t: Timer)
    requires TimingInv(tm) && t in tm.timers.pending && t.job == ShowJob
    ensures TimingInv(tm.(timers := ClearTimeout(tm.timers, Some(t.handle)), showTimeout := None))
  {
  }

  lemma CancelPressInv(tm: Timing, t: Timer)
    requires TimingInv(tm) && t in tm.timers.pending && t.job == PressJob
    ensures TimingInv(tm.(timers := ClearTimeout(tm.timers, Some(t.handle)), pressTimeout := None))
  {
  }

  // ---------------------------------------------------------------------
  // The activation controller keeps the log right

  lemma SignalsAppend(log: seq<Effect>, e: Effect)
    ensures Signals(log + [e]) == Signals(log) + (if e.Notify? then [e.active] else [])
  {
    assert (log + [e])[..|log|] == log;
  }

  lemma AlternatingAppend(s: seq<bool>, b: bool)
    requires Alternating(s) && b == !Last(s)
    ensures Alternating(s + [b]) && Last(s + [b]) == b
  {
    var s' := s + [b];
    forall i | 0 <= i < |s'| - 1
      ensures s'[i + 1] != s'[i]
    {
      if i + 1 < |s| {
        assert s'[i + 1] == s[i + 1] && s'[i] == s[i];
      }
    }
  }

  /** Telling the target the opposite of what it was last told keeps the
      log alternating. */
  lemma LogNotify(t: ActiveType, status: bool, effects: seq<Effect>)
    requires LogOk(t, status, effects) && t != NoType
    ensures LogOk(t, !status, effects + [Notify(t, !status)])
    ensures Signals(effects + [Notify(t, !status)]) == Signals(effects) + [!status]
  {
    SignalsAppend(effects, Notify(t, !status));
    AlternatingAppend(Signals(effects), !status);
  }

  /** Effects other than notifications leave the signals alone. */
  lemma LogOther(t: ActiveType, status: bool, effects: seq<Effect>, e: Effect)
    requires LogOk(t, status, effects) && !e.Notify?
    ensures LogOk(t, status, effects + [e])
    ensures Signals(effects + [e]) == Signals(effects)
  {
    SignalsAppend(effects, e);
  }

  /** Calling an outbound callback keeps the invariant. */
  lemma CallbackInv(m: Machine, bound: bool, e: Effect)
    requires !e.Notify? && Inv(m)
    ensures Inv(Callback(m, bound, e))
  {
    LogOther(m.activeType, m.activeStatus, m.effects, e);
  }

  /** `_showActive` tells the target `true` exactly on a false-to-true
      change of the flag, so the log stays alternating. */
  lemma ShowActiveInv(m: Machine)
    requires LogInv(m)
    ensures LogInv(ShowActive(m))
    ensures m.activeType != NoType ==>
      Signals(ShowActive(m).effects) == Signals(m.effects) + (if m.activeStatus then [] else [true])
  {
    if m.activeStatus {
      assert ShowActive(m) == m;
    } else if m.activeType == NoType {
      assert ShowActive(m) == m.(activeStatus := true);
      LogNoTarget(m.activeStatus, m.effects);
    } else {
      ShowActiveNotifies(m);
      LogNotify(m.activeType, m.activeStatus, m.effects);
    }
  }

  lemma ShowActiveNotifies(m: Machine)
    requires !m.activeStatus && m.activeType != NoType
    ensures ShowActive(m) == m.(activeStatus := true, effects := m.effects + [Notify(m.activeType, true)])
  {
  }

  /** With no target to tell, the flag does not matter to the log. */
  lemma LogNoTarget(status: bool, effects: seq<Effect>)
    requires LogOk(NoType, status, effects)
    ensures LogOk(NoType, !status, effects)
  {
  }

  /** `_hideActive` tells the target `false` exactly on a true-to-false
      change of the flag, so the log stays alternating. */
  lemma HideActiveInv(m: Machine)
    requires Inv(m)
    ensures Inv(HideActive(m))
    ensures m.activeType != NoType ==>
      Signals(HideActive(m).effects) == Signals(m.effects) + (if m.activeStatus then [false] else [])
  {
    if m.activeStatus {
      var c := Clear(m.(activeStatus := false), HideJob);
      ClearSlotInv(m.timing, HideJob);
      if m.activeType != NoType {
        LogNotify(m.activeType, m.activeStatus, m.effects);
        assert HideActive(m) == c.(effects := m.effects + [Notify(m.activeType, false)]);
      } else {
        assert HideActive(m) == c;
      }
    }
  }

  // ---------------------------------------------------------------------
  // Every handler keeps the invariant

  lemma GrantInv(m: Machine)
    requires Inv(m)
    ensures Inv(ResponderGrant(m))
  {
    var m0 := m.(fromPressIn := false, isHiding := false);
    ClearSlotInv(m0.timing, PressOutJob);
    var m1 := Clear(Clear(m0, PressOutJob), HideJob);
    ClearSlotInv(Clear(m0, PressOutJob).timing, HideJob);
    var m2 := if m1.delayActive && m1.timing.showTimeout.None? then Arm(m1, ShowJob, m1.props.delayActive) else m1;
    if m1.delayActive && m1.timing.showTimeout.None? {
      ArmSlotInv(m1.timing, ShowJob, m1.props.delayActive);
    }
    assert Inv(m2);
    LogOther(m2.activeType, m2.activeStatus, m2.effects, ForwardedGrant);
  }

  lemma PressInInv(m: Machine)
    requires Inv(m)
    ensures Inv(ActivePressIn(m))
  {
    var m1 := Clear(m.(fromPressIn := true), HideJob);
    ClearSlotInv(m.timing, HideJob);
    var m2 := if !m1.delayActive then ShowActive(m1) else m1;
    ShowActiveInv(m1);
    assert Inv(m2);
    var m3 := if m2.delayInactive then Arm(m2, HideJob, m2.props.delayInactive) else m2;
    if m2.delayInactive {
      ArmSlotInv(m2.timing, HideJob, m2.props.delayInactive);
    }
    CallbackInv(m3, m3.props.hasOnPressIn, CalledOnPressIn);
  }

  lemma OnPressOutInv(m: Machine)
    requires Inv(m)
    ensures Inv(OnPressOut(m))
  {
    var m1 := if m.timing.hideTimeout.None? && !m.delayInactive then HideActive(m.(isHiding := true)) else m;
    HideActiveInv(m.(isHiding := true));
    CallbackInv(m1, m1.props.hasOnPressOut, CalledOnPressOut);
  }

  lemma PressOutInv(m: Machine)
    requires Inv(m)
    ensures Inv(ActivePressOut(m))
  {
    if Truthy(m.props.delayOnPressOut) {
      ArmSlotInv(m.timing, PressOutJob, m.props.delayOnPressOut);
    } else {
      OnPressOutInv(m);
    }
  }

  lemma OnPressInv(m: Machine)
    requires Inv(m)
    ensures Inv(OnPress(m))
  {
    if !m.fromPressIn {
      var shown := if !m.delayActive then ShowActive(m) else m;
      ShowActiveInv(m);
      assert Inv(shown.(isHiding := true));
      ArmSlotInv(shown.timing, HideJob, HideDelay(shown));
      var m1 := Arm(shown.(isHiding := true), HideJob, HideDelay(shown));
      CallbackInv(m1, m1.props.hasOnPress, CalledOnPress);
    } else {
      CallbackInv(m, m.props.hasOnPress, CalledOnPress);
    }
  }

  lemma HandlePressInv(m: Machine)
    requires Inv(m)
    ensures Inv(HandlePress(m))
  {
    if Truthy(m.props.delayOnPress) {
      if m.timing.pressTimeout.None? {
        ArmSlotInv(m.timing, PressJob, m.props.delayOnPress);
      }
    } else {
      OnPressInv(m);
    }
  }

  lemma ShowTimerInv(m: Machine, t: Timer)
    requires Inv(m) && t in m.timing.timers.pending && t.job == ShowJob
    ensures Inv(ShowTimerFired(m.(timing := Expire(m.timing, t.handle))))
  {
    var m0 := m.(timing := Expire(m.timing, t.handle));
    ExpireAndClearInv(m.timing, t);
    var c := Clear(m0, ShowJob);
    assert c == m.(timing := ClearSlot(Expire(m.timing, t.handle), ShowJob));
    assert TimingInv(c.timing) && LogInv(c);
    ShowActiveInv(c);
    var m1 := ShowActive(c);
    assert m1 == c.(activeStatus := true, effects := m1.effects);
    assert ConfigInv(m1) && TimingInv(m1.timing) && LogInv(m1);
    RearmHideInv(m1);
  }

  /** The second half of the show timer's body keeps the invariant. */
  lemma RearmHideInv(m1: Machine)
    requires Inv(m1) && m1.timing.showTimeout.None?
    ensures var r := if m1.delayInactive || m1.isHiding then
        var m2 := if m1.isHiding then m1.(timing := CancelHide(m1.timing)) else m1;
        Arm(m2, HideJob, HideDelay(m2))
      else m1;
      Inv(r)
  {
    if m1.delayInactive || m1.isHiding {
      var m2 := if m1.isHiding then m1.(timing := CancelHide(m1.timing)) else m1;
      CancelHideInv(m1.timing);
      assert TimingInv(m2.timing);
      ArmSlotInv(m2.timing, HideJob, HideDelay(m2));
      assert Arm(m2, HideJob, HideDelay(m2)) == m2.(timing := ArmSlot(m2.timing, HideJob, HideDelay(m2)));
    }
  }

  lemma PressTimerInv(m: Machine, t: Timer)
    requires Inv(m) && t in m.timing.timers.pending && t.job == PressJob
    ensures Inv(PressTimerFired(m.(timing := Expire(m.timing, t.handle))))
  {
    var m0 := m.(timing := Expire(m.timing, t.handle));
    ExpireAndClearInv(m.timing, t);
    assert Inv(Clear(m0, PressJob));
    OnPressInv(Clear(m0, PressJob));
  }

  lemma FireInv(m: Machine, h: nat)
    requires Inv(m)
    ensures Inv(Fire(m, h))
  {
    match Lookup(m.timing.timers.pending, h)
    case None =>
    case Some(t) =>
      var m1 := m.(timing := Expire(m.timing, h));
      match t.job
      case ShowJob => ShowTimerInv(m, t);
      case HideJob =>
        ExpireInv(m.timing, t);
        HideActiveInv(m1);
      case PressOutJob =>
        ExpireInv(m.timing, t);
        OnPressOutInv(m1);
      case PressJob => PressTimerInv(m, t);
  }

  lemma StepInv(m: Machine, e: Event)
    requires Inv(m)
    ensures Inv(Step(m, e))
  {
    match e
    case Grant => GrantInv(m);
    case PressIn => PressInInv(m);
    case PressOut => PressOutInv(m);
    case Press => HandlePressInv(m);
    case LongPress => CallbackInv(m, m.props.hasOnLongPress, CalledOnLongPress);
    case TimerFires(h) => FireInv(m, h);
  }

  lemma MountInv(raw: Props)
    ensures Inv(Mount(raw))
  {
  }

  lemma {:induction false} RunInv(m: Machine, events: seq<Event>)
    requires Inv(m)
    ensures Inv(Run(m, events))
    decreases |events|
  {
    if events != [] {
      StepInv(m, events[0]);
      RunInv(Step(m, events[0]), events[1..]);
    }
  }

  /** The props, the target's type and the two "is delayed" flags, all
      fixed at mount, agree between `r` and `m`. */
  predicate SameConfig(r: Machine, m: Machine) {
    r.props == m.props && r.activeType == m.activeType &&
    r.delayActive == m.delayActive && r.delayInactive == m.delayInactive
  }

  lemma GrantKeepsConfig(m: Machine) ensures SameConfig(ResponderGrant(m), m) {}
  lemma PressInKeepsConfig(m: Machine) ensures SameConfig(ActivePressIn(m), m) {}
  lemma PressOutKeepsConfig(m: Machine) ensures SameConfig(ActivePressOut(m), m) {}
  lemma PressKeepsConfig(m: Machine) ensures SameConfig(HandlePress(m), m) {}
  lemma OnPressOutKeepsConfig(m: Machine) ensures SameConfig(OnPressOut(m), m) {}
  lemma HideKeepsConfig(m: Machine) ensures SameConfig(HideActive(m), m) {}
  lemma ShowTimerKeepsConfig(m: Machine) ensures SameConfig(ShowTimerFired(m), m) {}
  lemma PressTimerKeepsConfig(m: Machine) ensures SameConfig(PressTimerFired(m), m) {}

  /** No handler or timer firing changes what was fixed at mount. */
  lemma StepKeepsConfig(m: Machine, e: Event)
    ensures SameConfig(Step(m, e), m)
  {
    match e
    case Grant => GrantKeepsConfig(m);
    case PressIn => PressInKeepsConfig(m);
    case PressOut => PressOutKeepsConfig(m);
    case Press => PressKeepsConfig(m);
    case LongPress =>
    case TimerFires(h) => FireKeepsConfig(m, h);
  }

  lemma FireKeepsConfig(m: Machine, h: nat)
    ensures SameConfig(Fire(m, h), m)
  {
    match Lookup(m.timing.timers.pending, h)
    case None =>
    case Some(t) =>
      var m1 := m.(timing := Expire(m.timing, h));
      match t.job
      case ShowJob => ShowTimerKeepsConfig(m1);
      case HideJob => HideKeepsConfig(m1);
      case PressOutJob => OnPressOutKeepsConfig(m1);
      case PressJob => PressTimerKeepsConfig(m1);
  }

  lemma {:induction false} RunKeepsConfig(m: Machine, events: seq<Event>)
    ensures SameConfig(Run(m, events), m)
    decreases |events|
  {
    if events != [] {
      StepKeepsConfig(m, events[0]);
      RunKeepsConfig(Step(m, events[0]), events[1..]);
    }
  }

  /** Whatever touch events arrive and timers fire after mount, the target
      is told `true` and `false` strictly alternately starting with `true`,
      never the same value twice in a row, and the last value it was told
      is the active flag. A target of neither type is told nothing. */
  lemma NotificationsAlternate(raw: Props, events: seq<Event>)
    ensures var m := Run(Mount(raw), events);
      m.props == WithDefaultProps(raw) &&
      m.activeType == GetActiveType(m.props.setActive, m.props.setActive)
    ensures var m := Run(Mount(raw), events);
      var s := Signals(m.effects);
      (forall i :: 0 <= i < |s| ==> s[i] == (i % 2 == 0)) &&
      (forall i :: 0 <= i < |s| - 1 ==> s[i] != s[i + 1]) &&
      (m.activeType != NoType ==> if s == [] then !m.activeStatus else s[|s| - 1] == m.activeStatus) &&
      (m.activeType == NoType ==> s == [])
  {
    MountInv(raw);
    RunInv(Mount(raw), events);
    RunKeepsConfig(Mount(raw), events);
    var m := Run(Mount(raw), events);
    AlternatingParity(Signals(m.effects));
  }

  /** A `setActive` prop that is neither a function nor a composite
      instance is never told anything, whatever happens after mount. */
  lemma UntypedTargetToldNothing(raw: Props, events: seq<Event>)
    requires raw.setActive == Undefined || raw.setActive == OtherObject
    ensures Signals(Run(Mount(raw), events).effects) == []
  {
    NotificationsAlternate(raw, events);
  }

  /** An alternating sequence holds `true` exactly at its even positions. */
  lemma {:induction false} AlternatingParity(s: seq<bool>)
    requires Alternating(s)
    ensures forall i :: 0 <= i < |s| ==> s[i] == (i % 2 == 0)
  {
    if |s| > 1 {
      var p := s[..|s| - 1];
      assert Alternating(p) by {
        forall i | 0 <= i < |p| - 1
          ensures p[i + 1] != p[i]
        {
          assert p[i + 1] == s[i + 1] && p[i] == s[i];
        }
      }
      AlternatingParity(p);
      var k := |s| - 1;
      assert s[k - 1] == p[k - 1] == ((k - 1) % 2 == 0);
      assert s[k] != s[k - 1];
      forall i | 0 <= i < |s|
        ensures s[i] == (i % 2 == 0)
      {
        if i < k {
          assert s[i] == p[i];
        }
      }
    }
  }

  /** Two pending timers with the same handle are the same timer. */
  lemma SameHandleSameTimer(p: seq<Timer>, t1: Timer, t2: Timer)
    requires Increasing(p) && t1 in p && t2 in p && t1.handle == t2.handle
    ensures t1 == t2
  {
    var i :| 0 <= i < |p| && p[i] == t1;
    var j :| 0 <= j < |p| && p[j] == t2;
    assert !(i < j) && !(j < i);
  }

  /** The grant arms a show timer only when none is pending and the press
      handler arms a press timer only when none is pending; both slots are
      emptied as their timer fires. So after mount at most one show timer
      and at most one press timer are ever pending, and the slot names it. */
  lemma OneShowAndOnePressTimer(raw: Props, events: seq<Event>)
    ensures var m := Run(Mount(raw), events);
      var q := m.timing.timers;
      (forall t1, t2 | t1 in q.pending && t2 in q.pending ::
        t1.job == ShowJob && t2.job == ShowJob ==> t1 == t2 && m.timing.showTimeout == Some(t1.handle)) &&
      (forall t1, t2 | t1 in q.pending && t2 in q.pending ::
        t1.job == PressJob && t2.job == PressJob ==> t1 == t2 && m.timing.pressTimeout == Some(t1.handle))
  {
    MountInv(raw);
    RunInv(Mount(raw), events);
    var m := Run(Mount(raw), events);
    var q := m.timing.timers;
    forall t1, t2 | t1 in q.pending && t2 in q.pending && t1.job == t2.job && (t1.job == ShowJob || t1.job == PressJob)
      ensures t1 == t2
    {
      SameHandleSameTimer(q.pending, t1, t2);
    }
  }
}
