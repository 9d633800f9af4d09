/** What each handler of TouchableSetActive does, stated against the state
    before it: which flags it sets, which timers it arms or cancels, and
    what it tells the outside world, in which order. */
module Handlers {
  import opened Config
  import opened Timers
  import opened Machine
  import opened Invariant

  /** `_showActive`: sets the flag; tells the target `true` only when the
      flag was false; a second call adds nothing; nothing else changes. */
  lemma ShowActiveSpec(m: Machine)
    ensures ShowActive(m).activeStatus
    ensures ShowActive(m).effects ==
      m.effects + (if !m.activeStatus && m.activeType != NoType then [Notify(m.activeType, true)] else [])
    ensures ShowActive(m) == m.(activeStatus := true, effects := ShowActive(m).effects)
    ensures ShowActive(ShowActive(m)) == ShowActive(m)
  {
  }

  /** `_hideActive`: a no-op when inactive; otherwise clears the flag,
      cancels the hide timer and empties its slot (leaving the other slots
      alone), and tells the target `false` once; a second call adds nothing. */
  lemma HideActiveSpec(m: Machine)
    ensures !m.activeStatus ==> HideActive(m) == m
    ensures m.activeStatus ==>
      var r := HideActive(m);
      !r.activeStatus && r.timing == ClearSlot(m.timing, HideJob) &&
      (m.timing.hideTimeout.Some? ==> !IsPending(r.timing.timers, m.timing.hideTimeout.value)) &&
      r.effects == m.effects + (if m.activeType != NoType then [Notify(m.activeType, false)] else []) &&
      r == m.(activeStatus := false, timing := r.timing, effects := r.effects)
    ensures HideActive(HideActive(m)) == HideActive(m)
  {
  }

  /** Grant resets the session flags, cancels and empties the press-out and
      hide slots, arms the show timer only when activation is delayed and no
      show timer is pending, then hands over to the touchable mixin. */
  lemma GrantSpec(m: Machine)
    ensures var r := ResponderGrant(m);
      !r.fromPressIn && !r.isHiding &&
      r.timing.hideTimeout == None && r.timing.pressOutTimeout == None &&
      r.activeStatus == m.activeStatus && r.timing.pressTimeout == m.timing.pressTimeout &&
      r.effects == m.effects + [ForwardedGrant] &&
      (Ordered(m.timing.timers) ==> Ordered(r.timing.timers)) &&
      r == m.(fromPressIn := false, isHiding := false, timing := r.timing, effects := r.effects)
    ensures var r := ResponderGrant(m);
      var arms := m.delayActive && m.timing.showTimeout.None?;
      forall t :: t in r.timing.timers.pending <==>
        (t in m.timing.timers.pending &&
         Some(t.handle) != m.timing.hideTimeout && Some(t.handle) != m.timing.pressOutTimeout) ||
        (arms && t == Timer(m.timing.timers.next, ShowJob, m.props.delayActive))
    ensures var r := ResponderGrant(m);
      if m.delayActive && m.timing.showTimeout.None? then
        r.timing.showTimeout == Some(m.timing.timers.next) && r.timing.timers.next == m.timing.timers.next + 1
      else
        r.timing.showTimeout == m.timing.showTimeout && r.timing.timers.next == m.timing.timers.next
  {
    var m1 := Clear(m.(fromPressIn := false, isHiding := false), PressOutJob);
    assert m1.timing.hideTimeout == m.timing.hideTimeout;
  }

  /** Press-in sets `_fromPressIn`, cancels the pending hide, shows at once
      exactly when activation is not delayed, arms a hide of `delayInactive`
      exactly when deactivation is delayed, then calls `onPressIn`. */
  lemma PressInSpec(m: Machine)
    ensures var r := ActivePressIn(m);
      r.fromPressIn && r.isHiding == m.isHiding &&
      r.activeStatus == (m.activeStatus || !m.delayActive) &&
      r.timing.showTimeout == m.timing.showTimeout && r.timing.pressTimeout == m.timing.pressTimeout &&
      r.timing.pressOutTimeout == m.timing.pressOutTimeout &&
      r.effects == m.effects
        + (if !m.delayActive && !m.activeStatus && m.activeType != NoType then [Notify(m.activeType, true)] else [])
        + (if m.props.hasOnPressIn then [CalledOnPressIn] else []) &&
      (Ordered(m.timing.timers) ==> Ordered(r.timing.timers)) &&
      r == m.(fromPressIn := true, activeStatus := r.activeStatus, timing := r.timing, effects := r.effects)
    ensures var r := ActivePressIn(m);
      forall t :: t in r.timing.timers.pending <==>
        (t in m.timing.timers.pending && Some(t.handle) != m.timing.hideTimeout) ||
        (m.delayInactive && t == Timer(m.timing.timers.next, HideJob, m.props.delayInactive))
    ensures var r := ActivePressIn(m);
      if m.delayInactive then
        r.timing.hideTimeout == Some(m.timing.timers.next) && r.timing.timers.next == m.timing.timers.next + 1
      else
        r.timing.hideTimeout == None && r.timing.timers.next == m.timing.timers.next
  {
    var m1 := Clear(m.(fromPressIn := true), HideJob);
    var m2 := if !m1.delayActive then ShowActive(m1) else m1;
    assert m2.timing == m1.timing;
  }

  /** The settle step hides (and sets `_isHiding`) exactly when the hide
      slot is empty and deactivation is not delayed, and always calls
      `onPressOut` afterwards. It never touches the timers: it hides only
      when the hide slot is already empty. */
  lemma OnPressOutSpec(m: Machine)
    ensures var r := OnPressOut(m);
      var hides := m.timing.hideTimeout.None? && !m.delayInactive;
      r.fromPressIn == m.fromPressIn &&
      r.isHiding == (m.isHiding || hides) &&
      r.activeStatus == (m.activeStatus && !hides) &&
      r.effects == m.effects
        + (if hides && m.activeStatus && m.activeType != NoType then [Notify(m.activeType, false)] else [])
        + (if m.props.hasOnPressOut then [CalledOnPressOut] else []) &&
      r == m.(isHiding := r.isHiding, activeStatus := r.activeStatus, effects := r.effects)
  {
  }

  /** Press-out: a truthy `delayOnPressOut` defers the settle step to a new
      press-out timer and changes nothing else; 0 runs it at once. */
  lemma PressOutSpec(m: Machine)
    ensures Truthy(m.props.delayOnPressOut) ==>
      var r := ActivePressOut(m);
      r.timing.pressOutTimeout == Some(m.timing.timers.next) &&
      (forall t :: t in r.timing.timers.pending <==>
        t in m.timing.timers.pending || t == Timer(m.timing.timers.next, PressOutJob, m.props.delayOnPressOut)) &&
      r.timing.timers.next == m.timing.timers.next + 1 &&
      r == m.(timing := m.timing.(pressOutTimeout := r.timing.pressOutTimeout, timers := r.timing.timers))
    ensures !Truthy(m.props.delayOnPressOut) ==> ActivePressOut(m) == OnPressOut(m)
  {
  }

  /** With the default props, leaving `delayOnPressOut` unset defers the
      settle step by 150 ms rather than running it at once. */
  lemma UnsetPressOutIsDeferred(raw: Props)
    requires raw.delayOnPressOut == Unset
    ensures var m := Mount(raw);
      Timer(m.timing.timers.next, PressOutJob, Ms(DEFAULT_HIDE_MS)) in ActivePressOut(m).timing.timers.pending
  {
  }

  /** Under the invariant the hide delay is a number: `delayInactive` when
      deactivation is delayed, else `delayOnPressOut || 150`. */
  lemma HideDelaySpec(m: Machine)
    requires ConfigInv(m)
    ensures HideDelay(m).Ms?
    ensures m.delayInactive ==> HideDelay(m) == m.props.delayInactive
    ensures !m.delayInactive && Truthy(m.props.delayOnPressOut) ==> HideDelay(m) == m.props.delayOnPressOut
    ensures !m.delayInactive && !Truthy(m.props.delayOnPressOut) ==> HideDelay(m) == Ms(DEFAULT_HIDE_MS)
  {
  }

  /** The commit step: after a press-in it only calls `onPress`; otherwise
      it shows unless activation is delayed, sets `_isHiding` and arms a
      hide of `HideDelay` over whatever the hide slot held (a timer that
      slot held stays pending), then calls `onPress`. */
  lemma OnPressSpec(m: Machine)
    ensures m.fromPressIn ==>
      OnPress(m) == m.(effects := m.effects + (if m.props.hasOnPress then [CalledOnPress] else []))
    ensures !m.fromPressIn ==>
      var r := OnPress(m);
      r.isHiding && !r.fromPressIn &&
      r.activeStatus == (m.activeStatus || !m.delayActive) &&
      r.timing == ArmSlot(m.timing, HideJob, HideDelay(m)) &&
      r.timing.hideTimeout == Some(m.timing.timers.next) &&
      Timer(m.timing.timers.next, HideJob, HideDelay(m)) in r.timing.timers.pending &&
      (forall t :: t in m.timing.timers.pending ==> t in r.timing.timers.pending) &&
      r.effects == m.effects
        + (if !m.delayActive && !m.activeStatus && m.activeType != NoType then [Notify(m.activeType, true)] else [])
        + (if m.props.hasOnPress then [CalledOnPress] else []) &&
      r == m.(isHiding := true, activeStatus := r.activeStatus, timing := r.timing, effects := r.effects)
  {
    if !m.fromPressIn {
      var shown := if !m.delayActive then ShowActive(m) else m;
      assert shown.timing == m.timing && HideDelay(shown) == HideDelay(m);
    }
  }

  /** Commit: with a truthy `delayOnPress` it arms the press timer only when
      none is pending, so a second commit meanwhile arms nothing; otherwise
      it runs the commit step at once. */
  lemma HandlePressSpec(m: Machine)
    ensures Truthy(m.props.delayOnPress) && m.timing.pressTimeout.Some? ==> HandlePress(m) == m
    ensures Truthy(m.props.delayOnPress) && m.timing.pressTimeout.None? ==>
      var r := HandlePress(m);
      r.timing == ArmSlot(m.timing, PressJob, m.props.delayOnPress) &&
      r.timing.pressTimeout == Some(m.timing.timers.next) &&
      Timer(m.timing.timers.next, PressJob, m.props.delayOnPress) in r.timing.timers.pending &&
      r == m.(timing := r.timing)
    ensures Truthy(m.props.delayOnPress) ==> HandlePress(HandlePress(m)) == HandlePress(m)
    ensures !Truthy(m.props.delayOnPress) ==> HandlePress(m) == OnPress(m)
  {
  }

  /** Long-press only calls `onLongPress`. */
  lemma LongPressSpec(m: Machine)
    ensures HandleLongPress(m) ==
      m.(effects := m.effects + (if m.props.hasOnLongPress then [CalledOnLongPress] else []))
  {
  }

  /** The body of the grant's show timer: it empties the show slot and
      shows; it arms a hide of `HideDelay` (first cancelling whatever the
      hide slot names if `_isHiding`) exactly when deactivation is delayed
      or a hide is owed. */
  lemma ShowTimerFiredSpec(m: Machine)
    ensures var r := ShowTimerFired(m);
      r.timing.showTimeout == None &&
      r.activeStatus && r.isHiding == m.isHiding && r.fromPressIn == m.fromPressIn &&
      r.timing.pressTimeout == m.timing.pressTimeout && r.timing.pressOutTimeout == m.timing.pressOutTimeout &&
      r.effects == m.effects + (if !m.activeStatus && m.activeType != NoType then [Notify(m.activeType, true)] else []) &&
      r == m.(activeStatus := true, timing := r.timing, effects := r.effects)
    ensures var r := ShowTimerFired(m);
      var rearms := m.delayInactive || m.isHiding;
      forall t :: t in r.timing.timers.pending <==>
        (t in m.timing.timers.pending && Some(t.handle) != m.timing.showTimeout &&
         !(m.isHiding && Some(t.handle) == m.timing.hideTimeout)) ||
        (rearms && t == Timer(m.timing.timers.next, HideJob, HideDelay(m)))
    ensures var r := ShowTimerFired(m);
      if m.delayInactive || m.isHiding then
        r.timing.hideTimeout == Some(m.timing.timers.next) && r.timing.timers.next == m.timing.timers.next + 1
      else
        r.timing.hideTimeout == m.timing.hideTimeout && r.timing.timers.next == m.timing.timers.next
  {
    var c := Clear(m, ShowJob);
    ShowActiveSpec(c);
    var m1 := ShowActive(c);
    assert m1.timing == ClearSlot(m.timing, ShowJob);
    if m.delayInactive || m.isHiding {
      var m2 := if m1.isHiding then m1.(timing := CancelHide(m1.timing)) else m1;
      assert HideDelay(m2) == HideDelay(m);
      RearmHide(m1.timing, m.isHiding, HideDelay(m));
    }
  }

  /** Re-arming the hide slot, optionally cancelling what it names first. */
  lemma RearmHide(tm: Timing, cancel: bool, d: Delay)
    ensures var r := ArmSlot(if cancel then CancelHide(tm) else tm, HideJob, d);
      r.hideTimeout == Some(tm.timers.next) && r.timers.next == tm.timers.next + 1 &&
      r.showTimeout == tm.showTimeout && r.pressTimeout == tm.pressTimeout &&
      r.pressOutTimeout == tm.pressOutTimeout &&
      forall t :: t in r.timers.pending <==>
        (t in tm.timers.pending && !(cancel && Some(t.handle) == tm.hideTimeout)) ||
        t == Timer(tm.timers.next, HideJob, d)
  {
  }

  /** The grant's show timer fires: the timer mixin drops it, and its body
      runs on what remains. */
  lemma ShowTimerSpec(m: Machine, t: Timer)
    requires Ordered(m.timing.timers) && t in m.timing.timers.pending && t.job == ShowJob
    ensures Fire(m, t.handle) == ShowTimerFired(m.(timing := Expire(m.timing, t.handle)))
  {
    LookupFinds(m.timing.timers.pending, t);
  }

  /** A hide timer fires: `_hideActive` runs. */
  lemma HideTimerSpec(m: Machine, t: Timer)
    requires Ordered(m.timing.timers) && t in m.timing.timers.pending && t.job == HideJob
    ensures Fire(m, t.handle) == HideActive(m.(timing := Expire(m.timing, t.handle)))
  {
    LookupFinds(m.timing.timers.pending, t);
  }

  /** A press-out timer fires: the settle step runs. */
  lemma PressOutTimerSpec(m: Machine, t: Timer)
    requires Ordered(m.timing.timers) && t in m.timing.timers.pending && t.job == PressOutJob
    ensures Fire(m, t.handle) == OnPressOut(m.(timing := Expire(m.timing, t.handle)))
  {
    LookupFinds(m.timing.timers.pending, t);
  }

  /** The press timer fires: the timer mixin drops it, and the deferred
      commit empties the press slot and runs the commit step. */
  lemma PressTimerSpec(m: Machine, t: Timer)
    requires Ordered(m.timing.timers) && t in m.timing.timers.pending && t.job == PressJob
    ensures Fire(m, t.handle) == OnPress(Clear(m.(timing := Expire(m.timing, t.handle)), PressJob))
  {
    LookupFinds(m.timing.timers.pending, t);
  }

  /** A handle that is not pending (cleared, or fired already) never fires. */
  lemma StaleHandleSpec(m: Machine, h: nat)
    requires !IsPending(m.timing.timers, h)
    ensures Fire(m, h) == m
  {
  }

  // ---------------------------------------------------------------------
  // A cleared or fired handle stays gone

  /** `h` was handed out by `setTimeout` and is no longer pending: it was
      cleared, or its timer fired. */
  ghost predicate Gone(m: Machine, h: nat) {
    h < m.timing.timers.next && !IsPending(m.timing.timers, h)
  }

  /** Arming a slot hands out a new handle, so no gone handle returns. */
  lemma GoneArm(m: Machine, job: Job, d: Delay, h: nat)
    requires Gone(m, h)
    ensures Gone(Arm(m, job, d), h)
  {
  }

  lemma GoneClear(m: Machine, job: Job, h: nat)
    requires Gone(m, h)
    ensures Gone(Clear(m, job), h)
  {
  }

  lemma GoneGrant(m: Machine, h: nat)
    requires Gone(m, h)
    ensures Gone(ResponderGrant(m), h)
  {
    GrantSpec(m);
  }

  lemma GonePressIn(m: Machine, h: nat)
    requires Gone(m, h)
    ensures Gone(ActivePressIn(m), h)
  {
    PressInSpec(m);
  }

  lemma GoneOnPressOut(m: Machine, h: nat)
    requires Gone(m, h)
    ensures Gone(OnPressOut(m), h)
  {
    OnPressOutSpec(m);
  }

  lemma GonePressOut(m: Machine, h: nat)
    requires Gone(m, h)
    ensures Gone(ActivePressOut(m), h)
  {
    PressOutSpec(m);
    if !Truthy(m.props.delayOnPressOut) {
      GoneOnPressOut(m, h);
    }
  }

  lemma GoneOnPress(m: Machine, h: nat)
    requires Gone(m, h)
    ensures Gone(OnPress(m), h)
  {
    OnPressSpec(m);
  }

  lemma GoneHandlePress(m: Machine, h: nat)
    requires Gone(m, h)
    ensures Gone(HandlePress(m), h)
  {
    HandlePressSpec(m);
    if !Truthy(m.props.delayOnPress) {
      GoneOnPress(m, h);
    }
  }

  lemma GoneHide(m: Machine, h: nat)
    requires Gone(m, h)
    ensures Gone(HideActive(m), h)
  {
    HideActiveSpec(m);
  }

  lemma GoneShowTimer(m: Machine, h: nat)
    requires Gone(m, h)
    ensures Gone(ShowTimerFired(m), h)
  {
    ShowTimerFiredSpec(m);
  }

  lemma GoneFire(m: Machine, x: nat, h: nat)
    requires Gone(m, h)
    ensures Gone(Fire(m, x), h)
  {
    match Lookup(m.timing.timers.pending, x)
    case None =>
    case Some(t) =>
      var m1 := m.(timing := Expire(m.timing, x));
      assert Gone(m1, h);
      match t.job
      case ShowJob => GoneShowTimer(m1, h);
      case HideJob => GoneHide(m1, h);
      case PressOutJob => GoneOnPressOut(m1, h);
      case PressJob =>
        GoneClear(m1, PressJob, h);
        GoneOnPress(Clear(m1, PressJob), h);
  }

  lemma GoneStep(m: Machine, e: Event, h: nat)
    requires Gone(m, h)
    ensures Gone(Step(m, e), h)
  {
    match e
    case Grant => GoneGrant(m, h);
    case PressIn => GonePressIn(m, h);
    case PressOut => GonePressOut(m, h);
    case Press => GoneHandlePress(m, h);
    case LongPress => LongPressSpec(m);
    case TimerFires(x) => GoneFire(m, x, h);
  }

  /** Once a handle is cleared or its timer has fired, no later touch
      signal or timer firing makes it pending again, so it never fires
      again: firing it changes nothing. */
  lemma {:induction false} StaleNeverFiresAgain(m: Machine, events: seq<Event>, h: nat)
    requires Gone(m, h)
    ensures var r := Run(m, events);
      Gone(r, h) && Fire(r, h) == r
    decreases |events|
  {
    if events == [] {
      StaleHandleSpec(m, h);
    } else {
      GoneStep(m, events[0], h);
      StaleNeverFiresAgain(Step(m, events[0]), events[1..], h);
    }
  }

  // ---------------------------------------------------------------------
  // The code as written: re-arming without clearing first

  /** Two press-outs without a grant in between each arm a press-out timer
      into the same slot; the grant cancels only the second, so the first
      stays pending into the new gesture and runs the settle step there. */
  lemma PressOutTimerOutlivesGrant(m: Machine)
    requires TimingInv(m.timing) && Truthy(m.props.delayOnPressOut)
    ensures var r := ResponderGrant(ActivePressOut(ActivePressOut(m)));
      Timer(m.timing.timers.next, PressOutJob, m.props.delayOnPressOut) in r.timing.timers.pending &&
      r.timing.pressOutTimeout == None
  {
    var n := m.timing.timers.next;
    var first := Timer(n, PressOutJob, m.props.delayOnPressOut);
    var m1 := ActivePressOut(m);
    PressOutSpec(m);
    var m2 := ActivePressOut(m1);
    PressOutSpec(m1);
    assert first in m2.timing.timers.pending;
    assert m2.timing.pressOutTimeout == Some(n + 1);
    assert m2.timing.hideTimeout == m.timing.hideTimeout;
    GrantSpec(m2);
  }

  /** With deactivation delayed, press-in arms a hide timer while the
      grant's show timer is still pending (`GrantThenPressIn`); when the show
      timer then fires it arms another hide timer into the same slot without
      clearing it, and both stay pending. */
  lemma ShowTimerOrphansHide(p: Machine, fired: Timer, armed: Timer)
    requires Ordered(p.timing.timers) && p.delayInactive && !p.isHiding
    requires fired in p.timing.timers.pending && fired.job == ShowJob && p.timing.showTimeout == Some(fired.handle)
    requires armed in p.timing.timers.pending && armed.job == HideJob && p.timing.hideTimeout == Some(armed.handle)
    ensures var r := Fire(p, fired.handle);
      armed in r.timing.timers.pending &&
      Timer(p.timing.timers.next, HideJob, p.props.delayInactive) in r.timing.timers.pending &&
      r.timing.hideTimeout == Some(p.timing.timers.next)
  {
    ShowTimerSpec(p, fired);
    var e := p.(timing := Expire(p.timing, fired.handle));
    assert e.timing.showTimeout == Some(fired.handle) && e.timing.hideTimeout == Some(armed.handle);
    assert armed in e.timing.timers.pending;
    ShowTimerFiredSpec(e);
  }

  /** With both activation and deactivation delayed, a grant arms the show
      timer and a press-in right after it arms a hide timer: the state
      `ShowTimerOrphansHide` starts from. */
  lemma GrantThenPressIn(m: Machine)
    requires Ordered(m.timing.timers) && m.delayActive && m.delayInactive && m.timing.showTimeout.None?
    ensures var p := ActivePressIn(ResponderGrant(m));
      var n := m.timing.timers.next;
      Ordered(p.timing.timers) && p.timing.timers.next == n + 2 &&
      p.delayInactive && !p.isHiding && p.props == m.props &&
      p.timing.showTimeout == Some(n) && Timer(n, ShowJob, m.props.delayActive) in p.timing.timers.pending &&
      p.timing.hideTimeout == Some(n + 1) && Timer(n + 1, HideJob, m.props.delayInactive) in p.timing.timers.pending
  {
    var n := m.timing.timers.next;
    var g := ResponderGrant(m);
    GrantSpec(m);
    assert Timer(n, ShowJob, m.props.delayActive) in g.timing.timers.pending;
    PressInSpec(g);
  }

  /** An explicit 0 counts as a set `delayActive` and `delayInactive`: with
      those two and `delayOnPressOut` all 0, a gesture of grant, press-in
      and press-out tells the target nothing. The show is left to the
      grant's show timer, still pending, and press-in's hide timer keeps the
      settle step from hiding. */
  lemma ZeroDelaysDeferActivation(m: Machine)
    requires ConfigInv(m) && m.timing.showTimeout.None?
    requires m.props.delayActive == Ms(0) && m.props.delayInactive == Ms(0) && m.props.delayOnPressOut == Ms(0)
    ensures var r := ActivePressOut(ActivePressIn(ResponderGrant(m)));
      r.activeStatus == m.activeStatus &&
      r.effects == m.effects + [ForwardedGrant]
        + (if m.props.hasOnPressIn then [CalledOnPressIn] else [])
        + (if m.props.hasOnPressOut then [CalledOnPressOut] else []) &&
      Timer(m.timing.timers.next, ShowJob, Ms(0)) in r.timing.timers.pending &&
      Timer(m.timing.timers.next + 1, HideJob, Ms(0)) in r.timing.timers.pending
  {
    var g := ResponderGrant(m);
    GrantSpec(m);
    assert Timer(m.timing.timers.next, ShowJob, Ms(0)) in g.timing.timers.pending;
    var p := ActivePressIn(g);
    PressInSpec(g);
    PressOutSpec(p);
    OnPressOutSpec(p);
  }

  /** The same gesture from mount, as the touchable mixin delivers it. */
  lemma AllZeroDelaysDeferActivation(raw: Props)
    requires raw.delayActive == Ms(0) && raw.delayInactive == Ms(0) && raw.delayOnPressOut == Ms(0)
    ensures var r := Run(Mount(raw), [Grant, PressIn, PressOut]);
      Signals(r.effects) == [] && !r.activeStatus &&
      Timer(Mount(raw).timing.timers.next, ShowJob, Ms(0)) in r.timing.timers.pending &&
      Timer(Mount(raw).timing.timers.next + 1, HideJob, Ms(0)) in r.timing.timers.pending
  {
    var m0 := Mount(raw);
    RunGesture(m0);
    ZeroDelaysDeferActivation(m0);
    var r := ActivePressOut(ActivePressIn(ResponderGrant(m0)));
    SignalsNoNotify(r.effects);
  }

  lemma RunGesture(m: Machine)
    ensures Run(m, [Grant, PressIn, PressOut]) == ActivePressOut(ActivePressIn(ResponderGrant(m)))
  {
    assert [Grant, PressIn, PressOut][1..] == [PressIn, PressOut];
    assert [PressIn, PressOut][1..] == [PressOut];
  }

  lemma {:induction false} SignalsNoNotify(log: seq<Effect>)
    requires forall e | e in log :: !e.Notify?
    ensures Signals(log) == []
  {
    if log != [] {
      assert forall e | e in log[..|log| - 1] :: e in log;
      SignalsNoNotify(log[..|log| - 1]);
    }
  }
}
