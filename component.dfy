/** The mounted TouchableSetActive as an object: the instance fields its
    handlers update in place, and one method per handler, each proved to
    change the fields exactly as the corresponding function of `Machine`
    says and to keep the invariant of `Invariant`. */
module Component {
  import opened Config
  import opened Timers
  import opened Machine
  // The module and its state datatype share the name `Machine`, so a
  // qualified `Machine.ShowActive` would resolve against the datatype; the
  // alias `M` names the module's functions where a method of the same name
  // is in scope.
  import M = Machine
  import opened Invariant

  class TouchableSetActive {
    const props: Props
    const activeType: ActiveType
    const delayActive: bool
    const delayInactive: bool

    var activeStatus: bool
    var fromPressIn: bool
    var isHiding: bool
    var showTimeout: Option<nat>
    var hideTimeout: Option<nat>
    var pressOutTimeout: Option<nat>
    var pressTimeout: Option<nat>
    /** The timer mixin's own state. */
    var mixin: Timers
    /** What the component has done to the outside world so far. */
    var effects: seq<Effect>

    /** The fields as a value of the state machine. */
    function State(): Machine
      reads this
    {
      Machine(props, activeType, delayActive, delayInactive, activeStatus, fromPressIn, isHiding,
              Timing(mixin, showTimeout, hideTimeout, pressOutTimeout, pressTimeout), effects)
    }

    /** The invariant of every reachable state. The handler methods promise
        `old(Valid()) ==> Valid()` rather than requiring `Valid()`: the
        methods call one another (a timer body calls `_showActive`, the
        commit step calls it too), and carrying the whole invariant as a
        precondition into every nested call makes each proof far costlier
        than proving the state equal to the `Machine` function and then
        appealing to that function's preservation lemma once. */
    ghost predicate Valid()
      reads this
    {
      Inv(State())
    }

    /** Mounting: React applies the default props, `getInitialState` and
        `componentDidMount` compute the activation target's type and the two
        "is delayed" flags. */
    constructor (raw: Props)
      ensures State() == Mount(raw)
      ensures Valid()
    {
      var p := WithDefaultProps(raw);
      props := p;
      activeType := GetActiveType(p.setActive, p.setActive);
      delayActive := IsSet(p.delayActive);
      delayInactive := IsSet(p.delayInactive);
      activeStatus := false;
      fromPressIn := false;
      isHiding := false;
      showTimeout := None;
      hideTimeout := None;
      pressOutTimeout := None;
      pressTimeout := None;
      mixin := NoTimers;
      effects := [];
      MountInv(raw);
    }

    // -------------------------------------------------------------------
    // The timer mixin

    /** `this.setTimeout(job, delay)`: the handle of the new timer. */
    method SetTimer(job: Job, delay: Delay) returns (h: nat)
      modifies this
      ensures h == old(mixin.next)
      ensures mixin == SetTimeout(old(mixin), job, delay)
      ensures State() == old(State()).(timing := old(State()).timing.(timers := mixin))
    {
      h := mixin.next;
      mixin := SetTimeout(mixin, job, delay);
    }

    /** `this.clearTimeout(h)` */
    method ClearTimer(h: Option<nat>)
      modifies this
      ensures mixin == ClearTimeout(old(mixin), h)
      ensures State() == old(State()).(timing := old(State()).timing.(timers := mixin))
    {
      mixin := ClearTimeout(mixin, h);
    }

    // -------------------------------------------------------------------
    // Activation

    /** Tells the activation target `active` through the call its type takes. */
    method NotifyActive(active: bool)
      modifies this
      ensures State() == NotifyTarget(old(State()), active)
    {
      match activeType
      case Class => effects := effects + [Notify(Class, active)];
      case Func => effects := effects + [Notify(Func, active)];
      case NoType =>
    }

    /** `_showActive` */
    method ShowActive()
      modifies this
      ensures State() == M.ShowActive(old(State()))
      ensures old(Valid()) ==> Valid()
    {
      ghost var s := State();
      if !activeStatus {
        activeStatus := true;
        NotifyActive(true);
      }
      if Inv(s) {
        ShowActiveInv(s);
      }
    }

    /** `_hideActive` */
    method HideActive()
      modifies this
      ensures State() == M.HideActive(old(State()))
      ensures old(Valid()) ==> Valid()
    {
      ghost var s := State();
      if activeStatus {
        activeStatus := false;
        ClearTimer(hideTimeout);
        hideTimeout := None;
        NotifyActive(false);
      }
      if Inv(s) {
        HideActiveInv(s);
      }
    }

    // -------------------------------------------------------------------
    // Touchable callbacks

    /** `touchableHandleActivePressIn` */
    method ActivePressIn()
      modifies this
      ensures State() == M.ActivePressIn(old(State()))
      ensures old(Valid()) ==> Valid()
    {
      ghost var s := State();
      fromPressIn := true;
      ClearTimer(hideTimeout);
      hideTimeout := None;
      ghost var m1 := State();
      assert m1 == Clear(s.(fromPressIn := true), HideJob);
      if !delayActive {
        ShowActive();
      }
      ghost var m2 := State();
      assert m2 == if !m1.delayActive then M.ShowActive(m1) else m1;
      if delayInactive {
        var h := SetTimer(HideJob, props.delayInactive);
        hideTimeout := Some(h);
      }
      ghost var m3 := State();
      assert m3 == if m2.delayInactive then Arm(m2, HideJob, m2.props.delayInactive) else m2;
      if props.hasOnPressIn {
        effects := effects + [CalledOnPressIn];
      }
      assert State() == Callback(m3, m3.props.hasOnPressIn, CalledOnPressIn);
      if Inv(s) {
        PressInInv(s);
      }
    }

    /** `touchableHandleActivePressOut` */
    method ActivePressOut()
      modifies this
      ensures State() == M.ActivePressOut(old(State()))
      ensures old(Valid()) ==> Valid()
    {
      ghost var s := State();
      if Truthy(props.delayOnPressOut) {
        var h := SetTimer(PressOutJob, props.delayOnPressOut);
        pressOutTimeout := Some(h);
      } else {
        OnPressOut();
      }
      if Inv(s) {
        PressOutInv(s);
      }
    }

    /** `_onPressOut` */
    method OnPressOut()
      modifies this
      ensures State() == M.OnPressOut(old(State()))
      ensures old(Valid()) ==> Valid()
    {
      ghost var s := State();
      if hideTimeout.None? && !delayInactive {
        isHiding := true;
        HideActive();
      }
      if props.hasOnPressOut {
        effects := effects + [CalledOnPressOut];
      }
      if Inv(s) {
        OnPressOutInv(s);
      }
    }

    /** `touchableHandlePress` */
    method HandlePress()
      modifies this
      ensures State() == M.HandlePress(old(State()))
      ensures old(Valid()) ==> Valid()
    {
      ghost var s := State();
      if Truthy(props.delayOnPress) {
        if pressTimeout.None? {
          var h := SetTimer(PressJob, props.delayOnPress);
          pressTimeout := Some(h);
        }
      } else {
        OnPress();
      }
      if Inv(s) {
        HandlePressInv(s);
      }
    }

    /** `_onPress` */
    method OnPress()
      modifies this
      ensures State() == M.OnPress(old(State()))
      ensures old(Valid()) ==> Valid()
    {
      ghost var s := State();
      if !fromPressIn {
        if !delayActive {
          ShowActive();
        }
        isHiding := true;
        var delay := if delayInactive then props.delayInactive
                     else Ms(OrDefault(props.delayOnPressOut, DEFAULT_HIDE_MS));
        var h := SetTimer(HideJob, delay);
        hideTimeout := Some(h);
      }
      if props.hasOnPress {
        effects := effects + [CalledOnPress];
      }
      if Inv(s) {
        OnPressInv(s);
      }
    }

    /** `touchableHandleLongPress` */
    method HandleLongPress()
      modifies this
      ensures State() == M.HandleLongPress(old(State()))
      ensures old(Valid()) ==> Valid()
    {
      ghost var s := State();
      if props.hasOnLongPress {
        effects := effects + [CalledOnLongPress];
      }
      if Inv(s) {
        CallbackInv(s, props.hasOnLongPress, CalledOnLongPress);
      }
    }

    /** `_componentHandleResponderGrant` */
    method ResponderGrant()
      modifies this
      ensures State() == M.ResponderGrant(old(State()))
      ensures old(Valid()) ==> Valid()
    {
      ghost var s := State();
      fromPressIn := false;
      isHiding := false;
      ghost var m0 := State();
      assert m0 == s.(fromPressIn := false, isHiding := false);
      ClearTimer(pressOutTimeout);
      pressOutTimeout := None;
      ghost var c0 := State();
      assert c0 == Clear(m0, PressOutJob);
      ClearTimer(hideTimeout);
      hideTimeout := None;
      ghost var m1 := State();
      assert m1 == Clear(c0, HideJob);
      if delayActive && showTimeout.None? {
        var h := SetTimer(ShowJob, props.delayActive);
        showTimeout := Some(h);
        assert State() == Arm(m1, ShowJob, props.delayActive);
      }
      ghost var m2 := State();
      assert m2 == if m1.delayActive && m1.timing.showTimeout.None? then Arm(m1, ShowJob, m1.props.delayActive) else m1;
      effects := effects + [ForwardedGrant];
      assert State() == M.ResponderGrant(s);
      if Inv(s) {
        GrantInv(s);
      }
    }

    // -------------------------------------------------------------------
    // Timer bodies

    /** The body of the grant's show timer. */
    method ShowTimerFired()
      modifies this
      ensures State() == M.ShowTimerFired(old(State()))
    {
      ClearTimer(showTimeout);
      showTimeout := None;
      ShowActive();
      if delayInactive || isHiding {
        if isHiding {
          ClearTimer(hideTimeout);
        }
        var delay := if delayInactive then props.delayInactive
                     else Ms(OrDefault(props.delayOnPressOut, DEFAULT_HIDE_MS));
        var h := SetTimer(HideJob, delay);
        hideTimeout := Some(h);
      }
    }

    /** The body of the press timer. */
    method PressTimerFired()
      modifies this
      ensures State() == M.PressTimerFired(old(State()))
    {
      ClearTimer(pressTimeout);
      pressTimeout := None;
      OnPress();
    }

    /** The timer mixin fires the timer holding handle `h`, if it is still
        pending: it drops it from its pending list and runs its body. */
    method Fire(h: nat)
      modifies this
      ensures State() == M.Fire(old(State()), h)
      ensures old(Valid()) ==> Valid()
    {
      ghost var s := State();
      var found := Lookup(mixin.pending, h);
      if found.Some? {
        var t := found.value;
        mixin := mixin.(pending := Remove(mixin.pending, h));
        ghost var e := s.(timing := Expire(s.timing, h));
        assert State() == e;
        match t.job {
          case ShowJob =>
            ShowTimerFired();
          case HideJob =>
            HideActive();
          case PressOutJob =>
            OnPressOut();
          case PressJob =>
            PressTimerFired();
        }
        assert State() == M.Fire(s, h);
      }
      if Inv(s) {
        FireInv(s, h);
      }
    }
  }
}
