/** The delayed-activation state machine of TouchableSetActive as functions
    over its state: one function per handler, each doing what the handler
    does to the instance fields, the timers and the outside world. */
module Machine {
  import opened Config
  import opened Timers

  /** What the component does to the outside world, in order. */
  datatype Effect =
    | Notify(via: ActiveType, active: bool) // `setActive.setState({active})` (Class) or `setActive(active)` (Func)
    | CalledOnPressIn
    | CalledOnPressOut
    | CalledOnPress
    | CalledOnLongPress
    | ForwardedGrant                          // `touchableHandleResponderGrant` of the touchable mixin

  /** The four timer slots of the component and the timers pending in its
      timer mixin. A slot holds the last handle assigned to it, which may
      no longer be pending. */
  datatype Timing = Timing(
    timers: Timers,
    showTimeout: Option<nat>,
    hideTimeout: Option<nat>,
    pressOutTimeout: Option<nat>,
    pressTimeout: Option<nat>)

  /** The instance fields of a mounted component. `props` never change,
      and `activeType`, `delayActive`, `delayInactive` are set once at
      mount; the rest is the state the handlers change. */
  datatype Machine = Machine(
    props: Props,
    activeType: ActiveType,
    delayActive: bool,
    delayInactive: bool,
    activeStatus: bool,
    fromPressIn: bool,
    isHiding: bool,
    timing: Timing,
    effects: seq<Effect>)

  /** The booleans sent to the activation target, in order. */
  function Signals(log: seq<Effect>): seq<bool> {
    if log == [] then []
    else
      var last := log[|log| - 1];
      Signals(log[..|log| - 1]) + (if last.Notify? then [last.active] else [])
  }

  /** The component right after `componentDidMount`, with React's default
      props applied; the initial state copies `setActive` from the props. */
  function Mount(raw: Props): (m: Machine)
    ensures m.props == WithDefaultProps(raw)
    ensures m.delayActive <==> raw.delayActive.Ms?
    ensures m.delayInactive <==> raw.delayInactive.Ms?
    ensures m.activeType == GetActiveType(m.props.setActive, m.props.setActive)
    ensures !m.activeStatus && !m.fromPressIn && !m.isHiding && m.effects == []
    ensures m.timing == Timing(NoTimers, None, None, None, None)
  {
    var props := WithDefaultProps(raw);
    Machine(props, GetActiveType(props.setActive, props.setActive),
            IsSet(props.delayActive), IsSet(props.delayInactive),
            false, false, false, Timing(NoTimers, None, None, None, None), [])
  }

  /** The slot that holds the handle of each kind of timer. */
  function Slot(tm: Timing, job: Job): Option<nat> {
    match job
    case ShowJob => tm.showTimeout
    case HideJob => tm.hideTimeout
    case PressOutJob => tm.pressOutTimeout
    case PressJob => tm.pressTimeout
  }

  function SetSlot(tm: Timing, job: Job, v: Option<nat>): (r: Timing)
    ensures Slot(r, job) == v
    ensures forall other :: other != job ==> Slot(r, other) == Slot(tm, other)
    ensures r.timers == tm.timers
  {
    match job
    case ShowJob => tm.(showTimeout := v)
    case HideJob => tm.(hideTimeout := v)
    case PressOutJob => tm.(pressOutTimeout := v)
    case PressJob => tm.(pressTimeout := v)
  }

  /** `this._x = this.setTimeout(job, delay)`: the slot's previous handle is
      overwritten, not cleared. */
  function ArmSlot(tm: Timing, job: Job, delay: Delay): (r: Timing)
    ensures Slot(r, job) == Some(tm.timers.next)
    ensures forall other :: other != job ==> Slot(r, other) == Slot(tm, other)
    ensures r.timers == SetTimeout(tm.timers, job, delay)
  {
    SetSlot(tm.(timers := SetTimeout(tm.timers, job, delay)), job, Some(tm.timers.next))
  }

  /** `this.clearTimeout(this._x); this._x = null;` */
  function ClearSlot(tm: Timing, job: Job): (r: Timing)
    ensures Slot(r, job) == None
    ensures forall other :: other != job ==> Slot(r, other) == Slot(tm, other)
    ensures r.timers == ClearTimeout(tm.timers, Slot(tm, job))
  {
    SetSlot(tm.(timers := ClearTimeout(tm.timers, Slot(tm, job))), job, None)
  }

  function Arm(m: Machine, job: Job, delay: Delay): Machine {
    m.(timing := ArmSlot(m.timing, job, delay))
  }

  function Clear(m: Machine, job: Job): Machine {
    m.(timing := ClearSlot(m.timing, job))
  }

  /** Tells the activation target `active`, through whichever call its type
      takes; a target of neither type is told nothing. */
  function NotifyTarget(m: Machine, active: bool): Machine {
    match m.activeType
    case Class => m.(effects := m.effects + [Notify(Class, active)])
    case Func => m.(effects := m.effects + [Notify(Func, active)])
    case NoType => m
  }

  /** Calls an optional outbound callback if it is bound. */
  function Callback(m: Machine, bound: bool, e: Effect): Machine {
    if bound then m.(effects := m.effects + [e]) else m
  }

  /** `_showActive` */
  function ShowActive(m: Machine): Machine {
    if !m.activeStatus then NotifyTarget(m.(activeStatus := true), true) else m
  }

  /** `_hideActive` */
  function HideActive(m: Machine): Machine {
    if m.activeStatus then NotifyTarget(Clear(m.(activeStatus := false), HideJob), false) else m
  }

  /** The hide delay of `_onPress` and of the grant's show timer:
      `_delayInactive ? delayInactive : delayOnPressOut || 150`. */
  function HideDelay(m: Machine): Delay {
    if m.delayInactive then m.props.delayInactive
    else Ms(OrDefault(m.props.delayOnPressOut, DEFAULT_HIDE_MS))
  }

  /** `touchableHandleActivePressIn` */
  function ActivePressIn(m: Machine): Machine {
    var m1 := Clear(m.(fromPressIn := true), HideJob);
    var m2 := if !m1.delayActive then ShowActive(m1) else m1;
    var m3 := if m2.delayInactive then Arm(m2, HideJob, m2.props.delayInactive) else m2;
    Callback(m3, m3.props.hasOnPressIn, CalledOnPressIn)
  }

  /** `_onPressOut`, the settle step. */
  function OnPressOut(m: Machine): Machine {
    var m1 := if m.timing.hideTimeout.None? && !m.delayInactive then HideActive(m.(isHiding := true)) else m;
    Callback(m1, m1.props.hasOnPressOut, CalledOnPressOut)
  }

  /** `touchableHandleActivePressOut` */
  function ActivePressOut(m: Machine): Machine {
    if Truthy(m.props.delayOnPressOut) then Arm(m, PressOutJob, m.props.delayOnPressOut)
    else OnPressOut(m)
  }

  /** `_onPress`, the commit step. */
  function OnPress(m: Machine): Machine {
    var m1 :=
      if !m.fromPressIn then
        var shown := if !m.delayActive then ShowActive(m) else m;
        Arm(shown.(isHiding := true), HideJob, HideDelay(shown))
      else m;
    Callback(m1, m1.props.hasOnPress, CalledOnPress)
  }

  /** `touchableHandlePress` */
  function HandlePress(m: Machine): Machine {
    if Truthy(m.props.delayOnPress) then
      if m.timing.pressTimeout.None? then Arm(m, PressJob, m.props.delayOnPress) else m
    else OnPress(m)
  }

  /** `touchableHandleLongPress` */
  function HandleLongPress(m: Machine): Machine {
    Callback(m, m.props.hasOnLongPress, CalledOnLongPress)
  }

  /** `_componentHandleResponderGrant`, ending with the call into the
      touchable mixin's own grant handling. */
  function ResponderGrant(m: Machine): Machine {
    var m1 := Clear(Clear(m.(fromPressIn := false, isHiding := false), PressOutJob), HideJob);
    var m2 := if m1.delayActive && m1.timing.showTimeout.None? then Arm(m1, ShowJob, m1.props.delayActive) else m1;
    m2.(effects := m2.effects + [ForwardedGrant])
  }

  /** `this.clearTimeout(this._hideTimeout)`, leaving the slot as it is. */
  function CancelHide(tm: Timing): (r: Timing)
    ensures forall job :: Slot(r, job) == Slot(tm, job)
    ensures r.timers == ClearTimeout(tm.timers, tm.hideTimeout)
  {
    tm.(timers := ClearTimeout(tm.timers, tm.hideTimeout))
  }

  /** The body of the grant's show timer. */
  function ShowTimerFired(m: Machine): Machine {
    var m1 := ShowActive(Clear(m, ShowJob));
    if m1.delayInactive || m1.isHiding then
      var m2 := if m1.isHiding then m1.(timing := CancelHide(m1.timing)) else m1;
      Arm(m2, HideJob, HideDelay(m2))
    else m1
  }

  /** The body of the press timer. */
  function PressTimerFired(m: Machine): Machine {
    OnPress(Clear(m, PressJob))
  }

  /** The mixin drops a timer from its pending list as it fires. */
  function Expire(tm: Timing, h: nat): (r: Timing)
    ensures forall job :: Slot(r, job) == Slot(tm, job)
    ensures r.timers == ClearTimeout(tm.timers, Some(h))
  {
    tm.(timers := tm.timers.(pending := Remove(tm.timers.pending, h)))
  }

  /** The timer holding handle `h` fires: the mixin drops it from its
      pending list and runs its job. A handle that is not pending (cleared,
      or already fired) never fires. */
  function Fire(m: Machine, h: nat): Machine {
    match Lookup(m.timing.timers.pending, h)
    case None => m
    case Some(t) =>
      var m1 := m.(timing := Expire(m.timing, h));
      match t.job
      case ShowJob => ShowTimerFired(m1)
      case HideJob => HideActive(m1)
      case PressOutJob => OnPressOut(m1)
      case PressJob => PressTimerFired(m1)
  }

  /** The signals the touchable mixin delivers, and timer firings. */
  datatype Event = Grant | PressIn | PressOut | Press | LongPress | TimerFires(handle: nat)

  function Step(m: Machine, e: Event): Machine {
    match e
    case Grant => ResponderGrant(m)
    case PressIn => ActivePressIn(m)
    case PressOut => ActivePressOut(m)
    case Press => HandlePress(m)
    case LongPress => HandleLongPress(m)
    case TimerFires(h) => Fire(m, h)
  }

  /** The component after handling `events` one at a time, in order. */
  function Run(m: Machine, events: seq<Event>): Machine
    decreases |events|
  {
    if events == [] then m else Run(Step(m, events[0]), events[1..])
  }
}
