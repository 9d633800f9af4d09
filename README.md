# TouchableSetActive: the delayed-activation state machine

`TouchableSetActive` is a React Native touchable. It tells an *activation
target* (a function, or a composite component whose state it sets) when the
view it wraps should look active and when it should look inactive. Both
changes can be delayed, and so can the `onPressIn`, `onPressOut` and `onPress`
callbacks. The touchable mixin decides what counts as a grant, a press-in, a
press-out, a press or a long press. The component reacts to those signals by
arming and cancelling one-shot timers from its timer mixin and by flipping an
active flag.

This project models that reaction and proves properties of it.

- `config.dfy` (module `Config`) holds the props and the pure helpers:
  - the two delay resolvers;
  - the activation-target classifier `_getActiveType`;
  - the two "is delayed" flags computed at mount, where an explicit 0 counts as set;
  - React's default props.
- `timers.dfy` (module `Timers`) models the timer mixin as the component sees
  it:
  - a list of pending timers, each with a handle, a job and a delay;
  - `setTimeout`, which returns a fresh handle;
  - `clearTimeout`, which is harmless on `null` and on a handle that already fired.
- `machine.dfy` (module `Machine`) holds the component's state as a value and
  one function per handler, including the bodies of the timers. A timer is
  identified by its handle. Only a pending timer fires, and firing drops it
  from the pending list. `Step` and `Run` feed the handlers a sequence of
  events.
- `invariants.dfy` (module `Invariant`) holds the invariant that every
  reachable state keeps, and the proofs that each handler preserves it. From
  them follow two theorems:
  - the target is told `true` and `false` strictly alternately, ending with the active flag;
  - at most one show timer and at most one press timer are ever pending.
- `handlers.dfy` (module `Handlers`) states, for each handler, what it does
  to the flags, the timer slots, the pending timers and the effect log. It
  also holds lemmas that exhibit the code's behaviour where it re-arms a
  timer slot without clearing it first.
- `component.dfy` (module `Component`) is the component as an object.
  - The class `TouchableSetActive` has the instance fields the handlers update in place.
  - Each handler is a method that updates those fields step by step, in the source's order.
  - Each method is proved to produce exactly the state the matching `Machine` function describes.
  - Every handler method is also proved to keep the invariant. The two timer bodies and the three helpers (`SetTimer`, `ClearTimer`, `NotifyActive`) state only their new state; they keep the invariant as part of `Fire`.

## Model

| member | source | states |
|---|---|---|
| Config.IsSet | TouchableSetActive.js:108-111 | `!!(d \|\| d === 0)` holds exactly when the delay prop is a number, so an explicit 0 counts as set |
| Config.WithDefaultProps | TouchableSetActive.js:38-40 | only `delayOnPressOut` has a default, 150 ms, applied when it is unset; every other prop is left as given |
| Config.ResolveDelay | TouchableSetActive.js:198-206 | the shared resolver shape: 0 resolves to 0, unset to the default, any other number to itself |
| Config.HighlightDelayMS | TouchableSetActive.js:198-201 | `delayOnPressIn` of 0 gives 0; unset gives 120; any other value gives that value |
| Config.LongPressDelayMS | TouchableSetActive.js:203-206 | `delayOnLongPress` of 0 gives 0; unset gives 400; any other value gives that value |
| Config.GetActiveType | TouchableSetActive.js:121-129 | the target is the state's `setActive`, or the prop's when the state's is falsy; it is 'func' exactly when that is a function and 'class' exactly when it is a composite instance; otherwise `false` |
| Timers.SetTimeout | TouchableSetActive.js:141-142 | the new timer gets a handle no pending timer holds; it joins the pending timers and nothing else changes; handles stay ordered and unique |
| Timers.ClearTimeout | TouchableSetActive.js:137-138 | after clearing, the handle is no longer pending and every other pending timer stays; `null` changes nothing |
| Timers.RemoveIdempotent | TouchableSetActive.js:241 | clearing a handle that was already dropped as it fired changes nothing more |
| Timers.RemoveAbsent | TouchableSetActive.js:245 | clearing a handle that is no longer pending leaves the timers exactly as they were |
| Machine.Mount | TouchableSetActive.js:106-112 | at mount the props carry their defaults; the target's type is `_getActiveType` of the `setActive` prop (line 107); the two "is delayed" flags hold exactly when the props are numbers; the component is inactive, `_fromPressIn` and `_isHiding` are false, all four slots are empty and no timer is pending |
| Machine.ArmSlot | TouchableSetActive.js:141-142 | `this._x = this.setTimeout(...)` stores the new handle in its slot, leaves the other slots alone, and does not cancel what the slot held before |
| Machine.ClearSlot | TouchableSetActive.js:137-138 | `clearTimeout` followed by `= null` empties the slot and cancels what it named, leaving the other slots alone |
| Machine.CancelHide | TouchableSetActive.js:245 | cancels what the hide slot names but leaves the slot as it is |
| Machine.ShowActive | TouchableSetActive.js:208-217 | `_showActive`; its contract is `Handlers.ShowActiveSpec` and `Invariant.ShowActiveInv` |
| Machine.HideActive | TouchableSetActive.js:219-230 | `_hideActive`; its contract is `Handlers.HideActiveSpec` and `Invariant.HideActiveInv` |
| Machine.HideDelay | TouchableSetActive.js:184-185 | the hide delay of the commit step and the show-timer body; its contract is `Handlers.HideDelaySpec` |
| Machine.ActivePressIn | TouchableSetActive.js:135-145 | `touchableHandleActivePressIn`; its contract is `Handlers.PressInSpec` and `Invariant.PressInInv` |
| Machine.OnPressOut | TouchableSetActive.js:157-163 | `_onPressOut`, the settle step; its contract is `Handlers.OnPressOutSpec` and `Invariant.OnPressOutInv` |
| Machine.ActivePressOut | TouchableSetActive.js:147-155 | `touchableHandleActivePressOut`; its contract is `Handlers.PressOutSpec` and `Invariant.PressOutInv` |
| Machine.OnPress | TouchableSetActive.js:179-188 | `_onPress`, the commit step; its contract is `Handlers.OnPressSpec` and `Invariant.OnPressInv` |
| Machine.HandlePress | TouchableSetActive.js:165-177 | `touchableHandlePress`; its contract is `Handlers.HandlePressSpec` and `Invariant.HandlePressInv` |
| Machine.HandleLongPress | TouchableSetActive.js:190-192 | `touchableHandleLongPress`; its contract is `Handlers.LongPressSpec` |
| Machine.ResponderGrant | TouchableSetActive.js:232-253 | `_componentHandleResponderGrant`; its contract is `Handlers.GrantSpec` and `Invariant.GrantInv` |
| Machine.ShowTimerFired | TouchableSetActive.js:240-250 | the body of the grant's show timer; its contract is `Handlers.ShowTimerFiredSpec` and `Invariant.ShowTimerInv` |
| Machine.PressTimerFired | TouchableSetActive.js:168-172 | the body of the press timer; its contract is `Handlers.PressTimerSpec` and `Invariant.PressTimerInv` |
| Machine.Fire | TouchableSetActive.js:25 | the timer mixin firing a handle: only a pending timer runs, after being dropped; the firing itself belongs to the timer mixin (line 25); the timers are armed at lines 141, 149, 168, 183, 240 and 246; its contract is `Handlers.ShowTimerSpec`, `Handlers.HideTimerSpec`, `Handlers.PressOutTimerSpec`, `Handlers.PressTimerSpec`, `Handlers.StaleHandleSpec`, `Handlers.StaleNeverFiresAgain` and `Invariant.FireInv` |
| Handlers.ShowActiveSpec | TouchableSetActive.js:208-217 | `_showActive` sets the flag; it tells the target `true`, through the call its type takes, exactly when the flag was false; a second call adds nothing; nothing else changes |
| Handlers.HideActiveSpec | TouchableSetActive.js:219-230 | `_hideActive` is a no-op when inactive; otherwise it clears the flag, cancels and empties the hide slot, leaves the other slots alone, and tells the target `false` once; nothing else changes; a second call adds nothing |
| Handlers.GrantSpec | TouchableSetActive.js:232-253 | grant resets `_fromPressIn` and `_isHiding`; it cancels and empties the press-out and hide slots; it arms the show timer only when activation is delayed and the show slot is empty; pending timers are exactly the old ones minus those two slots' timers, plus the new show timer; nothing else changes |
| Handlers.ShowTimerFiredSpec | TouchableSetActive.js:240-250 | the show-timer body empties the show slot and shows; it re-arms hide with `HideDelay` exactly when deactivation is delayed or `_isHiding` holds, cancelling the slot's timer first only when `_isHiding` holds; nothing else changes |
| Handlers.ShowTimerSpec | TouchableSetActive.js:240-250 | a pending show timer that fires is dropped by the mixin, and the show-timer body runs |
| Handlers.HideDelaySpec | TouchableSetActive.js:184-185 | the hide delay is `delayInactive` when deactivation is delayed, else `delayOnPressOut`, or 150 when that is not truthy |
| Handlers.PressInSpec | TouchableSetActive.js:135-145 | press-in sets `_fromPressIn` and cancels and empties the hide slot; it shows at once exactly when activation is not delayed; it arms a hide of `delayInactive` exactly when deactivation is delayed; then it calls `onPressIn` if bound; nothing else changes |
| Handlers.PressOutSpec | TouchableSetActive.js:147-155 | a truthy `delayOnPressOut` arms a press-out timer and changes nothing else (the old one stays pending); a 0 runs the settle step at once |
| Handlers.UnsetPressOutIsDeferred | TouchableSetActive.js:38-40 | because of the default prop, leaving `delayOnPressOut` unset arms a 150 ms press-out timer |
| Handlers.OnPressOutSpec | TouchableSetActive.js:157-163 | the settle step sets `_isHiding` and hides exactly when the hide slot is empty and deactivation is not delayed; it never changes the timers, since it hides only when the hide slot is already empty; it always calls `onPressOut` last; nothing else changes |
| Handlers.PressOutTimerSpec | TouchableSetActive.js:149-151 | a pending press-out timer that fires runs the settle step |
| Handlers.HandlePressSpec | TouchableSetActive.js:165-177 | with a truthy `delayOnPress`, a press arms the press timer only when the press slot is empty (the timers are exactly those of arming that slot), so a second press meanwhile changes nothing; otherwise the commit step runs at once |
| Handlers.OnPressSpec | TouchableSetActive.js:179-188 | after a press-in the commit step only calls `onPress`; otherwise it shows unless activation is delayed, sets `_isHiding`, arms a hide of `HideDelay` over the slot's old handle (the timers are exactly those of arming the hide slot, so the old timer stays pending), then calls `onPress`; nothing else changes |
| Handlers.PressTimerSpec | TouchableSetActive.js:168-172 | a pending press timer that fires empties the press slot and runs the commit step |
| Handlers.HideTimerSpec | TouchableSetActive.js:141-142 | a pending hide timer that fires runs `_hideActive` |
| Handlers.StaleHandleSpec | TouchableSetActive.js:137 | firing a handle that is not pending changes nothing |
| Handlers.StaleNeverFiresAgain | TouchableSetActive.js:235-238 | a handle that was handed out and then cleared or fired stays non-pending through any later touch signals and timer firings, so it never fires again |
| Handlers.LongPressSpec | TouchableSetActive.js:190-192 | long-press only calls `onLongPress`, if bound |
| Handlers.PressOutTimerOutlivesGrant | TouchableSetActive.js:147-155 | two press-outs each arm a press-out timer into one slot; the next grant cancels only the second, so the first stays pending into the new gesture |
| Handlers.ShowTimerOrphansHide | TouchableSetActive.js:244-248 | when the show timer fires with deactivation delayed and `_isHiding` false, it arms a second hide timer without cancelling the one press-in armed, and both stay pending |
| Handlers.GrantThenPressIn | TouchableSetActive.js:232-253 | with both delays set, a grant followed by press-in leaves the show timer and a hide timer pending together |
| Handlers.ZeroDelaysDeferActivation | TouchableSetActive.js:108-111 | with `delayActive`, `delayInactive` and `delayOnPressOut` all 0, grant, press-in and press-out tell the target nothing; the show waits on the show timer |
| Handlers.AllZeroDelaysDeferActivation | TouchableSetActive.js:106-112 | the same gesture, run from mount, leaves the target untold and inactive, with the show timer (the first handle handed out after mount) and press-in's hide timer (the next one) pending |
| Invariant.ShowActiveInv | TouchableSetActive.js:208-217 | `_showActive` keeps the notification log alternating and appends `true` exactly when it was inactive |
| Invariant.HideActiveInv | TouchableSetActive.js:219-230 | `_hideActive` keeps the invariant and appends `false` exactly when it was active |
| Invariant.GrantInv | TouchableSetActive.js:232-253 | grant keeps the invariant |
| Invariant.PressInInv | TouchableSetActive.js:135-145 | press-in keeps the invariant |
| Invariant.PressOutInv | TouchableSetActive.js:147-155 | press-out keeps the invariant |
| Invariant.OnPressOutInv | TouchableSetActive.js:157-163 | the settle step keeps the invariant |
| Invariant.HandlePressInv | TouchableSetActive.js:165-177 | a press keeps the invariant |
| Invariant.OnPressInv | TouchableSetActive.js:179-188 | the commit step keeps the invariant |
| Invariant.ShowTimerInv | TouchableSetActive.js:240-250 | the show timer's body keeps the invariant, including the one-show-timer part, because it empties its own slot |
| Invariant.PressTimerInv | TouchableSetActive.js:168-172 | the press timer's body keeps the invariant, because it empties its own slot |
| Invariant.FireInv | TouchableSetActive.js:25 | any timer firing, stale or not, keeps the invariant; the firing itself belongs to the timer mixin (line 25); the timers are armed at lines 141, 149, 168, 183, 240 and 246 |
| Invariant.MountInv | TouchableSetActive.js:106-112 | the mounted component satisfies the invariant |
| Invariant.RunInv | TouchableSetActive.js:135-253 | every sequence of touch signals and timer firings keeps the invariant |
| Invariant.NotificationsAlternate | TouchableSetActive.js:208-230 | whatever happens after mount, the target is told `true` and `false` strictly alternately starting with `true`, never the same value twice in a row; the last value equals the active flag; a target of neither type is told nothing; the props and the target's type stay those computed at mount |
| Invariant.OneShowAndOnePressTimer | TouchableSetActive.js:239-241 | after mount at most one show timer and one press timer are ever pending, and the slot names it |
| Invariant.UntypedTargetToldNothing | TouchableSetActive.js:121-129 | a `setActive` prop that is neither a function nor a composite instance is never told anything, whatever happens after mount |
| Invariant.StepKeepsConfig | TouchableSetActive.js:106-112 | no handler and no timer firing changes the props, the target's type or the two "is delayed" flags set at mount |
| Invariant.RunKeepsConfig | TouchableSetActive.js:106-112 | the same holds over any sequence of touch signals and timer firings |
| Component.TouchableSetActive.constructor | TouchableSetActive.js:106-112 | the fields after mount are those of `Machine.Mount`, and the invariant holds |
| Component.TouchableSetActive.SetTimer | TouchableSetActive.js:141-142 | returns the handle `setTimeout` hands out and adds the timer; the other fields do not change |
| Component.TouchableSetActive.ClearTimer | TouchableSetActive.js:137 | cancels the given handle; the other fields do not change |
| Component.TouchableSetActive.NotifyActive | TouchableSetActive.js:211-215 | calls `setState({active})` or the function, whichever the target's type takes, and nothing for a target of neither type |
| Component.TouchableSetActive.ShowActive | TouchableSetActive.js:208-217 | updates the fields as `Machine.ShowActive` says and keeps the invariant |
| Component.TouchableSetActive.HideActive | TouchableSetActive.js:219-230 | updates the fields as `Machine.HideActive` says and keeps the invariant |
| Component.TouchableSetActive.ActivePressIn | TouchableSetActive.js:135-145 | updates the fields as `Machine.ActivePressIn` says and keeps the invariant |
| Component.TouchableSetActive.ActivePressOut | TouchableSetActive.js:147-155 | updates the fields as `Machine.ActivePressOut` says and keeps the invariant |
| Component.TouchableSetActive.OnPressOut | TouchableSetActive.js:157-163 | updates the fields as `Machine.OnPressOut` says and keeps the invariant |
| Component.TouchableSetActive.HandlePress | TouchableSetActive.js:165-177 | updates the fields as `Machine.HandlePress` says and keeps the invariant |
| Component.TouchableSetActive.OnPress | TouchableSetActive.js:179-188 | updates the fields as `Machine.OnPress` says and keeps the invariant |
| Component.TouchableSetActive.HandleLongPress | TouchableSetActive.js:190-192 | updates the fields as `Machine.HandleLongPress` says and keeps the invariant |
| Component.TouchableSetActive.ResponderGrant | TouchableSetActive.js:232-253 | updates the fields as `Machine.ResponderGrant` says and keeps the invariant |
| Component.TouchableSetActive.ShowTimerFired | TouchableSetActive.js:240-250 | the show timer's body updates the fields as `Machine.ShowTimerFired` says |
| Component.TouchableSetActive.PressTimerFired | TouchableSetActive.js:168-172 | the press timer's body updates the fields as `Machine.PressTimerFired` says |
| Component.TouchableSetActive.Fire | TouchableSetActive.js:25 | the mixin fires a handle: only a pending timer runs its body, after being dropped; the fields change as `Machine.Fire` says and the invariant is kept; the firing itself belongs to the timer mixin (line 25); the timers are armed at lines 141, 149, 168, 183, 240 and 246 |

## Behaviour of the code worth knowing

The model follows the code in each of these places.

- **Three places overwrite a timer slot without cancelling the timer it
  named**:
  - press-out (line 149);
  - the commit step (line 183);
  - the show-timer body when `_isHiding` is false (lines 246-248).

  The overwritten timer stays pending and still runs
  (`PressOutTimerOutlivesGrant`, `ShowTimerOrphansHide`, `OnPressSpec`).
  The show and press slots are never overwritten this way: at most one show
  timer and one press timer are pending, each named by its slot
  (`OneShowAndOnePressTimer`).
- **A grant cancels only the press-out and hide timers its two slots name (lines 235-238).**
  A show timer armed by one grant and still pending at the next grant is not
  re-armed (line 239), and a pending press timer is left alone. Either stays
  pending and may fire during the new gesture (`GrantSpec`).
- **An unset `delayOnPressOut` defers the settle step by 150 ms.** The
  default prop (lines 38-40) makes it 150, so press-out arms a 150 ms
  press-out timer (`UnsetPressOutIsDeferred`).
- **A `delayActive` of 0 still defers the show to a timer**, because the
  mount flags count 0 as set (lines 108-109). A gesture of grant, press-in
  and press-out with `delayActive`, `delayInactive` and `delayOnPressOut`
  all 0 tells the target nothing until the show timer fires
  (`ZeroDelaysDeferActivation`, `AllZeroDelaysDeferActivation`).

## Left out

- `render` and its `cloneElement`/`onlyChild` wiring (lines 255-267) are UI composition.
- The `setActive` prop validator (lines 50-59) depends on React's test utilities. The activation target is an abstract tag (`TargetValue`).
- The touchable mixin's own responder logic is not modelled: `touchableHandleResponderGrant` and the move, release, terminate and termination-request handlers (lines 252, 260-265). Its signals are the inputs `Event`, and the call at line 252 is recorded only as the effect `ForwardedGrant`.
- The timer mixin's real scheduling is not modelled. There is no wall-clock time: any pending timer may fire between two events, in any order the caller chooses. The delays are recorded on each timer but never compared.
- `getInitialState` and `componentWillReceiveProps` (lines 100-119) are not modelled. Props are fixed after mount. `GetActiveType` is applied at mount to the initial state's copy of the prop.
- `touchableGetPressRectOffset` and `PRESS_RECT_OFFSET` (lines 194-196, 270) are a constant with no logic.
- The two ways of telling the target (`setState({active})` and a function call) are recorded only as a tag on the `Notify` effect.
- Outbound callbacks are recorded as effects. A callback that throws is not modelled.
- Delays are integers. `NaN` and fractional delays are not modelled.
- `null` delay props are not modelled. `Unset` stands for `undefined` only. React applies default props only to `undefined`, so `delayOnPressOut={null}` would run the settle step at once instead of arming a 150 ms timer; the model has no such prop value.
- Unmount is not modelled; the timer mixin (lines 25, 89) cancels every pending timer then.
- `touchableGetHighlightDelayMS` and `touchableGetLongPressDelayMS` are modelled as pure functions (`HighlightDelayMS`, `LongPressDelayMS`). They are not wired into the state machine, because only the touchable mixin reads them.
