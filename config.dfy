/** Props of a TouchableSetActive and the pure helpers that read them:
    the delay resolvers, the activation-target classifier and the two
    "is delayed" flags computed at mount. */
module Config {

  /** A delay prop as JavaScript sees it: `undefined` or a number of
      milliseconds. Only `Ms(0)` among the numbers is falsy. */
  datatype Delay = Unset | Ms(ms: int)

  /** The value bound to the `setActive` prop, reduced to what the
      component asks of it: falsy, a function, a composite component
      instance, or some other object. */
  datatype TargetValue = Undefined | FunctionValue | CompositeInstance | OtherObject

  /** The classification `_getActiveType` stores in `_activeType`:
      'func', 'class' or `false`. */
  datatype ActiveType = Func | Class | NoType

  datatype Props = Props(
    setActive: TargetValue,
    delayActive: Delay,
    delayInactive: Delay,
    delayOnPress: Delay,
    delayOnPressIn: Delay,
    delayOnPressOut: Delay,
    delayOnLongPress: Delay,
    // whether the optional outbound callbacks are bound
    hasOnPressIn: bool,
    hasOnPressOut: bool,
    hasOnPress: bool,
    hasOnLongPress: bool)

  const DEFAULT_HIDE_MS: int := 150
  const DEFAULT_ACTIVE_MS: int := 120
  const DEFAULT_LONG_PRESS_MS: int := 400

  /** JavaScript truthiness of a delay prop. */
  predicate Truthy(d: Delay) {
    d.Ms? && d.ms != 0
  }

  /** `d || dflt` for a delay prop. */
  function OrDefault(d: Delay, dflt: int): (r: int)
    ensures Truthy(d) ==> r == d.ms
    ensures !Truthy(d) ==> r == dflt
  {
    if Truthy(d) then d.ms else dflt
  }

  /** `!!(d || d === 0)`: an explicit 0 counts as set. */
  function IsSet(d: Delay): (r: bool)
    ensures r <==> d.Ms?
  {
    Truthy(d) || d == Ms(0)
  }

  /** `getDefaultProps`: only `delayOnPressOut` has a default (150 ms);
      React applies it when the prop is `undefined`. */
  function WithDefaultProps(p: Props): (r: Props)
    ensures r.delayOnPressOut == if p.delayOnPressOut.Unset? then Ms(DEFAULT_HIDE_MS) else p.delayOnPressOut
    ensures r.(delayOnPressOut := p.delayOnPressOut) == p
  {
    if p.delayOnPressOut == Unset then p.(delayOnPressOut := Ms(DEFAULT_HIDE_MS)) else p
  }

  /** The resolver shape shared by `touchableGetHighlightDelayMS` and
      `touchableGetLongPressDelayMS`: `d === 0 ? 0 : d || dflt`. */
  function ResolveDelay(d: Delay, dflt: int): (r: int)
    ensures d == Ms(0) ==> r == 0
    ensures d == Unset ==> r == dflt
    ensures d.Ms? && d.ms != 0 ==> r == d.ms
  {
    if d == Ms(0) then 0 else OrDefault(d, dflt)
  }

  function HighlightDelayMS(p: Props): (r: int)
    ensures p.delayOnPressIn == Ms(0) ==> r == 0
    ensures p.delayOnPressIn == Unset ==> r == DEFAULT_ACTIVE_MS
    ensures p.delayOnPressIn.Ms? && p.delayOnPressIn.ms != 0 ==> r == p.delayOnPressIn.ms
  {
    ResolveDelay(p.delayOnPressIn, DEFAULT_ACTIVE_MS)
  }

  function LongPressDelayMS(p: Props): (r: int)
    ensures p.delayOnLongPress == Ms(0) ==> r == 0
    ensures p.delayOnLongPress == Unset ==> r == DEFAULT_LONG_PRESS_MS
    ensures p.delayOnLongPress.Ms? && p.delayOnLongPress.ms != 0 ==> r == p.delayOnLongPress.ms
  {
    ResolveDelay(p.delayOnLongPress, DEFAULT_LONG_PRESS_MS)
  }

  /** `_getActiveType`: the target is `state.setActive || props.setActive`;
      a function is 'func', a composite component instance is 'class',
      anything else is `false`. */
  function GetActiveType(stateValue: TargetValue, propsValue: TargetValue): (r: ActiveType)
    ensures r == Func <==>
      stateValue == FunctionValue || (stateValue == Undefined && propsValue == FunctionValue)
    ensures r == Class <==>
      stateValue == CompositeInstance || (stateValue == Undefined && propsValue == CompositeInstance)
    ensures stateValue == Undefined && propsValue == Undefined ==> r == NoType
  {
    var activeProp := if stateValue != Undefined then stateValue else propsValue;
    if activeProp == FunctionValue then Func
    else if activeProp == CompositeInstance then Class
    else NoType
  }
}
