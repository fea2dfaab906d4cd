/**
 * The resource component's state machine as pure functions over its state:
 * clamped add and drain with negative amounts redirected, the percent
 * variants, the regeneration timer's (re)scheduling, and the events each
 * step appends to the component's event log. The component class proves each
 * of its methods against the function of the same name here.
 *
 * The engine timer is an abstract record. pending is what the timer manager
 * answers to IsTimerPending for the handle: true from scheduling until the
 * manager's next tick activates the timer (TimerManagerTick), false for an
 * active timer and for no timer at all.
 */
module ResourceModel {

  type ResourceName = string

  const DefaultResourceName: ResourceName := "Default"

  /** Which amount a percent refers to (EResourcePercentType). */
  datatype PercentType = Current | Maximum

  /** EHealthRegenEventType. */
  datatype RegenEventType = Tick | Start | End

  /** One broadcast of the component, named after its delegate. */
  datatype ResourceEvent =
    | OnCurrentAmountChange(value: real)
    | OnDrain(value: real)
    | OnAdd(value: real)
    | OnEmpty
    | OnFill
    | OnRegenStart
    | OnRegenTick(value: real)
    | OnRegenEnd

  /**
   * The regeneration timer handle and what the timer manager holds for it:
   * a looping timer that calls Add(boundAmount) every period seconds after a
   * first delay; remaining is what GetTimerRemaining answers.
   */
  datatype RegenTimer = RegenTimer(
    valid: bool,
    pending: bool,
    firstDelay: real,
    period: real,
    boundAmount: real,
    remaining: real)

  /** A cleared, invalidated handle. */
  const ClearedTimer := RegenTimer(false, false, 0.0, 0.0, 0.0, 0.0)

  /** The designer-set properties of a resource component. */
  datatype ResourceConfig = ResourceConfig(
    name: ResourceName,
    maxAmount: real,
    regenBeginsEmpty: bool,
    regenAmount: real,
    regenRate: real,
    regenDelay: real,
    additionalExhaustedDelay: real,
    regenAfterDepletion: bool)

  /** The property defaults of the component. */
  function DefaultConfig(): ResourceConfig
  {
    ResourceConfig(DefaultResourceName, 100.0, false, 5.0, 5.0, 1.0, 0.0, false)
  }

  /** Everything the component's operations read or write. */
  datatype ResourceState = ResourceState(
    maxAmount: real,
    currentAmount: real,
    timeAtLastDrain: real,
    regenAmount: real,
    regenRate: real,
    regenDelay: real,
    additionalExhaustedDelay: real,
    regenAfterDepletion: bool,
    drainDisabled: bool,
    firstRegenTick: bool,
    regenTimer: RegenTimer,
    events: seq<ResourceEvent>)

  /** The state of a freshly constructed component, before BeginPlay. */
  function InitialState(config: ResourceConfig): ResourceState
  {
    ResourceState(config.maxAmount, 100.0, 0.0, config.regenAmount, config.regenRate, config.regenDelay,
                  config.additionalExhaustedDelay, config.regenAfterDepletion, false, false, ClearedTimer, [])
  }

  /** BeginPlay on the authority: the resource starts empty or full. */
  function BeginPlay(s: ResourceState, regenBeginsEmpty: bool): ResourceState
  {
    s.(currentAmount := if regenBeginsEmpty then 0.0 else s.maxAmount)
  }

  predicate Bounded(s: ResourceState)
  {
    0.0 <= s.currentAmount <= s.maxAmount
  }

  /** FMath::Min and FMath::Max. */
  function Min(a: real, b: real): real { if a <= b then a else b }
  function Max(a: real, b: real): real { if a >= b then a else b }

  // ---------------------------------------------------------------------------
  // Queries

  /** GetRegenDelay: -1 means "do not regenerate". */
  function GetRegenDelay(s: ResourceState): real
  {
    if s.currentAmount <= 0.0 then
      (if s.regenAfterDepletion then s.regenDelay + s.additionalExhaustedDelay else -1.0)
    else s.regenDelay
  }

  predicate ShouldRegen(s: ResourceState)
  {
    !(s.regenAmount <= 0.0 || s.regenRate <= 0.0 || GetRegenDelay(s) < 0.0)
  }

  /** GetCurrentPercent; the source divides by the maximum unguarded. */
  function GetCurrentPercent(s: ResourceState): (r: real)
    requires s.maxAmount != 0.0
    ensures s.maxAmount > 0.0 ==> (r >= 1.0 <==> s.currentAmount >= s.maxAmount)
    ensures Bounded(s) && s.maxAmount > 0.0 ==> 0.0 <= r <= 1.0
  {
    PercentFacts(s.currentAmount, s.maxAmount);
    s.currentAmount / s.maxAmount
  }

  lemma PercentFacts(c: real, m: real)
    requires m != 0.0
    ensures m > 0.0 ==> (c / m >= 1.0 <==> c >= m)
    ensures m < 0.0 ==> (c / m >= 1.0 <==> c <= m)
    ensures m > 0.0 && 0.0 <= c <= m ==> 0.0 <= c / m <= 1.0
  {
    assert (c / m) * m == c;
    if m > 0.0 {
      if c / m >= 1.0 { assert c == (c / m) * m >= 1.0 * m; }
      if c >= m { assert (c / m) * m >= 1.0 * m; }
    } else {
      if c / m >= 1.0 { assert c == (c / m) * m <= 1.0 * m; }
      if c <= m { assert (c / m) * m <= 1.0 * m; }
    }
  }

  /**
   * How `GetCurrentPercent() >= 1` evaluates for any maximum: with a zero
   * maximum the float quotient is +inf, -inf or NaN for a positive, negative
   * or zero amount. Rounding is not modelled.
   */
  predicate PercentAtLeastOne(currentAmount: real, maxAmount: real)
  {
    if maxAmount > 0.0 then currentAmount >= maxAmount
    else if maxAmount < 0.0 then currentAmount <= maxAmount
    else currentAmount > 0.0
  }

  /** For a non-zero maximum the predicate is exactly the comparison of the quotient. */
  lemma PercentAtLeastOneIsQuotient(s: ResourceState)
    requires s.maxAmount != 0.0
    ensures PercentAtLeastOne(s.currentAmount, s.maxAmount) <==> GetCurrentPercent(s) >= 1.0
  {
    PercentFacts(s.currentAmount, s.maxAmount);
  }

  function GetTimeSinceLastDrain(s: ResourceState, now: real): (r: real)
    ensures r + s.timeAtLastDrain == now
  {
    now - s.timeAtLastDrain
  }

  // ---------------------------------------------------------------------------
  // Events

  /** The place of each event kind in BroadcastResourceChange_Net's order. */
  function ChangeRank(e: ResourceEvent): nat
  {
    match e
    case OnCurrentAmountChange(_) => 0
    case OnDrain(_) => 1
    case OnAdd(_) => 2
    case OnEmpty => 3
    case OnFill => 4
    case _ => 5
  }

  /** BroadcastResourceChange_Net: the events one change of the amount fires, in order. */
  function ChangeEvents(oldValue: real, newValue: real, maxAmount: real): seq<ResourceEvent>
  {
    (if oldValue != newValue then [OnCurrentAmountChange(newValue)] else [])
    + (if oldValue > newValue then [OnDrain(newValue)] else [])
    + (if newValue > oldValue then [OnAdd(newValue)] else [])
    + (if newValue != oldValue && newValue == 0.0 then [OnEmpty] else [])
    + (if newValue != oldValue && newValue == maxAmount then [OnFill] else [])
  }

  /** Each event fires exactly under its condition, and nothing else fires. */
  lemma ChangeEventsCharacterised(oldValue: real, newValue: real, maxAmount: real)
    ensures var r := ChangeEvents(oldValue, newValue, maxAmount);
            && (OnCurrentAmountChange(newValue) in r <==> oldValue != newValue)
            && (OnDrain(newValue) in r <==> newValue < oldValue)
            && (OnAdd(newValue) in r <==> newValue > oldValue)
            && (OnEmpty in r <==> oldValue != newValue && newValue == 0.0)
            && (OnFill in r <==> oldValue != newValue && newValue == maxAmount)
            && (forall e :: e in r ==> e in [OnCurrentAmountChange(newValue), OnDrain(newValue), OnAdd(newValue), OnEmpty, OnFill])
  {
  }

  /** The events come in the fixed order change, drain, add, empty, fill, and none come when the value did not change. */
  lemma ChangeEventsOrdered(oldValue: real, newValue: real, maxAmount: real)
    ensures var r := ChangeEvents(oldValue, newValue, maxAmount);
            && (forall i, j :: 0 <= i < j < |r| ==> ChangeRank(r[i]) < ChangeRank(r[j]))
            && (oldValue == newValue <==> r == [])
  {
  }

  /** BroadcastRegenEvent_Net. */
  function RegenEvent(kind: RegenEventType, value: real): ResourceEvent
  {
    match kind
    case Start => OnRegenStart
    case Tick => OnRegenTick(value)
    case End => OnRegenEnd
  }

  // ---------------------------------------------------------------------------
  // The regeneration timer

  /** StopRegenTimer: clear the timer and invalidate the handle. */
  function StopRegenTimer(s: ResourceState): (r: ResourceState)
    ensures !r.regenTimer.valid && !r.regenTimer.pending
    ensures r.(regenTimer := s.regenTimer) == s
  {
    s.(regenTimer := ClearedTimer)
  }

  /**
   * SetRegenTimer: stop the old timer; when regeneration should run, start a
   * looping timer of period 1/RegenRate bound to Add(RegenAmount as it is
   * now), first firing after initialDelay, or after GetRegenDelay with the
   * first-tick flag armed when initialDelay is negative.
   */
  function SetRegenTimer(s: ResourceState, initialDelay: real): (r: ResourceState)
    ensures r.regenTimer.valid <==> ShouldRegen(s)
    ensures !r.regenTimer.valid ==> r.regenTimer == ClearedTimer
    ensures r.regenTimer.valid ==>
              && r.regenTimer.pending
              && r.regenTimer.period == 1.0 / s.regenRate
              && r.regenTimer.boundAmount == s.regenAmount > 0.0
              && r.regenTimer.firstDelay == r.regenTimer.remaining
                 == (if initialDelay >= 0.0 then initialDelay else GetRegenDelay(s))
              && r.regenTimer.firstDelay >= 0.0
    ensures r.firstRegenTick <==> s.firstRegenTick || (ShouldRegen(s) && initialDelay < 0.0)
    ensures r.(regenTimer := s.regenTimer, firstRegenTick := s.firstRegenTick) == s
  {
    var stopped := StopRegenTimer(s);
    if !ShouldRegen(stopped) then stopped
    else
      var armed := if initialDelay >= 0.0 then stopped else stopped.(firstRegenTick := true);
      var firstDelay := if initialDelay >= 0.0 then initialDelay else GetRegenDelay(armed);
      armed.(regenTimer := RegenTimer(true, true, firstDelay, 1.0 / s.regenRate, s.regenAmount, firstDelay))
  }

  /** The common tail of SetRegenAmount/Rate/Delay: keep a positive remaining wait, else start afresh. */
  function Reschedule(s: ResourceState, timerRemaining: real): ResourceState
  {
    if timerRemaining > 0.0 then SetRegenTimer(s, timerRemaining) else SetRegenTimer(s, -1.0)
  }

  /** What the three setters read before writing: a valid timer's remaining time, else the fallback. */
  function RemainingOr(s: ResourceState, fallback: real): real
  {
    if s.regenTimer.valid then s.regenTimer.remaining else fallback
  }

  function SetRegenAmount(s: ResourceState, newRegenAmount: real): ResourceState
  {
    Reschedule(s.(regenAmount := newRegenAmount), RemainingOr(s, GetRegenDelay(s)))
  }

  function SetRegenRate(s: ResourceState, newRegenRate: real): ResourceState
  {
    Reschedule(s.(regenRate := newRegenRate), RemainingOr(s, GetRegenDelay(s)))
  }

  function SetRegenDelay(s: ResourceState, newRegenDelay: real): ResourceState
  {
    Reschedule(s.(regenDelay := newRegenDelay), RemainingOr(s, 0.0))
  }

  // ---------------------------------------------------------------------------
  // Add and drain

  /** The regeneration bookkeeping of AddResource when the timer is not pending. */
  function RegenBookkeeping(s: ResourceState): (r: ResourceState)
    ensures r.currentAmount == s.currentAmount && r.maxAmount == s.maxAmount
  {
    var ticked := s.(events := s.events + [RegenEvent(Tick, 0.0)]);
    var started := if ticked.firstRegenTick
                   then ticked.(firstRegenTick := false, events := ticked.events + [RegenEvent(Start, 0.0)])
                   else ticked;
    if PercentAtLeastOne(started.currentAmount, started.maxAmount)
    then StopRegenTimer(started).(events := started.events + [RegenEvent(End, 0.0)])
    else started
  }

  /**
   * AddResource. A negative amount is handed to DrainResource negated, which
   * then takes its non-negative path, so the two never recurse further.
   */
  function Add(s: ResourceState, amount: real, now: real): ResourceState
  {
    if amount < 0.0 then DrainNonNegative(s, -amount, now) else AddNonNegative(s, amount)
  }

  /** DrainResource, symmetric to Add. */
  function Drain(s: ResourceState, amount: real, now: real): ResourceState
  {
    if amount < 0.0 then AddNonNegative(s, -amount) else DrainNonNegative(s, amount, now)
  }

  /** AddResource past its negative-amount redirect. */
  function AddNonNegative(s: ResourceState, amount: real): (r: ResourceState)
    ensures r.maxAmount == s.maxAmount
    ensures s.currentAmount >= s.maxAmount ==> r == s
    ensures s.currentAmount < s.maxAmount ==> r.currentAmount == Min(s.maxAmount, s.currentAmount + amount)
  {
    if s.currentAmount >= s.maxAmount then s
    else
      var newAmount := Min(s.maxAmount, s.currentAmount + amount);
      var changed := s.(currentAmount := newAmount,
                        events := s.events + ChangeEvents(s.currentAmount, newAmount, s.maxAmount));
      if !s.regenTimer.pending then RegenBookkeeping(changed) else changed
  }

  /** DrainResource past its negative-amount redirect. */
  function DrainNonNegative(s: ResourceState, amount: real, now: real): (r: ResourceState)
    ensures r.maxAmount == s.maxAmount
    ensures s.drainDisabled ==> r == s
    ensures !s.drainDisabled ==> r.currentAmount == Max(0.0, s.currentAmount - amount)
  {
    if s.drainDisabled then s
    else
      var newAmount := Max(0.0, s.currentAmount - amount);
      var changed := s.(currentAmount := newAmount,
                        events := s.events + ChangeEvents(s.currentAmount, newAmount, s.maxAmount),
                        timeAtLastDrain := now);
      var ended := if !changed.regenTimer.pending
                   then changed.(events := changed.events + [RegenEvent(End, 0.0)])
                   else changed;
      SetRegenTimer(ended, -1.0)
  }

  function PercentBase(s: ResourceState, percentType: PercentType): real
  {
    if percentType == Current then s.currentAmount else s.maxAmount
  }

  /** The amount a percent stands for: the current or the maximum amount times the percent. */
  function PercentAmount(s: ResourceState, percent: real, percentType: PercentType): real
  {
    PercentBase(s, percentType) * percent
  }

  function AddByPercent(s: ResourceState, percent: real, percentType: PercentType, now: real): ResourceState
  {
    Add(s, PercentAmount(s, percent, percentType), now)
  }

  function DrainByPercent(s: ResourceState, percent: real, percentType: PercentType, now: real): ResourceState
  {
    Drain(s, PercentAmount(s, percent, percentType), now)
  }

  /** AddResource_Server: a bare clamp with the change events, no regeneration bookkeeping. */
  function AddOnServer(s: ResourceState, additional: real): (r: ResourceState)
    ensures s.currentAmount + additional <= s.maxAmount ==> r.currentAmount == s.currentAmount + additional
    ensures s.currentAmount + additional > s.maxAmount ==> r.currentAmount == s.maxAmount
    ensures r.events == s.events + ChangeEvents(s.currentAmount, r.currentAmount, s.maxAmount)
    ensures r.(currentAmount := s.currentAmount, events := s.events) == s
  {
    var newAmount := Min(s.maxAmount, s.currentAmount + additional);
    s.(currentAmount := newAmount, events := s.events + ChangeEvents(s.currentAmount, newAmount, s.maxAmount))
  }

  /** DrainResource_Server: a bare clamp at zero with the change events. */
  function DrainOnServer(s: ResourceState, removal: real): (r: ResourceState)
    ensures s.currentAmount - removal >= 0.0 ==> r.currentAmount == s.currentAmount - removal
    ensures s.currentAmount - removal < 0.0 ==> r.currentAmount == 0.0
    ensures r.events == s.events + ChangeEvents(s.currentAmount, r.currentAmount, s.maxAmount)
    ensures r.(currentAmount := s.currentAmount, events := s.events) == s
  {
    var newAmount := Max(s.currentAmount - removal, 0.0);
    s.(currentAmount := newAmount, events := s.events + ChangeEvents(s.currentAmount, newAmount, s.maxAmount))
  }

  // ---------------------------------------------------------------------------
  // The environment: the timer manager

  /** One timer-manager tick of dt seconds: a pending timer becomes active; an active one counts down. */
  function TimerManagerTick(s: ResourceState, dt: real): (r: ResourceState)
    requires dt >= 0.0
    ensures r.regenTimer.valid ==> !r.regenTimer.pending
    ensures r.regenTimer.valid == s.regenTimer.valid
    ensures r.(regenTimer := s.regenTimer) == s
  {
    if !s.regenTimer.valid then s
    else if s.regenTimer.pending then s.(regenTimer := s.regenTimer.(pending := false))
    else s.(regenTimer := s.regenTimer.(remaining := Max(0.0, s.regenTimer.remaining - dt)))
  }

  /** The looping timer fires: an active timer calls Add with the amount bound when it was set. */
  function FireRegen(s: ResourceState, now: real): ResourceState
  {
    if s.regenTimer.valid && !s.regenTimer.pending
    then Add(s.(regenTimer := s.regenTimer.(remaining := s.regenTimer.period)), s.regenTimer.boundAmount, now)
    else s
  }

  // ---------------------------------------------------------------------------
  // One operation as the function library applies it

  datatype ResourceOp =
    | AddOp(amount: real)
    | DrainOp(amount: real)
    | AddPercentOp(percent: real, percentType: PercentType)
    | DrainPercentOp(percent: real, percentType: PercentType)

  function ApplyOp(s: ResourceState, op: ResourceOp, now: real): ResourceState
  {
    match op
    case AddOp(x) => Add(s, x, now)
    case DrainOp(x) => Drain(s, x, now)
    case AddPercentOp(p, t) => AddByPercent(s, p, t, now)
    case DrainPercentOp(p, t) => DrainByPercent(s, p, t, now)
  }

  /** The same operation applied n times in a row. */
  function ApplyOpTimes(s: ResourceState, op: ResourceOp, now: real, n: nat): ResourceState
  {
    if n == 0 then s else ApplyOp(ApplyOpTimes(s, op, now, n - 1), op, now)
  }

  // ---------------------------------------------------------------------------
  // Properties

  /** Initial configuration and activation. */
  lemma DefaultsAndActivation(beginsEmpty: bool)
    ensures var s := InitialState(DefaultConfig());
            && s.maxAmount == 100.0 && s.currentAmount == 100.0
            && s.regenAmount == 5.0 && s.regenRate == 5.0 && s.regenDelay == 1.0
            && s.additionalExhaustedDelay == 0.0 && !s.regenAfterDepletion
            && !s.firstRegenTick && !s.drainDisabled && !s.regenTimer.valid && s.events == []
    ensures forall s: ResourceState :: 0.0 <= s.maxAmount ==> Bounded(BeginPlay(s, beginsEmpty))
    ensures forall s: ResourceState :: BeginPlay(s, true).currentAmount == 0.0
                                      && BeginPlay(s, false).currentAmount == s.maxAmount
  {
  }

  /** Regeneration is suspended (negative delay) exactly when empty without regen-after-depletion, for non-negative delays. */
  lemma RegenSuspendedOnlyWhenExhausted(s: ResourceState)
    requires s.regenDelay >= 0.0 && s.additionalExhaustedDelay >= 0.0
    ensures GetRegenDelay(s) < 0.0 <==> s.currentAmount <= 0.0 && !s.regenAfterDepletion
    ensures s.currentAmount <= 0.0 && s.regenAfterDepletion ==> GetRegenDelay(s) >= s.regenDelay
  {
  }

  /** A negative add is a drain of the opposite amount and vice versa; the redirect precedes every other check. */
  lemma NegativeAmountsRedirect(s: ResourceState, x: real, now: real)
    requires x < 0.0
    ensures Add(s, x, now) == Drain(s, -x, now)
    ensures Drain(s, x, now) == Add(s, -x, now)
  {
  }

  /**
   * The percent variants forward the same way: adding -p percent is draining
   * p percent whenever that amount is not zero (at zero, Add(0) and Drain(0)
   * differ: only the drain records the time and restarts regeneration).
   */
  lemma NegativePercentRedirects(s: ResourceState, p: real, t: PercentType, now: real)
    requires PercentAmount(s, p, t) != 0.0
    ensures AddByPercent(s, -p, t, now) == DrainByPercent(s, p, t, now)
    ensures DrainByPercent(s, -p, t, now) == AddByPercent(s, p, t, now)
  {
    PercentOfNegation(s, p, t);
  }

  lemma PercentOfNegation(s: ResourceState, p: real, t: PercentType)
    ensures PercentAmount(s, -p, t) == -PercentAmount(s, p, t)
  {
  }

  /** Adding to a full resource and draining a drain-disabled one change nothing and fire nothing. */
  lemma NoOpCases(s: ResourceState, x: real, now: real)
    requires x >= 0.0
    ensures s.currentAmount >= s.maxAmount ==> Add(s, x, now) == s
    ensures s.drainDisabled ==> Drain(s, x, now) == s
  {
  }

  /** The new amount of a non-negative add or drain. */
  lemma ClampedAmounts(s: ResourceState, x: real, now: real)
    requires x >= 0.0
    ensures s.currentAmount < s.maxAmount ==>
              Add(s, x, now).currentAmount == Min(s.maxAmount, s.currentAmount + x)
    ensures !s.drainDisabled ==> Drain(s, x, now).currentAmount == Max(0.0, s.currentAmount - x)
  {
  }

  /** Every operation keeps 0 <= current <= max. */
  lemma {:induction false} OperationsKeepBounds(s: ResourceState, op: ResourceOp, now: real, n: nat)
    requires Bounded(s)
    ensures Bounded(ApplyOpTimes(s, op, now, n))
    ensures Bounded(FireRegen(s, now))
  {
    FireRegenKeepsBounds(s, now);
    if n > 0 {
      OperationsKeepBounds(s, op, now, n - 1);
      ApplyOpKeepsBounds(ApplyOpTimes(s, op, now, n - 1), op, now);
    }
  }

  lemma FireRegenKeepsBounds(s: ResourceState, now: real)
    requires Bounded(s)
    ensures Bounded(FireRegen(s, now))
  {
    var t := s.(regenTimer := s.regenTimer.(remaining := s.regenTimer.period));
    StepsKeepBounds(t, s.regenTimer.boundAmount, now);
  }

  lemma ApplyOpKeepsBounds(s: ResourceState, op: ResourceOp, now: real)
    requires Bounded(s)
    ensures Bounded(ApplyOp(s, op, now))
  {
    match op
    case AddOp(x) => StepsKeepBounds(s, x, now);
    case DrainOp(x) => StepsKeepBounds(s, x, now);
    case AddPercentOp(p, t) => StepsKeepBounds(s, PercentAmount(s, p, t), now);
    case DrainPercentOp(p, t) => StepsKeepBounds(s, PercentAmount(s, p, t), now);
  }

  lemma StepsKeepBounds(s: ResourceState, x: real, now: real)
    requires Bounded(s)
    ensures Bounded(Add(s, x, now)) && Bounded(Drain(s, x, now))
  {
    if x < 0.0 {
      NonNegativeStepsKeepBounds(s, -x, now);
    } else {
      NonNegativeStepsKeepBounds(s, x, now);
    }
  }

  lemma NonNegativeStepsKeepBounds(s: ResourceState, x: real, now: real)
    requires Bounded(s) && x >= 0.0
    ensures Bounded(AddNonNegative(s, x)) && Bounded(DrainNonNegative(s, x, now))
  {
  }

  /**
   * An enabled drain, even of zero, records the drain time, fires its change
   * events, fires RegenEnd exactly when the timer is not pending, and then
   * reschedules from GetRegenDelay with the first-tick flag armed.
   */
  lemma DrainRestartsRegen(s: ResourceState, x: real, now: real)
    requires x >= 0.0 && !s.drainDisabled
    ensures var r := Drain(s, x, now);
            var newAmount := Max(0.0, s.currentAmount - x);
            && r.timeAtLastDrain == now
            && r.events == s.events + ChangeEvents(s.currentAmount, newAmount, s.maxAmount)
                           + (if !s.regenTimer.pending then [OnRegenEnd] else [])
            && (r.regenTimer.valid <==> ShouldRegen(r))
            && (r.regenTimer.valid ==> r.firstRegenTick && r.regenTimer.pending
                                       && r.regenTimer.firstDelay == GetRegenDelay(r))
  {
  }

  /**
   * An add that changes the amount while the timer is not pending fires
   * RegenTick(0) before RegenStart (only on the first tick, which clears the
   * flag) and, once full, stops the timer and fires RegenEnd. While the timer
   * is pending none of these fire.
   */
  lemma AddRegenEvents(s: ResourceState, x: real, now: real)
    requires x >= 0.0 && s.currentAmount < s.maxAmount
    ensures var r := Add(s, x, now);
            var newAmount := Min(s.maxAmount, s.currentAmount + x);
            var full := PercentAtLeastOne(newAmount, s.maxAmount);
            && r.currentAmount == newAmount
            && r.events == s.events + ChangeEvents(s.currentAmount, newAmount, s.maxAmount)
                           + (if s.regenTimer.pending then []
                              else [OnRegenTick(0.0)]
                                   + (if s.firstRegenTick then [OnRegenStart] else [])
                                   + (if full then [OnRegenEnd] else []))
            && (r.firstRegenTick <==> s.firstRegenTick && s.regenTimer.pending)
            && (r.regenTimer == if !s.regenTimer.pending && full then ClearedTimer else s.regenTimer)
  {
  }

  /** StopRegenTimer leaves no timer, and stopping again changes nothing. */
  lemma StopRegenTimerIdempotent(s: ResourceState)
    ensures StopRegenTimer(StopRegenTimer(s)) == StopRegenTimer(s)
    ensures !s.regenTimer.valid && s.regenTimer == ClearedTimer ==> StopRegenTimer(s) == s
  {
  }

  /**
   * The setters keep a valid timer's positive remaining wait (the new timer
   * first fires when the old one would have, and the first-tick flag is not
   * re-armed); with no valid timer, Amount and Rate start from a positive
   * GetRegenDelay without re-arming, while Delay re-arms whenever it sets a timer.
   */
  lemma SettersKeepRemainingWait(s: ResourceState, v: real)
    ensures s.regenTimer.valid && s.regenTimer.remaining > 0.0 ==>
              var r := SetRegenAmount(s, v);
              r.firstRegenTick == s.firstRegenTick
              && (r.regenTimer.valid ==> r.regenTimer.firstDelay == s.regenTimer.remaining)
    ensures s.regenTimer.valid && s.regenTimer.remaining > 0.0 ==>
              var r := SetRegenRate(s, v);
              r.firstRegenTick == s.firstRegenTick
              && (r.regenTimer.valid ==> r.regenTimer.firstDelay == s.regenTimer.remaining
                                         && r.regenTimer.period == 1.0 / v)
    ensures s.regenTimer.valid && s.regenTimer.remaining > 0.0 ==>
              var r := SetRegenDelay(s, v);
              r.firstRegenTick == s.firstRegenTick
              && (r.regenTimer.valid ==> r.regenTimer.firstDelay == s.regenTimer.remaining)
    ensures !s.regenTimer.valid && GetRegenDelay(s) > 0.0 ==>
              SetRegenAmount(s, v).firstRegenTick == s.firstRegenTick
              && SetRegenRate(s, v).firstRegenTick == s.firstRegenTick
    ensures !s.regenTimer.valid ==>
              var r := SetRegenDelay(s, v);
              r.regenTimer.valid ==> r.firstRegenTick && r.regenTimer.firstDelay == GetRegenDelay(r)
    ensures SetRegenAmount(s, v).regenAmount == v && SetRegenRate(s, v).regenRate == v
            && SetRegenDelay(s, v).regenDelay == v
  {
  }

  /**
   * Only an enabled drain records the time: right after it the time since the
   * last drain is zero, while an add, or a drain of a drain-disabled resource,
   * keeps the recorded time.
   */
  lemma DrainTimeTracking(s: ResourceState, x: real, now: real)
    requires x >= 0.0
    ensures !s.drainDisabled ==> GetTimeSinceLastDrain(Drain(s, x, now), now) == 0.0
    ensures s.drainDisabled ==> Drain(s, x, now).timeAtLastDrain == s.timeAtLastDrain
    ensures Add(s, x, now).timeAtLastDrain == s.timeAtLastDrain
  {
  }

  /** A regeneration tick from the timer is an add of the bound amount. */
  lemma FireRegenAddsBoundAmount(s: ResourceState, now: real)
    requires s.regenTimer.valid && !s.regenTimer.pending
    ensures FireRegen(s, now).currentAmount == Add(s, s.regenTimer.boundAmount, now).currentAmount
    ensures FireRegen(s, now).events == Add(s, s.regenTimer.boundAmount, now).events
  {
  }

  /** From full at 100, Drain(30) leaves 70 and fires change, drain and RegenEnd, then schedules regeneration. */
  lemma DrainFromFullScenario(now: real)
    ensures var s := Drain(BeginPlay(InitialState(DefaultConfig()), false), 30.0, now);
            && s.currentAmount == 70.0
            && s.events == [OnCurrentAmountChange(70.0), OnDrain(70.0), OnRegenEnd]
            && s.regenTimer == RegenTimer(true, true, 1.0, 0.2, 5.0, 1.0)
            && s.firstRegenTick
  {
    var full := BeginPlay(InitialState(DefaultConfig()), false);
    assert ShouldRegen(full.(currentAmount := 70.0));
  }

  /** The first tick after that drain fires RegenTick(0) before RegenStart. */
  lemma FirstRegenTickScenario(now: real, later: real)
    ensures var drained := Drain(BeginPlay(InitialState(DefaultConfig()), false), 30.0, now);
            var s := FireRegen(TimerManagerTick(drained, 0.0), later);
            && s.currentAmount == 75.0
            && s.events == [OnCurrentAmountChange(70.0), OnDrain(70.0), OnRegenEnd,
                            OnCurrentAmountChange(75.0), OnAdd(75.0), OnRegenTick(0.0), OnRegenStart]
            && !s.firstRegenTick && s.regenTimer.valid
  {
    DrainFromFullScenario(now);
  }

  /** The tick that reaches the maximum fires Fill, then RegenTick and RegenEnd, and stops the timer. */
  lemma FillingTickStopsRegen(s: ResourceState, now: real)
    requires s.regenTimer.valid && !s.regenTimer.pending && !s.firstRegenTick
    requires 0.0 < s.maxAmount && s.currentAmount < s.maxAmount
    requires 0.0 <= s.regenTimer.boundAmount && s.maxAmount <= s.currentAmount + s.regenTimer.boundAmount
    ensures var r := FireRegen(s, now);
            && r.currentAmount == s.maxAmount
            && r.events == s.events + [OnCurrentAmountChange(s.maxAmount), OnAdd(s.maxAmount), OnFill,
                                       OnRegenTick(0.0), OnRegenEnd]
            && r.regenTimer == ClearedTimer
  {
    var t := s.(regenTimer := s.regenTimer.(remaining := s.regenTimer.period));
    AddRegenEvents(t, s.regenTimer.boundAmount, now);
    assert s.maxAmount != 0.0;
    assert ChangeEvents(s.currentAmount, s.maxAmount, s.maxAmount)
        == [OnCurrentAmountChange(s.maxAmount), OnAdd(s.maxAmount), OnFill];
  }

  /** Draining at least what is left empties the resource and fires Empty. */
  lemma DrainPastZeroEmpties(s: ResourceState, x: real, now: real)
    requires !s.drainDisabled && 0.0 < s.currentAmount <= x
    ensures Drain(s, x, now).currentAmount == 0.0
    ensures OnEmpty in Drain(s, x, now).events[|s.events|..]
  {
    DrainRestartsRegen(s, x, now);
    var r := Drain(s, x, now);
    var ch := ChangeEvents(s.currentAmount, 0.0, s.maxAmount);
    assert r.events[|s.events|..] == ch + (if !s.regenTimer.pending then [OnRegenEnd] else []);
  }
}
