/**
 * The resource component itself: an object whose fields the operations
 * update in place, one method per operation of the component. Each method
 * states its new state as the corresponding step function of ResourceModel
 * applied to the old state, so everything proved there about the step holds
 * of the method.
 *
 * The world clock is the `now` parameter of the operations that read it; the
 * engine's timer manager is the regenTimer field (see ResourceModel) with
 * TimerManagerTick and FireRegen as the environment's steps.
 */
module ResourceComponentBase {
  import opened ResourceModel

  class ResourceComponent {
    const name: ResourceName
    const maxAmount: real
    const regenBeginsEmpty: bool
    var currentAmount: real
    var timeAtLastDrain: real
    var regenAmount: real
    var regenRate: real
    var regenDelay: real
    var additionalExhaustedDelay: real
    var regenAfterDepletion: bool
    var drainDisabled: bool
    var firstRegenTick: bool
    var regenTimer: RegenTimer
    /** Every broadcast so far, oldest first. */
    var events: seq<ResourceEvent>

    /** The component's state as a value. */
    function State(): ResourceState
      reads this
    {
      ResourceState(maxAmount, currentAmount, timeAtLastDrain, regenAmount, regenRate, regenDelay,
                    additionalExhaustedDelay, regenAfterDepletion, drainDisabled, firstRegenTick, regenTimer, events)
    }

    constructor(config: ResourceConfig)
      ensures State() == InitialState(config)
      ensures name == config.name && regenBeginsEmpty == config.regenBeginsEmpty
    {
      name := config.name;
      maxAmount := config.maxAmount;
      regenBeginsEmpty := config.regenBeginsEmpty;
      currentAmount := 100.0;
      timeAtLastDrain := 0.0;
      regenAmount := config.regenAmount;
      regenRate := config.regenRate;
      regenDelay := config.regenDelay;
      additionalExhaustedDelay := config.additionalExhaustedDelay;
      regenAfterDepletion := config.regenAfterDepletion;
      drainDisabled := false;
      firstRegenTick := false;
      regenTimer := ClearedTimer;
      events := [];
    }

    // -------------------------------------------------------------------------
    // Queries

    function GetResourceName(): ResourceName
    {
      name
    }

    function GetCurrentAmount(): real
      reads this
    {
      currentAmount
    }

    function GetMaxAmount(): real
    {
      maxAmount
    }

    function GetCanBeDrained(): bool
      reads this
    {
      !drainDisabled
    }

    function GetCurrentPercent(): real
      reads this
      requires maxAmount != 0.0
    {
      ResourceModel.GetCurrentPercent(State())
    }

    function GetTimeSinceLastDrain(now: real): real
      reads this
    {
      ResourceModel.GetTimeSinceLastDrain(State(), now)
    }

    // -------------------------------------------------------------------------
    // Activation and simple setters

    method BeginPlay(hasAuthority: bool)
      modifies this
      ensures hasAuthority ==> State() == ResourceModel.BeginPlay(old(State()), regenBeginsEmpty)
      ensures !hasAuthority ==> State() == old(State())
    {
      if hasAuthority {
        currentAmount := if regenBeginsEmpty then 0.0 else maxAmount;
      }
    }

    method SetCanBeDrained(canBeDrained: bool)
      modifies this
      ensures State() == old(State()).(drainDisabled := !canBeDrained)
      ensures GetCanBeDrained() == canBeDrained
    {
      drainDisabled := !canBeDrained;
    }

    method SetAdditionalExhaustedDelay(newValue: real)
      modifies this
      ensures State() == old(State()).(additionalExhaustedDelay := newValue)
    {
      additionalExhaustedDelay := newValue;
    }

    method SetRegenAfterDepletion(newValue: bool)
      modifies this
      ensures State() == old(State()).(regenAfterDepletion := newValue)
    {
      regenAfterDepletion := newValue;
    }

    /** RegisterDrainTime_Server. */
    method RegisterDrainTime(time: real)
      modifies this
      ensures State() == old(State()).(timeAtLastDrain := time)
    {
      timeAtLastDrain := time;
    }

    // -------------------------------------------------------------------------
    // Broadcasts

    /** BroadcastResourceChange_Net. */
    method BroadcastResourceChange(oldValue: real, newValue: real)
      modifies this
      ensures State() == old(State()).(events := old(events) + ChangeEvents(oldValue, newValue, maxAmount))
    {
      ghost var change := if oldValue != newValue then [OnCurrentAmountChange(newValue)] else [];
      ghost var drain := if oldValue > newValue then [OnDrain(newValue)] else [];
      ghost var add := if newValue > oldValue then [OnAdd(newValue)] else [];
      ghost var empty := if newValue != oldValue && newValue == 0.0 then [OnEmpty] else [];
      var fired: seq<ResourceEvent> := [];
      if oldValue != newValue {
        fired := fired + [OnCurrentAmountChange(newValue)];
      }
      assert fired == change;
      if oldValue > newValue {
        fired := fired + [OnDrain(newValue)];
      }
      assert fired == change + drain;
      if newValue > oldValue {
        fired := fired + [OnAdd(newValue)];
      }
      assert fired == change + drain + add;
      if newValue != oldValue && newValue == 0.0 {
        fired := fired + [OnEmpty];
      }
      assert fired == change + drain + add + empty;
      if newValue != oldValue && newValue == maxAmount {
        fired := fired + [OnFill];
      }
      events := events + fired;
    }

    /** BroadcastRegenEvent_Net. */
    method BroadcastRegenEvent(kind: RegenEventType, newValue: real)
      modifies this
      ensures State() == old(State()).(events := old(events) + [RegenEvent(kind, newValue)])
    {
      match kind
      case Start => events := events + [OnRegenStart];
      case Tick => events := events + [OnRegenTick(newValue)];
      case End => events := events + [OnRegenEnd];
    }

    // -------------------------------------------------------------------------
    // The regeneration timer

    method StopRegenTimer()
      modifies this
      ensures State() == ResourceModel.StopRegenTimer(old(State()))
    {
      regenTimer := ClearedTimer;
    }

    /** SetRegenTimer; pass -1 for the source's default argument. */
    method SetRegenTimer(initialDelay: real)
      modifies this
      ensures State() == ResourceModel.SetRegenTimer(old(State()), initialDelay)
    {
      StopRegenTimer();
      if !ShouldRegen(State()) {
        return;
      }
      var firstDelay: real;
      if initialDelay >= 0.0 {
        firstDelay := initialDelay;
      } else {
        firstRegenTick := true;
        firstDelay := GetRegenDelay(State());
      }
      regenTimer := RegenTimer(true, true, firstDelay, 1.0 / regenRate, regenAmount, firstDelay);
    }

    method SetRegenAmount(newRegenAmount: real)
      modifies this
      ensures State() == ResourceModel.SetRegenAmount(old(State()), newRegenAmount)
    {
      var timerRemaining := GetRegenDelay(State());
      if regenTimer.valid {
        timerRemaining := regenTimer.remaining;
      }
      regenAmount := newRegenAmount;
      if timerRemaining > 0.0 {
        SetRegenTimer(timerRemaining);
      } else {
        SetRegenTimer(-1.0);
      }
    }

    method SetRegenRate(newRegenRate: real)
      modifies this
      ensures State() == ResourceModel.SetRegenRate(old(State()), newRegenRate)
    {
      var timerRemaining := GetRegenDelay(State());
      if regenTimer.valid {
        timerRemaining := regenTimer.remaining;
      }
      regenRate := newRegenRate;
      if timerRemaining > 0.0 {
        SetRegenTimer(timerRemaining);
      } else {
        SetRegenTimer(-1.0);
      }
    }

    method SetRegenDelay(newRegenDelay: real)
      modifies this
      ensures State() == ResourceModel.SetRegenDelay(old(State()), newRegenDelay)
    {
      var timerRemaining := 0.0;
      if regenTimer.valid {
        timerRemaining := regenTimer.remaining;
      }
      regenDelay := newRegenDelay;
      if timerRemaining > 0.0 {
        SetRegenTimer(timerRemaining);
      } else {
        SetRegenTimer(-1.0);
      }
    }

    // -------------------------------------------------------------------------
    // Add and drain

    method AddResource(addAmount: real, now: real)
      modifies this
      ensures State() == Add(old(State()), addAmount, now)
      decreases if addAmount < 0.0 then 1 else 0
    {
      if addAmount < 0.0 {
        DrainResource(addAmount * -1.0, now);
        return;
      }
      if currentAmount >= maxAmount {
        return;
      }
      var initialAmount := currentAmount;
      var predictedAmount := Min(currentAmount + addAmount, maxAmount);
      currentAmount := Min(maxAmount, currentAmount + addAmount);
      BroadcastResourceChange(initialAmount, predictedAmount);
      ghost var changed := State();
      var timerActive := !regenTimer.pending;
      if timerActive {
        BroadcastRegenEvent(Tick, 0.0);
        if firstRegenTick {
          firstRegenTick := false;
          BroadcastRegenEvent(Start, 0.0);
        }
        if PercentAtLeastOne(currentAmount, maxAmount) {
          StopRegenTimer();
          BroadcastRegenEvent(End, 0.0);
        }
        assert State() == RegenBookkeeping(changed);
      }
    }

    method DrainResource(drainAmount: real, now: real)
      modifies this
      ensures State() == Drain(old(State()), drainAmount, now)
      decreases if drainAmount < 0.0 then 1 else 0
    {
      if drainAmount < 0.0 {
        AddResource(drainAmount * -1.0, now);
        return;
      }
      if drainDisabled {
        return;
      }
      var initialAmount := currentAmount;
      var predictedAmount := Max(0.0, currentAmount - drainAmount);
      currentAmount := Max(predictedAmount, 0.0);
      BroadcastResourceChange(initialAmount, predictedAmount);
      timeAtLastDrain := now;
      var timerActive := !regenTimer.pending;
      if timerActive {
        BroadcastRegenEvent(End, 0.0);
      }
      SetRegenTimer(-1.0);
    }

    method AddResourceByPercent(addPercent: real, percentType: PercentType, now: real)
      modifies this
      ensures State() == AddByPercent(old(State()), addPercent, percentType, now)
    {
      var fillValue := 0.0;
      if percentType == Current {
        fillValue := currentAmount * addPercent;
      } else {
        fillValue := maxAmount * addPercent;
      }
      assert fillValue == PercentAmount(State(), addPercent, percentType);
      AddResource(fillValue, now);
    }

    method DrainResourceByPercent(drainPercent: real, percentType: PercentType, now: real)
      modifies this
      ensures State() == DrainByPercent(old(State()), drainPercent, percentType, now)
    {
      var drainValue := 0.0;
      if percentType == Current {
        drainValue := currentAmount * drainPercent;
      } else {
        drainValue := maxAmount * drainPercent;
      }
      assert drainValue == PercentAmount(State(), drainPercent, percentType);
      DrainResource(drainValue, now);
    }

    /** AddResource_Server. */
    method AddResourceOnServer(additional: real)
      modifies this
      ensures State() == AddOnServer(old(State()), additional)
    {
      var initialAmount := currentAmount;
      currentAmount := Min(maxAmount, currentAmount + additional);
      BroadcastResourceChange(initialAmount, currentAmount);
    }

    /** DrainResource_Server. */
    method DrainResourceOnServer(removal: real)
      modifies this
      ensures State() == DrainOnServer(old(State()), removal)
    {
      var initialAmount := currentAmount;
      currentAmount := Max(currentAmount - removal, 0.0);
      BroadcastResourceChange(initialAmount, currentAmount);
    }

    // -------------------------------------------------------------------------
    // The environment's steps

    /** The timer manager advances dt seconds. */
    method TimerManagerTick(dt: real)
      requires dt >= 0.0
      modifies this
      ensures State() == ResourceModel.TimerManagerTick(old(State()), dt)
    {
      if regenTimer.valid {
        if regenTimer.pending {
          regenTimer := regenTimer.(pending := false);
        } else {
          regenTimer := regenTimer.(remaining := Max(0.0, regenTimer.remaining - dt));
        }
      }
    }

    /** The regeneration timer fires: the bound AddResource call. */
    method FireRegen(now: real)
      modifies this
      ensures State() == ResourceModel.FireRegen(old(State()), now)
    {
      if regenTimer.valid && !regenTimer.pending {
        regenTimer := regenTimer.(remaining := regenTimer.period);
        AddResource(regenTimer.boundAmount, now);
      }
    }
  }
}
