# Resource components: a Dafny model

This project models the core of the ResourceCompPlugin for Unreal Engine. It has three parts:

- **The resource component (`UResourceComponentBase`).** A clamped amount with add and drain operations. Negative amounts go to the opposite operation. There are percent variants and the `*_Server` clamps. Regeneration uses a looping engine timer, which is rescheduled when the regeneration settings change and after every drain. Each change is reported through delegates.
- **The health component (`UHealthResource`).** A resource named "Health" that carries an ordered list of damage-modification rules:
  - an incoming hit runs through the rules in list order: an applying override returns at once; add, multiply and damage-type rules change the running value;
  - rules can be inserted at an index, appended from a data asset, and removed by name;
  - three damage callbacks drain the modified damage, and a one-bit guard stops a point or radial hit from being counted again by the generic callback that follows it.
- **The function library (`UResourceFunctionLibrary`).** Static helpers that:
  - find resource and health components on actors;
  - apply add, drain, add-percent and drain-percent to what they find;
  - give rule assets to, or remove rule names from, an actor's health components.

## How the model is laid out

| module (file) | what it models |
|---|---|
| `Optional` (`optional.dfy`) | a value that may be absent: a null pointer, a failed cast |
| `DamageModificationData` (`damage_modification_data.dfy`) | the damage channels, the modification kinds, the rule record and its defaults, the rule asset, `GetAllModificationNames` |
| `DamagePipeline` (`damage_pipeline.dfy`) | the rule filters, `ModifyDamage` as a fold with early return plus an independent characterisation of it, `HasModifications`, the block-damage guard |
| `ModificationRules` (`modification_rules.dfy`) | what inserting and removing rules does to the list: the removal as written and the intended removal |
| `ResourceModel` (`resource_model.dfy`) | the resource state as a value; one step function per operation; the events each step appends; the properties of these steps |
| `ResourceComponentBase` (`resource_component.dfy`) | class `ResourceComponent`: fields updated in place, one method per operation, each proved equal to its step function |
| `HealthComponent` (`health_resource.dfy`) | class `HealthResource`: the rule list, the editing methods with their loops, the damage callbacks |
| `ResourceFunctionLibrary` (`resource_function_library.dfy`) | actors as validity plus a component list, the lookups as loops proved equal to specification functions, the batch helpers as methods over the components they change |

### Modelling choices

- **Numbers.** Engine floats are `real`; rounding is not modelled.
- **Events.** Every delegate broadcast appends a record to the component's event log (`events`, `healthEvents`), in broadcast order.
- **The regeneration timer** is a record: valid, pending, first delay, period, bound amount, remaining time.
  - `pending` is the engine's `IsTimerPending` answer. Scheduling sets it. The timer manager's next tick (`TimerManagerTick`) clears it.
  - `AddResource` and `DrainResource` keep the source's own test: the regeneration bookkeeping runs when the timer is *not* pending.
  - `FireRegen` is the looping timer calling `AddResource` with the amount bound when the timer was set.
- **The world clock** is the `now` parameter.
- **`GetCurrentPercent() >= 1`.** Inside `AddResource` this comparison is `PercentAtLeastOne`, which also covers a zero maximum. There, float division gives +inf, -inf or NaN.
- **Engine reflection** is the `DamageTypeRegistry` value:
  - `UClass::IsChildOf` is an uninterpreted relation;
  - the damage-type interface handler is an optional function of the damage class.
- **Distances.** The owner's position enters each damage callback as `distanceFromOwner`, a function giving the length from a location to the owner. Generic and point damage apply it to the damage causer's location; radial damage applies it to the explosion origin.
- **Actors** are a validity bit plus their component list. The engine returns components from a set, so the helpers that edit health components require that no component is listed twice. A list may also hold a health component next to a separate entry for its own resource object, which the engine cannot produce. No health-editing operation is affected by this, and the batch add and drain helpers count every occurrence.
- **Ownership.** A health component owns its `ResourceComponent` object and forwards to it. In the engine, the health class derives from the resource class.
- **`bDrainDisabled`** has no initialiser in the source. The model starts it as false.

## Model

| member | source | states |
|---|---|---|
| `DamageModificationData.GetAllModificationNames` | Source/ResourceCompPlugin/Private/Data/DamageModificationData.cpp:6-13 | one name per rule, same length, the i-th name is the i-th rule's name |
| `DamageModificationData.AllModificationNamesKeepsDuplicates` | Source/ResourceCompPlugin/Private/Data/DamageModificationData.cpp:9-11 | two rules that share a name give that name twice; nothing is deduplicated |
| `DamagePipeline.ChildOfAny` | Source/ResourceCompPlugin/Private/Components/Health/HealthResource.cpp:150-155 | true exactly when the damage class is a child of some listed class |
| `DamagePipeline.AcceptsDamageType` | Source/ResourceCompPlugin/Private/Components/Health/HealthResource.cpp:145-156 | accepted exactly when the whitelist is empty, or lists the class, or child whitelisting is on and the class derives from a listed one |
| `DamagePipeline.FirstOverride` | Source/ResourceCompPlugin/Private/Components/Health/HealthResource.cpp:125-129 | the index of an applying override with none before it, or none when no rule is an applying override |
| `DamagePipeline.RunRulesCharacterised` | Source/ResourceCompPlugin/Private/Components/Health/HealthResource.cpp:119-143 | the rule loop from any running value returns the first applying override's magnitude, else the left fold of the applying rules' effects |
| `DamagePipeline.ModifyDamageCharacterised` | Source/ResourceCompPlugin/Private/Components/Health/HealthResource.cpp:113-144 | ModifyDamage is the first applying override's magnitude, else the left fold of the applying rules' effects over the received damage |
| `DamagePipeline.NoApplyingRuleKeepsDamage` | Source/ResourceCompPlugin/Private/Components/Health/HealthResource.cpp:113-144 | with no applying rule (an empty list included) the damage comes back unchanged |
| `DamagePipeline.OverrideSkipsRemainingRules` | Source/ResourceCompPlugin/Public/Components/Health/HealthResource.h:33-38 | the first applying override decides the result; rules before and after it do not matter |
| `DamagePipeline.DelegateSeesReceivedDamage` | Source/ResourceCompPlugin/Private/Components/Health/HealthResource.cpp:130-134 | a damage-type rule gives the handler's answer for the original damage, not for the running value |
| `DamagePipeline.DefaultModificationIsNeutral` | Source/ResourceCompPlugin/Public/Data/DamageModificationData.h:71-81 | a default rule applies to every hit and leaves the damage unchanged |
| `DamagePipeline.DisabledRangeIgnoresDistance` | Source/ResourceCompPlugin/Public/Data/DamageModificationData.h:50-59 | with both range bounds at most zero the distance does not affect whether a rule applies |
| `DamagePipeline.BoneListRestrictsPointOnly` | Source/ResourceCompPlugin/Private/Components/Health/HealthResource.cpp:121 | the bone whitelist has no effect on generic or radial damage |
| `DamagePipeline.AddMultiplyFollowListOrder` | Source/ResourceCompPlugin/Private/Components/Health/HealthResource.cpp:135-140 | add 5 then multiply by 2 on 10 gives 30; the reverse order gives 25 |
| `DamagePipeline.HasModifications` | Source/ResourceCompPlugin/Private/Components/Health/HealthResource.cpp:54-61 | true exactly when some rule's name is among the names |
| `DamagePipeline.GuardStep` | Source/ResourceCompPlugin/Private/Components/Health/HealthResource.cpp:196-229 | a callback drains unless it is the generic one with the flag set; afterwards the flag is set exactly after a point or radial hit |
| `DamagePipeline.EachHitDrainsOnce` | Source/ResourceCompPlugin/Public/Components/Health/HealthResource.h:52-55 | starting unblocked, any run of hits (point and radial followed by their generic callback) drains once per hit and leaves the flag clear |
| `ModificationRules.InsertModificationPlaces` | Source/ResourceCompPlugin/Private/Components/Health/HealthResource.cpp:157-163 | one rule longer, the new rule at the index (last for a negative index), earlier rules in place, later ones shifted by one |
| `ModificationRules.InsertOneMore` | Source/ResourceCompPlugin/Private/Components/Health/HealthResource.cpp:170-177 | inserting the asset's i-th rule at begin + i (or at the end) extends the block placed so far |
| `ModificationRules.AppendedRulesFollowExisting` | Source/ResourceCompPlugin/Public/Components/Health/HealthResource.h:137-141 | an asset given at -1 lands after every existing rule, in asset order |
| `ModificationRules.RemovedAsWrittenAreNamed` | Source/ResourceCompPlugin/Private/Components/Health/HealthResource.cpp:180-188 | every rule the as-written removal takes out carries the name |
| `ModificationRules.RemoveAsWrittenOnlyDropsNamed` | Source/ResourceCompPlugin/Private/Components/Health/HealthResource.cpp:180-188 | the as-written removal keeps every rule without the name, in order |
| `ModificationRules.RemoveAsWrittenPartitions` | Source/ResourceCompPlugin/Private/Components/Health/HealthResource.cpp:180-188 | kept rules plus removed rules are exactly the original rules, as a multiset |
| `ModificationRules.RemoveAsWrittenWithoutAdjacentMatches` | Source/ResourceCompPlugin/Private/Components/Health/HealthResource.cpp:180-188 | when no two matches are adjacent, the as-written removal removes every match |
| `ModificationRules.AdjacentMatchSurvives` | Source/ResourceCompPlugin/Private/Components/Health/HealthResource.cpp:181-186 | of two adjacent rules with the name, the second stays |
| `ModificationRules.RemoveAllNamedRemovesExactly` | Source/ResourceCompPlugin/Public/Components/Health/HealthResource.h:142-145 | the intended removal leaves no rule with the name, keeps every other rule, and adds none |
| `ModificationRules.RemoveAllAsWrittenSnoc` | Source/ResourceCompPlugin/Private/ResourceFunctionLibrary.cpp:145-147 | removing one more name continues from the list the earlier names left, and its removed rules follow theirs |
| `ResourceModel.GetCurrentPercent` | Source/ResourceCompPlugin/Public/Components/ResourceComponentBase.h:139-144 | for a positive maximum, the percent is at least 1 exactly when full, and it lies in [0, 1] within bounds |
| `ResourceModel.PercentAtLeastOneIsQuotient` | Source/ResourceCompPlugin/Private/Components/ResourceComponentBase.cpp:82 | for a non-zero maximum, the full-test of the add equals comparing the quotient with 1 |
| `ResourceModel.DrainTimeTracking` | Source/ResourceCompPlugin/Private/Components/ResourceComponentBase.cpp:102-105 | right after an enabled drain, the time since the last drain is zero; an add, and a drain of a drain-disabled resource, keep the recorded drain time |
| `ResourceModel.ChangeEventsCharacterised` | Source/ResourceCompPlugin/Private/Components/ResourceComponentBase.cpp:217-233 | change iff the value differs, drain iff it fell, add iff it rose, empty and fill iff it changed to 0 or to max; nothing else fires |
| `ResourceModel.ChangeEventsOrdered` | Source/ResourceCompPlugin/Private/Components/ResourceComponentBase.cpp:217-233 | the events come in the order change, drain, add, empty, fill, and none come for an unchanged value |
| `ResourceModel.StopRegenTimer` | Source/ResourceCompPlugin/Public/Components/ResourceComponentBase.h:226 | no valid or pending timer afterwards; nothing else changes |
| `ResourceModel.SetRegenTimer` | Source/ResourceCompPlugin/Private/Components/ResourceComponentBase.cpp:181-201 | a timer is set exactly when ShouldRegen holds. It loops every 1/rate and is bound to the current amount. Its first delay is the given one, or GetRegenDelay with the first-tick flag armed. Only the timer and the flag change |
| `ResourceModel.RegenBookkeeping` | Source/ResourceCompPlugin/Private/Components/ResourceComponentBase.cpp:75-86 | the regeneration bookkeeping never changes the amount or the maximum |
| `ResourceModel.AddNonNegative` | Source/ResourceCompPlugin/Private/Components/ResourceComponentBase.cpp:66-87 | adding to a full resource changes nothing; otherwise the amount becomes min(max, current + x) |
| `ResourceModel.DrainNonNegative` | Source/ResourceCompPlugin/Private/Components/ResourceComponentBase.cpp:93-114 | draining a drain-disabled resource changes nothing; otherwise the amount becomes max(0, current - x) |
| `ResourceModel.AddOnServer` | Source/ResourceCompPlugin/Private/Components/ResourceComponentBase.cpp:206-210 | the amount becomes current + x when that is at most the maximum, else the maximum; exactly the change events for the old and new amount are appended; nothing else changes |
| `ResourceModel.DrainOnServer` | Source/ResourceCompPlugin/Private/Components/ResourceComponentBase.cpp:211-215 | the amount becomes current - x when that is not negative, else 0; exactly the change events for the old and new amount are appended; nothing else changes |
| `ResourceModel.TimerManagerTick` | Source/ResourceCompPlugin/Private/Components/ResourceComponentBase.cpp:198-200 | a valid timer is active (not pending) after a manager tick; only the timer changes |
| `ResourceModel.DefaultsAndActivation` | Source/ResourceCompPlugin/Public/Components/ResourceComponentBase.h:148-177 | the default configuration's initial state; activation makes the amount 0 or the maximum and keeps it within bounds |
| `ResourceModel.RegenSuspendedOnlyWhenExhausted` | Source/ResourceCompPlugin/Public/Components/ResourceComponentBase.h:229 | for a non-negative RegenDelay and AdditionalExhaustedDelay, GetRegenDelay is negative exactly when empty without regeneration after depletion; after depletion it is at least RegenDelay |
| `ResourceModel.NegativeAmountsRedirect` | Source/ResourceCompPlugin/Private/Components/ResourceComponentBase.cpp:61-92 | adding -x is draining x and draining -x is adding x, ahead of every other check |
| `ResourceModel.NegativePercentRedirects` | Source/ResourceCompPlugin/Private/Components/ResourceComponentBase.cpp:115-134 | whenever the percent amount is not zero, adding -p percent is draining p percent, and vice versa |
| `ResourceModel.NoOpCases` | Source/ResourceCompPlugin/Private/Components/ResourceComponentBase.cpp:66-95 | adding to a full resource, and draining a drain-disabled one, leave the whole state (events, timer, drain time) unchanged |
| `ResourceModel.ClampedAmounts` | Source/ResourceCompPlugin/Private/Components/ResourceComponentBase.cpp:69-99 | the new amount of a non-negative add is min(max, current + x); of a drain, max(0, current - x) |
| `ResourceModel.OperationsKeepBounds` | Source/ResourceCompPlugin/Private/Components/ResourceComponentBase.cpp:61-134 | repeating any add, drain or percent operation any number of times keeps 0 <= current <= max, and so does a regeneration tick |
| `ResourceModel.StepsKeepBounds` | Source/ResourceCompPlugin/Private/Components/ResourceComponentBase.cpp:61-114 | an add or a drain of any amount (negative amounts included) keeps 0 <= current <= max |
| `ResourceModel.DrainRestartsRegen` | Source/ResourceCompPlugin/Private/Components/ResourceComponentBase.cpp:96-113 | an enabled drain records the time and fires its change events. It fires RegenEnd exactly when the timer is not pending, then a timer is set exactly when regeneration should run, starting after GetRegenDelay with the first-tick flag armed |
| `ResourceModel.AddRegenEvents` | Source/ResourceCompPlugin/Private/Components/ResourceComponentBase.cpp:69-86 | an add that is not pending fires RegenTick(0), then RegenStart on the first tick (clearing the flag), then RegenEnd with the timer stopped once full. While pending, none of these fire |
| `ResourceModel.StopRegenTimerIdempotent` | Source/ResourceCompPlugin/Public/Components/ResourceComponentBase.h:226 | stopping twice is stopping once; stopping a cleared timer changes nothing |
| `ResourceModel.SettersKeepRemainingWait` | Source/ResourceCompPlugin/Private/Components/ResourceComponentBase.cpp:136-174 | each of the three setters keeps a valid timer's positive remaining wait without re-arming the first tick. With no timer and a positive regeneration delay, Amount and Rate do not re-arm it. With no timer, Delay re-arms it whenever it sets one. Each setter stores its value |
| `ResourceModel.FireRegenAddsBoundAmount` | Source/ResourceCompPlugin/Private/Components/ResourceComponentBase.cpp:187-200 | a regeneration tick changes the amount and the events exactly as adding the bound amount does |
| `ResourceModel.DrainFromFullScenario` | Source/ResourceCompPlugin/Private/Components/ResourceComponentBase.cpp:88-113 | with the defaults, draining 30 from full leaves 70. It fires change, drain and RegenEnd, then sets a 1 s first delay, a 0.2 s period and an amount of 5 |
| `ResourceModel.FirstRegenTickScenario` | Source/ResourceCompPlugin/Private/Components/ResourceComponentBase.cpp:75-81 | the first regeneration tick after that drain reaches 75 and fires RegenTick before RegenStart |
| `ResourceModel.FillingTickStopsRegen` | Source/ResourceCompPlugin/Private/Components/ResourceComponentBase.cpp:75-86 | the tick that fills the resource fires change, add, fill, RegenTick and RegenEnd, and clears the timer |
| `ResourceModel.DrainPastZeroEmpties` | Source/ResourceCompPlugin/Private/Components/ResourceComponentBase.cpp:227-229 | draining at least what is left empties the resource and fires Empty |
| `ResourceComponentBase.ResourceComponent.constructor` | Source/ResourceCompPlugin/Public/Components/ResourceComponentBase.h:148-177 | a new component holds the configured values, a current amount of 100 (full only when the maximum is 100) and no timer |
| `ResourceComponentBase.ResourceComponent.BeginPlay` | Source/ResourceCompPlugin/Private/Components/ResourceComponentBase.cpp:49-54 | on the authority the amount becomes 0 or the maximum; elsewhere nothing changes |
| `ResourceComponentBase.ResourceComponent.SetCanBeDrained` | Source/ResourceCompPlugin/Public/Components/ResourceComponentBase.h:201-203 | GetCanBeDrained answers the value set; nothing else changes |
| `ResourceComponentBase.ResourceComponent.SetAdditionalExhaustedDelay` | Source/ResourceCompPlugin/Public/Components/ResourceComponentBase.h:113-115 | only that field changes; the timer is untouched |
| `ResourceComponentBase.ResourceComponent.SetRegenAfterDepletion` | Source/ResourceCompPlugin/Public/Components/ResourceComponentBase.h:119-121 | only that field changes; the timer is untouched |
| `ResourceComponentBase.ResourceComponent.RegisterDrainTime` | Source/ResourceCompPlugin/Private/Components/ResourceComponentBase.cpp:203-205 | only the drain time changes |
| `ResourceComponentBase.ResourceComponent.BroadcastResourceChange` | Source/ResourceCompPlugin/Private/Components/ResourceComponentBase.cpp:217-233 | appends exactly the change events for the pair of values; nothing else changes |
| `ResourceComponentBase.ResourceComponent.BroadcastRegenEvent` | Source/ResourceCompPlugin/Private/Components/ResourceComponentBase.cpp:234-246 | appends the one regeneration event of the kind |
| `ResourceComponentBase.ResourceComponent.StopRegenTimer` | Source/ResourceCompPlugin/Public/Components/ResourceComponentBase.h:226 | the new state is the timer-stopping step |
| `ResourceComponentBase.ResourceComponent.SetRegenTimer` | Source/ResourceCompPlugin/Private/Components/ResourceComponentBase.cpp:181-201 | the new state is the scheduling step |
| `ResourceComponentBase.ResourceComponent.SetRegenAmount` | Source/ResourceCompPlugin/Private/Components/ResourceComponentBase.cpp:136-148 | the new state is the amount-setting step |
| `ResourceComponentBase.ResourceComponent.SetRegenRate` | Source/ResourceCompPlugin/Private/Components/ResourceComponentBase.cpp:149-161 | the new state is the rate-setting step |
| `ResourceComponentBase.ResourceComponent.SetRegenDelay` | Source/ResourceCompPlugin/Private/Components/ResourceComponentBase.cpp:162-174 | the new state is the delay-setting step |
| `ResourceComponentBase.ResourceComponent.AddResource` | Source/ResourceCompPlugin/Private/Components/ResourceComponentBase.cpp:61-87 | the new state is the add step |
| `ResourceComponentBase.ResourceComponent.DrainResource` | Source/ResourceCompPlugin/Private/Components/ResourceComponentBase.cpp:88-114 | the new state is the drain step |
| `ResourceComponentBase.ResourceComponent.AddResourceByPercent` | Source/ResourceCompPlugin/Private/Components/ResourceComponentBase.cpp:115-124 | the new state is the add step for the percent of the current or maximum amount |
| `ResourceComponentBase.ResourceComponent.DrainResourceByPercent` | Source/ResourceCompPlugin/Private/Components/ResourceComponentBase.cpp:125-134 | the new state is the drain step for the percent of the current or maximum amount |
| `ResourceComponentBase.ResourceComponent.AddResourceOnServer` | Source/ResourceCompPlugin/Private/Components/ResourceComponentBase.cpp:206-210 | the new state is the server-side clamped add |
| `ResourceComponentBase.ResourceComponent.DrainResourceOnServer` | Source/ResourceCompPlugin/Private/Components/ResourceComponentBase.cpp:211-215 | the new state is the server-side clamped drain |
| `ResourceComponentBase.ResourceComponent.TimerManagerTick` | Source/ResourceCompPlugin/Private/Components/ResourceComponentBase.cpp:198-200 | the new state is one timer-manager tick |
| `ResourceComponentBase.ResourceComponent.FireRegen` | Source/ResourceCompPlugin/Private/Components/ResourceComponentBase.cpp:187-200 | the new state is one firing of the looping timer |
| `HealthComponent.EventsAnnounceEachRule` | Source/ResourceCompPlugin/Private/Components/Health/HealthResource.cpp:192-194 | the i-th added or removed event announces the i-th rule |
| `HealthComponent.HealthResource.constructor` | Source/ResourceCompPlugin/Public/Components/Health/HealthResource.h:37-55 | the rules as placed, no causer, no pending block, an empty event log, a fresh resource with the configured state |
| `HealthComponent.HealthResource.ModificationChanged` | Source/ResourceCompPlugin/Private/Components/Health/HealthResource.cpp:192-194 | appends the added or removed event for the rule; nothing else changes |
| `HealthComponent.HealthResource.GiveModifier` | Source/ResourceCompPlugin/Private/Components/Health/HealthResource.cpp:157-166 | the rule inserted at the index (appended for a negative one); one added event |
| `HealthComponent.HealthResource.GiveModificationData` | Source/ResourceCompPlugin/Private/Components/Health/HealthResource.cpp:167-179 | an absent asset changes nothing. Otherwise the asset's rules are placed as a block at the begin index, or at the end. Then come one added event per rule and the asset-added event |
| `HealthComponent.HealthResource.RemoveModifier` | Source/ResourceCompPlugin/Private/Components/Health/HealthResource.cpp:180-188 | the list becomes the as-written removal; one removed event per removed rule, in order |
| `HealthComponent.HealthResource.RemoveEveryModifier` | Source/ResourceCompPlugin/Public/Components/Health/HealthResource.h:142-145 | the corrected loop: every rule with the name removed, the rest in order, one removed event per rule with the name |
| `HealthComponent.HealthResource.OnAnyDamage` | Source/ResourceCompPlugin/Private/Components/Health/HealthResource.cpp:196-211 | the causer, possibly null, is always recorded. A set flag is cleared with no drain. Otherwise the generic-channel modified damage, with the range measured from the causer, is drained, the causer's location recorded and the generic event fired |
| `HealthComponent.HealthResource.OnPointDamage` | Source/ResourceCompPlugin/Private/Components/Health/HealthResource.cpp:212-223 | sets the flag, drains the point-channel modified damage (bone included, range measured from the causer), records the causer's location, fires the point event |
| `HealthComponent.HealthResource.OnRadialDamage` | Source/ResourceCompPlugin/Private/Components/Health/HealthResource.cpp:224-234 | sets the flag, drains the radial-channel modified damage (range measured from the origin), records the origin, fires the radial event |
| `HealthComponent.HealthResource.BeginPlay` | Source/ResourceCompPlugin/Private/Components/Health/HealthResource.cpp:20-31 | on the authority, the resource is activated and the default asset is appended after the rules already placed |
| `HealthComponent.RemovalDone` | Source/ResourceCompPlugin/Private/Components/Health/HealthResource.cpp:181-187 | the removal loop's invariant at exit gives the as-written list and removed rules |
| `HealthComponent.FullRemovalDone` | Source/ResourceCompPlugin/Public/Components/Health/HealthResource.h:142-145 | the corrected loop's invariant at exit gives the intended list and removed rules |
| `ResourceFunctionLibrary.ResourcesOfMembers` | Source/ResourceCompPlugin/Private/ResourceFunctionLibrary.cpp:28-35 | the resources listed are exactly the components that cast to a resource component |
| `ResourceFunctionLibrary.FirstNamedIndexIsFirstMatch` | Source/ResourceCompPlugin/Private/ResourceFunctionLibrary.cpp:15-21 | the lookup stops at a component with the name, and none before it has the name |
| `ResourceFunctionLibrary.FirstMatchAmongAll` | Source/ResourceCompPlugin/Private/ResourceFunctionLibrary.cpp:9-36 | the single lookup's answer is among the actor's resources, and it is none exactly when no resource has the name |
| `ResourceFunctionLibrary.ResourceFromActorsNamed` | Source/ResourceCompPlugin/Private/ResourceFunctionLibrary.cpp:37-45 | the batch lookup finds at most one resource per actor, each with the name |
| `ResourceFunctionLibrary.NameFilteredMembers` | Source/ResourceCompPlugin/Private/ResourceFunctionLibrary.cpp:109-115 | the filter keeps exactly the health components whose name it lists |
| `ResourceFunctionLibrary.HealthResourcesOfMembers` | Source/ResourceCompPlugin/Private/ResourceFunctionLibrary.cpp:104-117 | an invalid actor has none. Otherwise the answer is exactly the health components that pass the filter, and an empty filter passes all |
| `ResourceFunctionLibrary.SingleActorBatch` | Source/ResourceCompPlugin/Private/ResourceFunctionLibrary.cpp:37-52 | for one actor the batch lookups answer what the single lookups answer |
| `ResourceFunctionLibrary.ResourceFromActorsAppend` | Source/ResourceCompPlugin/Private/ResourceFunctionLibrary.cpp:39-43 | the batch lookup over two actor lists is the concatenation of the two answers |
| `ResourceFunctionLibrary.AllResourcesFromActorsAppend` | Source/ResourceCompPlugin/Private/ResourceFunctionLibrary.cpp:48-50 | collecting all resources over two actor lists concatenates the two answers |
| `ResourceFunctionLibrary.GetResourceFromActor` | Source/ResourceCompPlugin/Private/ResourceFunctionLibrary.cpp:9-23 | the loop answers the first-match specification |
| `ResourceFunctionLibrary.GetAllResourcesFromActor` | Source/ResourceCompPlugin/Private/ResourceFunctionLibrary.cpp:24-36 | the loop answers every resource component in order |
| `ResourceFunctionLibrary.GetResourceFromActors` | Source/ResourceCompPlugin/Private/ResourceFunctionLibrary.cpp:37-45 | the loop answers each actor's first match, in actor order |
| `ResourceFunctionLibrary.GetAllResourcesFromActors` | Source/ResourceCompPlugin/Private/ResourceFunctionLibrary.cpp:46-52 | the loop answers every actor's resources, actor after actor |
| `ResourceFunctionLibrary.GetActorHealthResources` | Source/ResourceCompPlugin/Private/ResourceFunctionLibrary.cpp:104-117 | an invalid actor gives none; otherwise the health components in order, filtered by name when the filter is not empty |
| `ResourceFunctionLibrary.FilterByName` | Source/ResourceCompPlugin/Private/ResourceFunctionLibrary.cpp:109-115 | the back-to-front removal loop leaves exactly the components whose name the filter holds, in their original order |
| `ResourceFunctionLibrary.ActorImplementsAnyModification` | Source/ResourceCompPlugin/Private/ResourceFunctionLibrary.cpp:119-127 | true exactly when some filtered health component has one of the names |
| `ResourceFunctionLibrary.ApplyToResource` | Source/ResourceCompPlugin/Private/ResourceFunctionLibrary.cpp:56-58 | the component takes the add, drain or percent step the operation names |
| `ResourceFunctionLibrary.ApplyToActor` | Source/ResourceCompPlugin/Private/ResourceFunctionLibrary.cpp:54-77 | as written, the resource named "Default" takes the operation, whatever name was asked for; every other resource of the actor keeps its state |
| `ResourceFunctionLibrary.ApplyToNamedResource` | Source/ResourceCompPlugin/Public/ResourceFunctionLibrary.h:39-54 | the first resource with the asked name takes the operation; every other resource of the actor keeps its state |
| `ResourceFunctionLibrary.NamedTargetIgnored` | Source/ResourceCompPlugin/Private/ResourceFunctionLibrary.cpp:56 | an actor whose only resource has another name than "Default" gives the as-written lookup nothing, while the named lookup finds it |
| `ResourceFunctionLibrary.DefaultLookupMissesHealth` | Source/ResourceCompPlugin/Private/Components/Health/HealthResource.cpp:17-19 | a health component keeps the name "Health", so on an actor whose resources are all such components the "Default" lookup finds nothing, while the "Health" lookup finds one exactly when there is a health component |
| `ResourceFunctionLibrary.ApplyToActors` | Source/ResourceCompPlugin/Private/ResourceFunctionLibrary.cpp:79-102 | every resource found takes the operation once per time the batch lookup found it; all others keep their state |
| `ResourceFunctionLibrary.ApplyToEach` | Source/ResourceCompPlugin/Private/ResourceFunctionLibrary.cpp:81-83 | each listed resource takes the operation once per occurrence in the list, in list order |
| `ResourceFunctionLibrary.AppendAssetsConcatenates` | Source/ResourceCompPlugin/Private/ResourceFunctionLibrary.cpp:134-136 | giving the assets one by one appends all their rules, in asset order, after the existing ones |
| `ResourceFunctionLibrary.GiveAssets` | Source/ResourceCompPlugin/Private/ResourceFunctionLibrary.cpp:134-136 | one component gets every present asset appended in turn, with the matching events |
| `ResourceFunctionLibrary.GiveModificationDataToActor` | Source/ResourceCompPlugin/Private/ResourceFunctionLibrary.cpp:129-138 | every health component that passes the filter gets every asset appended, in order |
| `ResourceFunctionLibrary.GiveAssetsToEach` | Source/ResourceCompPlugin/Private/ResourceFunctionLibrary.cpp:133-137 | the outer loop gives every listed health component every asset, in order |
| `ResourceFunctionLibrary.RemoveNames` | Source/ResourceCompPlugin/Private/ResourceFunctionLibrary.cpp:145-147 | one component has RemoveModifier run for each name in turn |
| `ResourceFunctionLibrary.RemoveModificationFromActor` | Source/ResourceCompPlugin/Private/ResourceFunctionLibrary.cpp:140-149 | every health component that passes the filter has each name removed, in name order |
| `ResourceFunctionLibrary.RemoveNamesFromEach` | Source/ResourceCompPlugin/Private/ResourceFunctionLibrary.cpp:144-148 | the outer loop has each name removed from every listed health component, in name order |
| `ResourceFunctionLibrary.DistinctHealths` | Source/ResourceCompPlugin/Private/ResourceFunctionLibrary.cpp:108 | distinct components give distinct health components, so editing one never touches another |

## Left out

- The UI variant of the health component (`HealthResourceWithUI`): widgets and viewport handling.
- `GetDirection` and `GetDirectionToLocation`: rotation matrices and trigonometry on floats.
- Replication: the property lists, and the routing of the `Server`, `NetMulticast` and `Client` calls. Each `*_Net` broadcast is a local append to the event log. The client-only rebroadcasts of the three damage events are omitted.
- The engine timer manager, modelled only through the timer record plus the `TimerManagerTick` and `FireRegen` steps. Real time is the `now` parameter.
- IEEE float rounding, overflow and NaN propagation. `real` is exact. In particular, `1 / RegenRate` is only formed when the rate is positive.
- Vector lengths. The distance the range filters compare is a parameter, so no owner or causer location is computed.
- Engine reflection (`IsChildOf`, `DoesImplementInterface`, the interface's `ModifyDamage`). These are the fixed `DamageTypeRegistry` of each health component.
- The `K2_*` forwarding wrappers. Each is modelled as the call it forwards to.
- `BindDamageDelegates` and the delegate wiring in `BeginPlay`.
- The `IsServer`, `IsLocallyControlled` and `IsPlayerControlled` getters. Authority is the `hasAuthority` parameter of `BeginPlay`.
- The debug messages.
- The `GetCurrentModifications`, `GetResourceName`, `GetCurrentAmount`, `GetMaxAmount` and `GetCanBeDrained` getters. They are plain field reads and carry no contract of their own.
- `HealthComponent.HealthResource.GiveModifier`: requires an index no larger than the rule count. The engine's array insert checks this and stops the program otherwise.
- `HealthComponent.HealthResource.GiveModificationData`: requires a begin index no larger than the rule count, for the same reason: every insert at the begin index plus i must be in range, or the engine stops the program.
- `HealthComponent.HealthResource.OnAnyDamage`: requires a causer when the block flag is clear. Without one the source reads the location of a null causer (HealthResource.cpp:202 and 204) and crashes, so that path is excluded.
- `HealthComponent.HealthResource.OnPointDamage`: the causer is never null. With a null one the source crashes (HealthResource.cpp:214 and 216), so that path is excluded.
- `ResourceFunctionLibrary.GiveModificationDataToActor` and `ResourceFunctionLibrary.RemoveModificationFromActor`: require that no component is listed twice. The engine collects components into a set, so this always holds there.
- `ResourceFunctionLibrary.ApplyToActor`: the four single-actor helpers differ only in the component call. They are one method over the operation.
- `ResourceFunctionLibrary.ApplyToActors`: the same holds for the four multi-actor helpers.
- Component order: the engine's component set has no specified order. The model fixes one list order, so "first match" means first in that list.

## Findings

| source | as written | input that shows it | evidently intended | confidence | as-written member | corrected member |
|---|---|---|---|---|---|---|
| Source/ResourceCompPlugin/Private/Components/Health/HealthResource.cpp:181-186 | after `RemoveAt(index)` the loop still increments `index`, so the rule that slides into the freed slot is never examined | two adjacent rules with the same name: removing that name leaves the second one | "Removes all modifiers with this name" (HealthResource.h:142-145): no rule with the name remains | high; not executed | `ModificationRules.AdjacentMatchSurvives` (as written: `HealthComponent.HealthResource.RemoveModifier`) | `HealthComponent.HealthResource.RemoveEveryModifier` (property: `ModificationRules.RemoveAllNamedRemovesExactly`) |
| Source/ResourceCompPlugin/Private/ResourceFunctionLibrary.cpp:56-74 | the single-actor helpers call `GetResourceFromActor(actor)`, which uses the default name "Default" and ignores `resourceName` | an actor whose only resource is named "Stamina", with `resourceName` "Stamina": nothing is added or drained | act on the first resource with the given name (ResourceFunctionLibrary.h:39-54) | high; not executed | `ResourceFunctionLibrary.NamedTargetIgnored` (as written: `ResourceFunctionLibrary.ApplyToActor`) | `ResourceFunctionLibrary.ApplyToNamedResource` |
