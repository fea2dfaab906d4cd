/**
 * The health component: a resource named "Health" plus an ordered list of
 * damage-modification rules, the editing operations on that list, and the
 * three damage handlers the owning actor's damage events are bound to.
 *
 * The health component extends the resource component in the engine; here it
 * owns one ResourceComponent object and forwards to it. The owner's
 * reflection answers (damage-type ancestry and handlers) are the fixed
 * registry `types`. The owner's position enters each handler as
 * `distanceFromOwner`, the length from a location to the owner; the handlers
 * apply it to the damage causer's location (generic and point damage) or to
 * the explosion origin (radial damage).
 */
module HealthComponent {
  import opened Optional
  import opened DamageModificationData
  import opened DamagePipeline
  import opened ModificationRules
  import opened ResourceModel
  import opened ResourceComponentBase

  /** A world position. */
  datatype Location = Location(x: real, y: real, z: real)

  /** An actor as the handlers use it: an identity and where it stands. */
  datatype ActorRef = ActorRef(id: nat, location: Location)

  /** The health component's own broadcasts, named after their delegates. */
  datatype HealthEvent =
    | OnModificationAdded(modification: Modification)
    | OnModificationRemoved(modification: Modification)
    | OnModificationDataAdded(data: ModificationData)
    | OnGenericDamageTaken(damage: real, damageType: DamageClass)
    | OnPointDamageTaken(damage: real, damageType: DamageClass, bone: Name)
    | OnRadialDamageTaken(damage: real, damageType: DamageClass, origin: Location)

  const HealthResourceName: ResourceName := "Health"

  /** The resource defaults, with the name the health class gives its resource by default. */
  function DefaultHealthConfig(): (c: ResourceConfig)
    ensures c.name == HealthResourceName && c.maxAmount == 100.0
    ensures c.(name := DefaultResourceName) == DefaultConfig()
  {
    DefaultConfig().(name := HealthResourceName)
  }

  /** One OnModificationAdded per rule, in rule order. */
  function AddedEvents(mods: seq<Modification>): (r: seq<HealthEvent>)
    ensures |r| == |mods|
  {
    if mods == [] then [] else [OnModificationAdded(mods[0])] + AddedEvents(mods[1..])
  }

  /** One OnModificationRemoved per rule, in rule order. */
  function RemovedEvents(mods: seq<Modification>): (r: seq<HealthEvent>)
    ensures |r| == |mods|
  {
    if mods == [] then [] else [OnModificationRemoved(mods[0])] + RemovedEvents(mods[1..])
  }

  /** The i-th event announces the i-th rule. */
  lemma {:induction false} EventsAnnounceEachRule(mods: seq<Modification>)
    ensures forall i :: 0 <= i < |mods| ==> AddedEvents(mods)[i] == OnModificationAdded(mods[i])
    ensures forall i :: 0 <= i < |mods| ==> RemovedEvents(mods)[i] == OnModificationRemoved(mods[i])
  {
    if mods != [] {
      EventsAnnounceEachRule(mods[1..]);
      assert forall i :: 1 <= i < |mods| ==> mods[i] == mods[1..][i - 1];
    }
  }

  lemma {:induction false} AddedEventsAppend(xs: seq<Modification>, ys: seq<Modification>)
    ensures AddedEvents(xs + ys) == AddedEvents(xs) + AddedEvents(ys)
  {
    if xs == [] {
      assert xs + ys == ys;
    } else {
      assert (xs + ys)[1..] == xs[1..] + ys;
      AddedEventsAppend(xs[1..], ys);
    }
  }

  lemma {:induction false} RemovedEventsAppend(xs: seq<Modification>, ys: seq<Modification>)
    ensures RemovedEvents(xs + ys) == RemovedEvents(xs) + RemovedEvents(ys)
  {
    if xs == [] {
      assert xs + ys == ys;
    } else {
      assert (xs + ys)[1..] == xs[1..] + ys;
      RemovedEventsAppend(xs[1..], ys);
    }
  }

  lemma AddedEventsSnoc(mods: seq<Modification>, m: Modification)
    ensures AddedEvents(mods + [m]) == AddedEvents(mods) + [OnModificationAdded(m)]
  {
    AddedEventsAppend(mods, [m]);
  }

  lemma RemovedEventsSnoc(mods: seq<Modification>, m: Modification)
    ensures RemovedEvents(mods + [m]) == RemovedEvents(mods) + [OnModificationRemoved(m)]
  {
    RemovedEventsAppend(mods, [m]);
  }

  class HealthResource {
    const resource: ResourceComponent
    const defaultModificationData: Option<ModificationData>
    const types: DamageTypeRegistry
    var modificationRules: seq<Modification>
    var lastDamageCauser: Option<ActorRef>
    var lastLocationHitFrom: Location
    /** Set by a point or radial hit so that the generic callback that follows it does not drain again. */
    var blockDamage: bool
    var healthEvents: seq<HealthEvent>

    /** The component as placed; DefaultHealthConfig gives the class defaults. */
    constructor(config: ResourceConfig, rules: seq<Modification>, defaultData: Option<ModificationData>,
                registry: DamageTypeRegistry)
      ensures fresh(resource)
      ensures resource.name == config.name
      ensures resource.State() == InitialState(config)
      ensures modificationRules == rules && defaultModificationData == defaultData && types == registry
      ensures lastDamageCauser == None && !blockDamage && healthEvents == []
    {
      resource := new ResourceComponent(config);
      defaultModificationData := defaultData;
      types := registry;
      modificationRules := rules;
      lastDamageCauser := None;
      lastLocationHitFrom := Location(0.0, 0.0, 0.0);
      blockDamage := false;
      healthEvents := [];
    }

    // -------------------------------------------------------------------------
    // Queries

    function GetCurrentModifications(): seq<Modification>
      reads this
    {
      modificationRules
    }

    function HasModifications(names: seq<Name>): bool
      reads this
    {
      DamagePipeline.HasModifications(modificationRules, names)
    }

    function ModifyDamage(hit: IncomingDamage): real
      reads this
    {
      DamagePipeline.ModifyDamage(modificationRules, hit, types)
    }

    // -------------------------------------------------------------------------
    // Broadcasts

    /** ModificationChanged. */
    method ModificationChanged(modification: Modification, added: bool)
      modifies this
      ensures healthEvents == old(healthEvents)
                              + [if added then OnModificationAdded(modification) else OnModificationRemoved(modification)]
      ensures modificationRules == old(modificationRules) && blockDamage == old(blockDamage)
      ensures lastDamageCauser == old(lastDamageCauser) && lastLocationHitFrom == old(lastLocationHitFrom)
    {
      if added {
        healthEvents := healthEvents + [OnModificationAdded(modification)];
      } else {
        healthEvents := healthEvents + [OnModificationRemoved(modification)];
      }
    }

    // -------------------------------------------------------------------------
    // Editing the rule list

    /** GiveModifier; pass -1 for the default argument. */
    method GiveModifier(newModifier: Modification, insertAt: int)
      requires insertAt <= |modificationRules|
      modifies this
      ensures modificationRules == InsertModification(old(modificationRules), newModifier, insertAt)
      ensures healthEvents == old(healthEvents) + [OnModificationAdded(newModifier)]
      ensures blockDamage == old(blockDamage) && lastDamageCauser == old(lastDamageCauser)
      ensures lastLocationHitFrom == old(lastLocationHitFrom)
    {
      if insertAt >= 0 {
        modificationRules := modificationRules[..insertAt] + [newModifier] + modificationRules[insertAt..];
      } else {
        modificationRules := modificationRules + [newModifier];
      }
      ModificationChanged(newModifier, true);
    }

    /** GiveModificationData; an absent asset changes nothing. */
    method GiveModificationData(modificationData: Option<ModificationData>, beginInsertAt: int)
      requires beginInsertAt <= |modificationRules|
      modifies this
      ensures modificationData.None? ==> modificationRules == old(modificationRules)
                                         && healthEvents == old(healthEvents)
      ensures modificationData.Some? ==>
                var mods := modificationData.value.modifications;
                && modificationRules == InsertModifications(old(modificationRules), mods, beginInsertAt)
                && healthEvents == old(healthEvents) + AddedEvents(mods)
                                   + [OnModificationDataAdded(modificationData.value)]
      ensures blockDamage == old(blockDamage) && lastDamageCauser == old(lastDamageCauser)
      ensures lastLocationHitFrom == old(lastLocationHitFrom)
    {
      if modificationData.None? {
        return;
      }
      var mods := modificationData.value.modifications;
      var i := 0;
      while i < |mods|
        invariant 0 <= i <= |mods|
        invariant modificationRules == InsertModifications(old(modificationRules), mods[..i], beginInsertAt)
        invariant healthEvents == old(healthEvents) + AddedEvents(mods[..i])
        invariant blockDamage == old(blockDamage) && lastDamageCauser == old(lastDamageCauser)
        invariant lastLocationHitFrom == old(lastLocationHitFrom)
      {
        InsertOneMore(old(modificationRules), mods, i, beginInsertAt);
        AddedEventsSnoc(mods[..i], mods[i]);
        assert mods[..i + 1] == mods[..i] + [mods[i]];
        if beginInsertAt < 0 {
          GiveModifier(mods[i], -1);
        } else {
          GiveModifier(mods[i], beginInsertAt + i);
        }
        i := i + 1;
      }
      assert mods[..i] == mods;
      healthEvents := healthEvents + [OnModificationDataAdded(modificationData.value)];
    }

    /**
     * RemoveModifier, loop as written: the index advances after a removal
     * too, so the rule that slides into the freed slot is not examined.
     */
    method RemoveModifier(modifierName: Name)
      modifies this
      ensures modificationRules == RemoveAsWritten(old(modificationRules), modifierName)
      ensures healthEvents == old(healthEvents) + RemovedEvents(RemovedAsWritten(old(modificationRules), modifierName))
      ensures blockDamage == old(blockDamage) && lastDamageCauser == old(lastDamageCauser)
      ensures lastLocationHitFrom == old(lastLocationHitFrom)
    {
      ghost var removed: seq<Modification> := [];
      var index := 0;
      while index < |modificationRules|
        invariant RemovalProgress(old(modificationRules), modificationRules, index, removed, modifierName)
        invariant healthEvents == old(healthEvents) + RemovedEvents(removed)
        invariant blockDamage == old(blockDamage) && lastDamageCauser == old(lastDamageCauser)
        invariant lastLocationHitFrom == old(lastLocationHitFrom)
        decreases |modificationRules| + 1 - index
      {
        if modificationRules[index].name == modifierName {
          var mod := modificationRules[index];
          RemovalStep(old(modificationRules), modificationRules, index, removed, modifierName);
          RemovedEventsSnoc(removed, mod);
          modificationRules := modificationRules[..index] + modificationRules[index + 1..];
          removed := removed + [mod];
          ModificationChanged(mod, false);
          assert healthEvents == old(healthEvents) + RemovedEvents(removed);
        } else {
          KeepStep(old(modificationRules), modificationRules, index, removed, modifierName);
        }
        index := index + 1;
      }
      RemovalDone(old(modificationRules), modificationRules, index, removed, modifierName);
    }

    /**
     * RemoveModifier as its documentation describes it: the index advances
     * only past a rule that stays, so the rule that slides into a freed slot
     * is examined too and every rule with the name goes.
     */
    method RemoveEveryModifier(modifierName: Name)
      modifies this
      ensures modificationRules == RemoveAllNamed(old(modificationRules), modifierName)
      ensures healthEvents == old(healthEvents) + RemovedEvents(NamedRules(old(modificationRules), modifierName))
      ensures blockDamage == old(blockDamage) && lastDamageCauser == old(lastDamageCauser)
      ensures lastLocationHitFrom == old(lastLocationHitFrom)
    {
      ghost var removed: seq<Modification> := [];
      var index := 0;
      while index < |modificationRules|
        invariant FullRemovalProgress(old(modificationRules), modificationRules, index, removed, modifierName)
        invariant healthEvents == old(healthEvents) + RemovedEvents(removed)
        invariant blockDamage == old(blockDamage) && lastDamageCauser == old(lastDamageCauser)
        invariant lastLocationHitFrom == old(lastLocationHitFrom)
        decreases |modificationRules| - index
      {
        if modificationRules[index].name == modifierName {
          var mod := modificationRules[index];
          FullRemovalStep(old(modificationRules), modificationRules, index, removed, modifierName);
          RemovedEventsSnoc(removed, mod);
          modificationRules := modificationRules[..index] + modificationRules[index + 1..];
          removed := removed + [mod];
          ModificationChanged(mod, false);
        } else {
          FullKeepStep(old(modificationRules), modificationRules, index, removed, modifierName);
          index := index + 1;
        }
      }
      FullRemovalDone(old(modificationRules), modificationRules, index, removed, modifierName);
    }

    // -------------------------------------------------------------------------
    // Damage intake

    /**
     * OnAnyDamage: remember the causer, which may be null; a pending block is
     * consumed without draining; otherwise the modified generic damage is
     * drained and broadcast, the range filters measuring from the causer.
     * The unblocked path reads the causer's location, so it needs a causer.
     */
    method OnAnyDamage(damage: real, damageType: DamageClass, causer: Option<ActorRef>,
                       distanceFromOwner: Location -> real, now: real)
      requires blockDamage || causer.Some?
      modifies this, resource
      ensures lastDamageCauser == causer
      ensures blockDamage == GuardStep(old(blockDamage), AnyDamage).0
      ensures modificationRules == old(modificationRules)
      ensures !GuardStep(old(blockDamage), AnyDamage).1 ==>
                && resource.State() == old(resource.State())
                && healthEvents == old(healthEvents) && lastLocationHitFrom == old(lastLocationHitFrom)
      ensures GuardStep(old(blockDamage), AnyDamage).1 ==>
                && causer.Some?
                && var modified := DamagePipeline.ModifyDamage(old(modificationRules),
                                     IncomingDamage(damage, GenericDamage, damageType, NoName,
                                                    distanceFromOwner(causer.value.location)), types);
                && resource.State() == Drain(old(resource.State()), modified, now)
                && lastLocationHitFrom == causer.value.location
                && healthEvents == old(healthEvents) + [OnGenericDamageTaken(modified, damageType)]
    {
      lastDamageCauser := causer;
      if blockDamage {
        blockDamage := false;
        return;
      }
      var from := causer.value.location;
      var modifiedDamage := ModifyDamage(IncomingDamage(damage, GenericDamage, damageType, NoName,
                                                        distanceFromOwner(from)));
      resource.DrainResource(modifiedDamage, now);
      lastLocationHitFrom := from;
      healthEvents := healthEvents + [OnGenericDamageTaken(modifiedDamage, damageType)];
    }

    /**
     * OnPointDamage: block the generic callback to come, drain the modified
     * point damage, broadcast it; the range filters measure from the causer.
     */
    method OnPointDamage(damage: real, damageType: DamageClass, boneName: Name, causer: ActorRef,
                         distanceFromOwner: Location -> real, now: real)
      modifies this, resource
      ensures blockDamage == GuardStep(old(blockDamage), PointDamageHit).0
      ensures modificationRules == old(modificationRules) && lastDamageCauser == old(lastDamageCauser)
      ensures var modified := DamagePipeline.ModifyDamage(old(modificationRules),
                                IncomingDamage(damage, PointDamage, damageType, boneName,
                                               distanceFromOwner(causer.location)), types);
              && resource.State() == Drain(old(resource.State()), modified, now)
              && lastLocationHitFrom == causer.location
              && healthEvents == old(healthEvents) + [OnPointDamageTaken(modified, damageType, boneName)]
    {
      blockDamage := true;
      var modifiedDamage := ModifyDamage(IncomingDamage(damage, PointDamage, damageType, boneName,
                                                        distanceFromOwner(causer.location)));
      resource.DrainResource(modifiedDamage, now);
      lastLocationHitFrom := causer.location;
      healthEvents := healthEvents + [OnPointDamageTaken(modifiedDamage, damageType, boneName)];
    }

    /** OnRadialDamage: as point damage, with no bone and the range filters measuring from the origin. */
    method OnRadialDamage(damage: real, damageType: DamageClass, origin: Location,
                          distanceFromOwner: Location -> real, now: real)
      modifies this, resource
      ensures blockDamage == GuardStep(old(blockDamage), RadialDamageHit).0
      ensures modificationRules == old(modificationRules) && lastDamageCauser == old(lastDamageCauser)
      ensures var modified := DamagePipeline.ModifyDamage(old(modificationRules),
                                IncomingDamage(damage, RadialDamage, damageType, NoName,
                                               distanceFromOwner(origin)), types);
              && resource.State() == Drain(old(resource.State()), modified, now)
              && lastLocationHitFrom == origin
              && healthEvents == old(healthEvents) + [OnRadialDamageTaken(modified, damageType, origin)]
    {
      blockDamage := true;
      var modifiedDamage := ModifyDamage(IncomingDamage(damage, RadialDamage, damageType, NoName,
                                                        distanceFromOwner(origin)));
      resource.DrainResource(modifiedDamage, now);
      lastLocationHitFrom := origin;
      healthEvents := healthEvents + [OnRadialDamageTaken(modifiedDamage, damageType, origin)];
    }

    // -------------------------------------------------------------------------
    // Activation

    /** BeginPlay: the resource's activation, then, on the authority, the default asset appended. */
    method BeginPlay(hasAuthority: bool)
      modifies this, resource
      ensures hasAuthority ==> resource.State() == ResourceModel.BeginPlay(old(resource.State()), resource.regenBeginsEmpty)
      ensures !hasAuthority ==> resource.State() == old(resource.State())
      ensures !hasAuthority || defaultModificationData.None? ==>
                modificationRules == old(modificationRules) && healthEvents == old(healthEvents)
      ensures hasAuthority && defaultModificationData.Some? ==>
                modificationRules == old(modificationRules) + defaultModificationData.value.modifications
                && healthEvents == old(healthEvents) + AddedEvents(defaultModificationData.value.modifications)
                                   + [OnModificationDataAdded(defaultModificationData.value)]
    {
      resource.BeginPlay(hasAuthority);
      if hasAuthority {
        GiveModificationData(defaultModificationData, -1);
      }
    }
  }

  /**
   * The removal loop's invariant: with k the index clamped to the list, the
   * list so far followed by the as-written removal of the unexamined rest is
   * the as-written removal of the original, and likewise for the removed rules.
   */
  predicate RemovalProgress(original: seq<Modification>, rules: seq<Modification>, index: int,
                            removed: seq<Modification>, name: Name)
  {
    && 0 <= index <= |rules| + 1
    && var k := if index <= |rules| then index else |rules|;
       && RemoveAsWritten(original, name) == rules[..k] + RemoveAsWritten(rules[k..], name)
       && RemovedAsWritten(original, name) == removed + RemovedAsWritten(rules[k..], name)
  }

  /** The removal loop's step at a match: the rule at the index is removed and the next one is skipped. */
  lemma RemovalStep(original: seq<Modification>, rules: seq<Modification>, k: nat,
                    removed: seq<Modification>, name: Name)
    requires RemovalProgress(original, rules, k, removed, name)
    requires k < |rules| && rules[k].name == name
    ensures RemovalProgress(original, rules[..k] + rules[k + 1..], k + 1, removed + [rules[k]], name)
  {
    var after := rules[..k] + rules[k + 1..];
    assert rules[k..][0] == rules[k];
    if k + 1 < |rules| {
      assert rules[k..][1] == rules[k + 1];
      assert rules[k..][2..] == rules[k + 2..];
      assert after[..k + 1] == rules[..k] + [rules[k + 1]];
      assert after[k + 1..] == rules[k + 2..];
    } else {
      assert after == rules[..k];
      assert |rules[k..]| == 1;
      assert after[k..] == [];
    }
  }

  /** The removal loop's step past a rule without the name. */
  lemma KeepStep(original: seq<Modification>, rules: seq<Modification>, k: nat,
                 removed: seq<Modification>, name: Name)
    requires RemovalProgress(original, rules, k, removed, name)
    requires k < |rules| && rules[k].name != name
    ensures RemovalProgress(original, rules, k + 1, removed, name)
  {
    assert rules[k..][0] == rules[k];
    assert rules[k..][1..] == rules[k + 1..];
    assert rules[..k + 1] == rules[..k] + [rules[k]];
  }

  /** When the loop stops, the list and the removed rules are the as-written results. */
  lemma RemovalDone(original: seq<Modification>, rules: seq<Modification>, index: int,
                    removed: seq<Modification>, name: Name)
    requires RemovalProgress(original, rules, index, removed, name)
    requires index >= |rules|
    ensures rules == RemoveAsWritten(original, name)
    ensures removed == RemovedAsWritten(original, name)
  {
    var k := if index <= |rules| then index else |rules|;
    assert k == |rules| && rules[k..] == [] && rules[..k] == rules;
  }

  /** The corrected removal loop's invariant: the list so far, then every match dropped from the unexamined rest. */
  predicate FullRemovalProgress(original: seq<Modification>, rules: seq<Modification>, index: int,
                                removed: seq<Modification>, name: Name)
  {
    && 0 <= index <= |rules|
    && RemoveAllNamed(original, name) == rules[..index] + RemoveAllNamed(rules[index..], name)
    && NamedRules(original, name) == removed + NamedRules(rules[index..], name)
  }

  /** The corrected loop's step at a match: the rule goes and the index stays. */
  lemma FullRemovalStep(original: seq<Modification>, rules: seq<Modification>, k: nat,
                        removed: seq<Modification>, name: Name)
    requires FullRemovalProgress(original, rules, k, removed, name)
    requires k < |rules| && rules[k].name == name
    ensures FullRemovalProgress(original, rules[..k] + rules[k + 1..], k, removed + [rules[k]], name)
  {
    var after := rules[..k] + rules[k + 1..];
    assert rules[k..][0] == rules[k] && rules[k..][1..] == rules[k + 1..];
    assert after[..k] == rules[..k] && after[k..] == rules[k + 1..];
  }

  /** The corrected loop's step past a rule without the name. */
  lemma FullKeepStep(original: seq<Modification>, rules: seq<Modification>, k: nat,
                     removed: seq<Modification>, name: Name)
    requires FullRemovalProgress(original, rules, k, removed, name)
    requires k < |rules| && rules[k].name != name
    ensures FullRemovalProgress(original, rules, k + 1, removed, name)
  {
    assert rules[k..][0] == rules[k] && rules[k..][1..] == rules[k + 1..];
    assert rules[..k + 1] == rules[..k] + [rules[k]];
  }

  /** When the corrected loop stops, the list and the removed rules are the intended results. */
  lemma FullRemovalDone(original: seq<Modification>, rules: seq<Modification>, index: int,
                        removed: seq<Modification>, name: Name)
    requires FullRemovalProgress(original, rules, index, removed, name)
    requires index >= |rules|
    ensures rules == RemoveAllNamed(original, name)
    ensures removed == NamedRules(original, name)
  {
    assert rules[index..] == [] && rules[..index] == rules;
  }
}
