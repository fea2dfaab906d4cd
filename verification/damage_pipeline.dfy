/**
 * The damage-modification pipeline of a health resource: which rules apply to
 * a hit, how the applying rules transform the damage in list order, the
 * rule-name query, and the one-bit guard that keeps a point or radial hit
 * from being counted again by the generic damage callback that follows it.
 */
module DamagePipeline {
  import opened Optional
  import opened DamageModificationData

  /**
   * What the engine's reflection answers about damage-type classes:
   * isChildOf(c, p) is UClass::IsChildOf, and modificationHandler(c) is the
   * ModifyDamage of the damage-modification interface when the class's
   * default object implements it (the damaged owner is fixed per component).
   */
  datatype DamageTypeRegistry = DamageTypeRegistry(
    isChildOf: (DamageClass, DamageClass) -> bool,
    modificationHandler: DamageClass -> Option<real -> real>)

  /**
   * One damage notification as ModifyDamage sees it. distance is the length
   * from the range origin to the owning actor's location.
   */
  datatype IncomingDamage = IncomingDamage(
    amount: real,
    channel: DamageChannel,
    damageType: DamageClass,
    bone: Name,
    distance: real)

  // ---------------------------------------------------------------------------
  // Rule filters

  /** True when the damage class is a subclass of some listed class. */
  function ChildOfAny(damageType: DamageClass, classes: seq<DamageClass>,
                      isChildOf: (DamageClass, DamageClass) -> bool): (r: bool)
    ensures r <==> exists i :: 0 <= i < |classes| && isChildOf(damageType, classes[i])
  {
    if classes == [] then false
    else isChildOf(damageType, classes[0]) || ChildOfAny(damageType, classes[1..], isChildOf)
  }

  /** ModificationAcceptsDamageType. */
  function AcceptsDamageType(m: Modification, damageType: DamageClass,
                             isChildOf: (DamageClass, DamageClass) -> bool): (r: bool)
    ensures r <==> || |m.whitelistedDamageTypes| == 0
                   || damageType in m.whitelistedDamageTypes
                   || (m.whitelistChildDamageTypes &&
                       exists i :: 0 <= i < |m.whitelistedDamageTypes| &&
                                   isChildOf(damageType, m.whitelistedDamageTypes[i]))
  {
    if |m.whitelistedDamageTypes| <= 0 || damageType in m.whitelistedDamageTypes then true
    else if !m.whitelistChildDamageTypes then false
    else ChildOfAny(damageType, m.whitelistedDamageTypes, isChildOf)
  }

  /** The bone filter: it restricts point damage only. */
  predicate BoneAccepted(m: Modification, hit: IncomingDamage)
  {
    hit.channel != PointDamage || |m.whitelistedBoneNames| == 0 || hit.bone in m.whitelistedBoneNames
  }

  /** The range filter: a bound that is not positive is ignored. */
  predicate WithinRange(m: Modification, distance: real)
  {
    && (m.minimumRange <= 0.0 || distance >= m.minimumRange)
    && (m.maximumRange <= 0.0 || distance <= m.maximumRange)
  }

  predicate ChannelMatches(m: Modification, hit: IncomingDamage)
  {
    hit.channel == m.channel || m.channel == AllChannels
  }

  /** A rule applies to a hit when all four filters pass. */
  predicate Applies(m: Modification, hit: IncomingDamage, types: DamageTypeRegistry)
  {
    && AcceptsDamageType(m, hit.damageType, types.isChildOf)
    && WithinRange(m, hit.distance)
    && BoneAccepted(m, hit)
    && ChannelMatches(m, hit)
  }

  predicate IsApplyingOverride(m: Modification, hit: IncomingDamage, types: DamageTypeRegistry)
  {
    Applies(m, hit, types) && m.kind == OverrideDamage
  }

  // ---------------------------------------------------------------------------
  // ModifyDamage

  /**
   * The effect of one applying rule that is not an override on the running
   * value. A damage-type delegate is handed the ORIGINAL damage, not the
   * running value, and leaves the value alone when the class has no handler.
   */
  function Effect(m: Modification, hit: IncomingDamage, types: DamageTypeRegistry, running: real): real
  {
    match m.kind
    case AddDamage => running + m.magnitude
    case MultiplyDamage => running * m.magnitude
    case OverrideDamage => m.magnitude
    case ModifyFromDamageType =>
      match types.modificationHandler(hit.damageType)
      case Some(handler) => handler(hit.amount)
      case None => running
  }

  /** The loop of ModifyDamage from a given running value: rules in order, an applying override returns at once. */
  function RunRules(rules: seq<Modification>, hit: IncomingDamage, types: DamageTypeRegistry, running: real): real
    decreases |rules|
  {
    if rules == [] then running
    else if IsApplyingOverride(rules[0], hit, types) then rules[0].magnitude
    else
      var next := if Applies(rules[0], hit, types) then Effect(rules[0], hit, types, running) else running;
      RunRules(rules[1..], hit, types, next)
  }

  /** ModifyDamage: the running value starts at the received damage. */
  function ModifyDamage(rules: seq<Modification>, hit: IncomingDamage, types: DamageTypeRegistry): real
  {
    RunRules(rules, hit, types, hit.amount)
  }

  // ---------------------------------------------------------------------------
  // An independent description of the result

  /** The index of the first applying override, if any. */
  function FirstOverride(rules: seq<Modification>, hit: IncomingDamage, types: DamageTypeRegistry): (k: Option<nat>)
    ensures k.Some? ==> k.value < |rules| && IsApplyingOverride(rules[k.value], hit, types)
    ensures k.Some? ==> forall j :: 0 <= j < k.value ==> !IsApplyingOverride(rules[j], hit, types)
    ensures k.None? ==> forall j :: 0 <= j < |rules| ==> !IsApplyingOverride(rules[j], hit, types)
  {
    if rules == [] then None
    else if IsApplyingOverride(rules[0], hit, types) then Some(0)
    else match FirstOverride(rules[1..], hit, types)
      case None => None
      case Some(k) => Some(k + 1)
  }

  /** The textbook left fold of the non-override effects, defined on the last rule. */
  function Accumulated(rules: seq<Modification>, hit: IncomingDamage, types: DamageTypeRegistry, init: real): real
    decreases |rules|
  {
    if rules == [] then init
    else
      var before := Accumulated(rules[..|rules| - 1], hit, types, init);
      var last := rules[|rules| - 1];
      if Applies(last, hit, types) then Effect(last, hit, types, before) else before
  }

  /** Peeling the first rule off the left fold. */
  lemma {:induction false} AccumulatedCons(m: Modification, rest: seq<Modification>, hit: IncomingDamage,
                                           types: DamageTypeRegistry, init: real)
    ensures Accumulated([m] + rest, hit, types, init)
         == Accumulated(rest, hit, types, if Applies(m, hit, types) then Effect(m, hit, types, init) else init)
    decreases |rest|
  {
    var first := if Applies(m, hit, types) then Effect(m, hit, types, init) else init;
    if rest == [] {
      assert ([m] + rest)[..0] == [];
    } else {
      var all := [m] + rest;
      var front := rest[..|rest| - 1];
      assert all[..|all| - 1] == [m] + front;
      assert all[|all| - 1] == rest[|rest| - 1];
      AccumulatedCons(m, front, hit, types, init);
    }
  }

  /**
   * ModifyDamage returns the magnitude of the first applying override when
   * there is one, and otherwise the left fold of every applying rule's effect
   * over the received damage.
   */
  lemma {:induction false} RunRulesCharacterised(rules: seq<Modification>, hit: IncomingDamage,
                                                 types: DamageTypeRegistry, running: real)
    ensures RunRules(rules, hit, types, running)
         == match FirstOverride(rules, hit, types)
            case Some(k) => rules[k].magnitude
            case None => Accumulated(rules, hit, types, running)
    decreases |rules|
  {
    if rules == [] {
    } else if IsApplyingOverride(rules[0], hit, types) {
    } else {
      var next := if Applies(rules[0], hit, types) then Effect(rules[0], hit, types, running) else running;
      RunRulesCharacterised(rules[1..], hit, types, next);
      assert rules == [rules[0]] + rules[1..];
      AccumulatedCons(rules[0], rules[1..], hit, types, running);
    }
  }

  lemma ModifyDamageCharacterised(rules: seq<Modification>, hit: IncomingDamage, types: DamageTypeRegistry)
    ensures ModifyDamage(rules, hit, types)
         == match FirstOverride(rules, hit, types)
            case Some(k) => rules[k].magnitude
            case None => Accumulated(rules, hit, types, hit.amount)
  {
    RunRulesCharacterised(rules, hit, types, hit.amount);
  }

  // ---------------------------------------------------------------------------
  // Consequences

  /** With no applying rule (an empty list included) the damage passes through unchanged. */
  lemma {:induction false} NoApplyingRuleKeepsDamage(rules: seq<Modification>, hit: IncomingDamage,
                                                     types: DamageTypeRegistry, running: real)
    requires forall i :: 0 <= i < |rules| ==> !Applies(rules[i], hit, types)
    ensures RunRules(rules, hit, types, running) == running
    decreases |rules|
  {
    if rules != [] {
      assert !Applies(rules[0], hit, types);
      NoApplyingRuleKeepsDamage(rules[1..], hit, types, running);
    }
  }

  /** The first applying override of before + [m] + after is m when before has none. */
  lemma {:induction false} FirstOverrideAfterPrefix(before: seq<Modification>, m: Modification, after: seq<Modification>,
                                                    hit: IncomingDamage, types: DamageTypeRegistry)
    requires forall i :: 0 <= i < |before| ==> !IsApplyingOverride(before[i], hit, types)
    requires IsApplyingOverride(m, hit, types)
    ensures FirstOverride(before + [m] + after, hit, types) == Some(|before|)
    decreases |before|
  {
    var rules := before + [m] + after;
    if before == [] {
      assert rules[0] == m;
    } else {
      assert rules[0] == before[0];
      assert rules[1..] == before[1..] + [m] + after;
      FirstOverrideAfterPrefix(before[1..], m, after, hit, types);
    }
  }

  /**
   * An applying override that no earlier applying override precedes decides
   * the result alone: whatever comes before or after it is irrelevant.
   */
  lemma OverrideSkipsRemainingRules(before: seq<Modification>, m: Modification, after: seq<Modification>,
                                    hit: IncomingDamage, types: DamageTypeRegistry)
    requires forall i :: 0 <= i < |before| ==> !IsApplyingOverride(before[i], hit, types)
    requires IsApplyingOverride(m, hit, types)
    ensures ModifyDamage(before + [m] + after, hit, types) == m.magnitude
  {
    var rules := before + [m] + after;
    ModifyDamageCharacterised(rules, hit, types);
    FirstOverrideAfterPrefix(before, m, after, hit, types);
    assert rules[|before|] == m;
  }

  /**
   * A damage-type delegate rule replaces whatever the earlier rules computed
   * by the handler's answer for the received damage.
   */
  lemma DelegateSeesReceivedDamage(before: seq<Modification>, m: Modification, hit: IncomingDamage,
                                   types: DamageTypeRegistry, handler: real -> real)
    requires forall i :: 0 <= i < |before| ==> !IsApplyingOverride(before[i], hit, types)
    requires Applies(m, hit, types) && m.kind == ModifyFromDamageType
    requires types.modificationHandler(hit.damageType) == Some(handler)
    ensures ModifyDamage(before + [m], hit, types) == handler(hit.amount)
  {
    var rules := before + [m];
    ModifyDamageCharacterised(rules, hit, types);
    assert rules[..|rules| - 1] == before;
    forall j | 0 <= j < |rules|
      ensures !IsApplyingOverride(rules[j], hit, types)
    {
      if j < |before| {
        assert rules[j] == before[j];
      }
    }
  }

  /** A rule built by the default constructor matches every hit and multiplies by one. */
  lemma DefaultModificationIsNeutral(hit: IncomingDamage, types: DamageTypeRegistry)
    ensures Applies(DefaultModification(), hit, types)
    ensures ModifyDamage([DefaultModification()], hit, types) == hit.amount
  {
  }

  /** A rule whose range bounds are both disabled ignores the distance. */
  lemma DisabledRangeIgnoresDistance(m: Modification, hit: IncomingDamage, types: DamageTypeRegistry, d: real)
    requires m.minimumRange <= 0.0 && m.maximumRange <= 0.0
    ensures Applies(m, hit, types) == Applies(m, hit.(distance := d), types)
  {
  }

  /** A bone whitelist restricts point damage only. */
  lemma BoneListRestrictsPointOnly(m: Modification, hit: IncomingDamage, types: DamageTypeRegistry)
    requires hit.channel != PointDamage
    ensures Applies(m, hit, types) == Applies(m.(whitelistedBoneNames := []), hit, types)
  {
  }

  /** Add and multiply compose in list order: [Add 5, Multiply 2] on 10 gives 30, reversed 25. */
  lemma AddMultiplyFollowListOrder(hit: IncomingDamage, types: DamageTypeRegistry)
    requires hit.amount == 10.0
    ensures ModifyDamage([DefaultModification().(kind := AddDamage, magnitude := 5.0),
                          DefaultModification().(magnitude := 2.0)], hit, types) == 30.0
    ensures ModifyDamage([DefaultModification().(magnitude := 2.0),
                          DefaultModification().(kind := AddDamage, magnitude := 5.0)], hit, types) == 25.0
  {
    var add := DefaultModification().(kind := AddDamage, magnitude := 5.0);
    var mul := DefaultModification().(magnitude := 2.0);
    assert Applies(add, hit, types) && Applies(mul, hit, types);
    assert [add, mul][1..] == [mul];
    assert RunRules([mul], hit, types, 15.0) == RunRules([], hit, types, 30.0);
    assert [mul, add][1..] == [add];
    assert RunRules([add], hit, types, 20.0) == RunRules([], hit, types, 25.0);
  }

  // ---------------------------------------------------------------------------
  // HasModifications

  /** HasModifications: does some rule carry one of the given names? */
  function HasModifications(rules: seq<Modification>, names: seq<Name>): (r: bool)
    ensures r <==> exists i :: 0 <= i < |rules| && rules[i].name in names
  {
    if rules == [] then false
    else rules[0].name in names || HasModifications(rules[1..], names)
  }

  // ---------------------------------------------------------------------------
  // The double-count guard

  /** The three damage callbacks of the owning actor. */
  datatype DamageNotification = AnyDamage | PointDamageHit | RadialDamageHit

  /**
   * One callback against the block flag: a point or radial hit sets the flag
   * and drains; a generic callback clears a set flag without draining, and
   * drains otherwise.
   */
  function GuardStep(blockDamage: bool, n: DamageNotification): (r: (bool, bool))
    ensures r.1 <==> !(n == AnyDamage && blockDamage)
    ensures r.0 <==> n != AnyDamage
  {
    match n
    case AnyDamage => if blockDamage then (false, false) else (false, true)
    case PointDamageHit => (true, true)
    case RadialDamageHit => (true, true)
  }

  /** The number of drains a run of callbacks causes, and the final flag. */
  function GuardRun(blockDamage: bool, ns: seq<DamageNotification>): (bool, nat)
    decreases |ns|
  {
    if ns == [] then (blockDamage, 0)
    else
      var step := GuardStep(blockDamage, ns[0]);
      var rest := GuardRun(step.0, ns[1..]);
      (rest.0, rest.1 + if step.1 then 1 else 0)
  }

  /**
   * How the engine reports one hit: a generic hit calls the generic callback
   * only; a point or radial hit calls its own callback and then the generic one.
   */
  function HitCallbacks(hit: DamageNotification): seq<DamageNotification>
  {
    if hit == AnyDamage then [AnyDamage] else [hit, AnyDamage]
  }

  function AllCallbacks(hits: seq<DamageNotification>): seq<DamageNotification>
  {
    if hits == [] then [] else HitCallbacks(hits[0]) + AllCallbacks(hits[1..])
  }

  lemma {:induction false} GuardRunAppend(b: bool, xs: seq<DamageNotification>, ys: seq<DamageNotification>)
    ensures GuardRun(b, xs + ys) == (GuardRun(GuardRun(b, xs).0, ys).0,
                                     GuardRun(b, xs).1 + GuardRun(GuardRun(b, xs).0, ys).1)
    decreases |xs|
  {
    if xs != [] {
      assert (xs + ys)[1..] == xs[1..] + ys;
      GuardRunAppend(GuardStep(b, xs[0]).0, xs[1..], ys);
    } else {
      assert xs + ys == ys;
    }
  }

  /**
   * Starting unblocked, every hit drains exactly once, whatever its kind, and
   * the flag is clear again after each hit.
   */
  lemma {:induction false} EachHitDrainsOnce(hits: seq<DamageNotification>)
    ensures GuardRun(false, AllCallbacks(hits)) == (false, |hits|)
    decreases |hits|
  {
    if hits != [] {
      EachHitDrainsOnce(hits[1..]);
      GuardRunAppend(false, HitCallbacks(hits[0]), AllCallbacks(hits[1..]));
      if hits[0] != AnyDamage {
        assert [hits[0], AnyDamage][1..] == [AnyDamage];
      }
    }
  }
}
