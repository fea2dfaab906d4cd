/**
 * The static helpers that find resource and health components on actors and
 * apply operations to them in bulk. Each lookup is a method with the loop the
 * helper runs, proved equal to a specification function; the specification
 * functions carry what the lookups promise (first match, filtering, order).
 *
 * An actor is its validity and its component list. The engine hands the
 * components over as a set turned into an array, so they are distinct and
 * their order is whatever the set yields; the model fixes it as the list
 * order. A health component is also a resource component (its resource).
 */
module ResourceFunctionLibrary {
  import opened Optional
  import opened DamageModificationData
  import DamagePipeline
  import opened ModificationRules
  import opened ResourceModel
  import opened ResourceComponentBase
  import opened HealthComponent

  datatype Component =
    | OtherComponent
    | ResourceComp(resource: ResourceComponent)
    | HealthComp(health: HealthResource)

  /** An actor pointer as IsValid sees it, with the actor's components. */
  datatype Actor = Actor(isValid: bool, components: seq<Component>)

  /** GetComponents returns a set: no component is listed twice. */
  predicate DistinctComponents(actor: Actor)
  {
    Distinct(actor.components)
  }

  // ---------------------------------------------------------------------------
  // Specification functions

  /** Cast<UResourceComponentBase>: a health component casts to its resource. */
  function AsResource(c: Component): Option<ResourceComponent>
  {
    match c
    case OtherComponent => None
    case ResourceComp(r) => Some(r)
    case HealthComp(h) => Some(h.resource)
  }

  /** The resource components among the components, in component order. */
  function ResourcesOf(cs: seq<Component>): seq<ResourceComponent>
  {
    if cs == [] then [] else ToSeq(AsResource(cs[0])) + ResourcesOf(cs[1..])
  }

  /** The component casts to a resource component with the name. */
  predicate CastsToNamed(c: Component, name: ResourceName)
  {
    AsResource(c).Some? && AsResource(c).value.name == name
  }

  /** Where the lookup loop stops: the first component that casts to the name, or the length when none does. */
  function FirstNamedIndex(cs: seq<Component>, name: ResourceName): (i: nat)
    ensures i <= |cs|
  {
    if cs == [] || CastsToNamed(cs[0], name) then 0 else 1 + FirstNamedIndex(cs[1..], name)
  }

  /** What GetResourceFromActor answers. */
  function ResourceFromActor(actor: Actor, resourceName: ResourceName): Option<ResourceComponent>
  {
    if !actor.isValid then None
    else
      var i := FirstNamedIndex(actor.components, resourceName);
      if i < |actor.components| then AsResource(actor.components[i]) else None
  }

  /** What GetAllResourcesFromActor answers. */
  function AllResourcesFromActor(actor: Actor): seq<ResourceComponent>
  {
    if !actor.isValid then [] else ResourcesOf(actor.components)
  }

  /** What GetResourceFromActors answers: each actor's first match, in actor order. */
  function ResourceFromActors(actors: seq<Actor>, resourceName: ResourceName): seq<ResourceComponent>
  {
    if actors == [] then []
    else ToSeq(ResourceFromActor(actors[0], resourceName)) + ResourceFromActors(actors[1..], resourceName)
  }

  /** What GetAllResourcesFromActors answers: every actor's resources, actor after actor. */
  function AllResourcesFromActors(actors: seq<Actor>): seq<ResourceComponent>
  {
    if actors == [] then []
    else AllResourcesFromActor(actors[0]) + AllResourcesFromActors(actors[1..])
  }

  /** The health components among the components, in component order. */
  function HealthsOf(cs: seq<Component>): seq<HealthResource>
  {
    if cs == [] then []
    else (if cs[0].HealthComp? then [cs[0].health] else []) + HealthsOf(cs[1..])
  }

  /** The health components whose resource name is in the filter, in order. */
  function NameFiltered(hs: seq<HealthResource>, filter: seq<ResourceName>): seq<HealthResource>
  {
    if hs == [] then []
    else (if hs[0].resource.name in filter then [hs[0]] else []) + NameFiltered(hs[1..], filter)
  }

  /** What GetActorHealthResources answers: an empty filter keeps every health component. */
  function HealthResourcesOf(actor: Actor, filter: seq<ResourceName>): seq<HealthResource>
  {
    if !actor.isValid then []
    else if |filter| > 0 then NameFiltered(HealthsOf(actor.components), filter)
    else HealthsOf(actor.components)
  }

  /** What ActorImplementsAnyModification answers. */
  predicate ImplementsAnyModification(actor: Actor, names: seq<Name>, filter: seq<ResourceName>)
    reads HealthResourcesOf(actor, filter)
  {
    exists h :: h in HealthResourcesOf(actor, filter) && DamagePipeline.HasModifications(h.modificationRules, names)
  }

  // ---------------------------------------------------------------------------
  // Properties of the lookups

  /** The resources listed are exactly the components that cast to a resource. */
  lemma {:induction false} ResourcesOfMembers(cs: seq<Component>)
    ensures |ResourcesOf(cs)| <= |cs|
    ensures forall k :: 0 <= k < |ResourcesOf(cs)| ==>
              exists i :: 0 <= i < |cs| && AsResource(cs[i]) == Some(ResourcesOf(cs)[k])
    ensures forall i :: 0 <= i < |cs| && AsResource(cs[i]).Some? ==> AsResource(cs[i]).value in ResourcesOf(cs)
  {
    if cs != [] {
      ResourcesOfMembers(cs[1..]);
      var head := ToSeq(AsResource(cs[0]));
      var rest := ResourcesOf(cs[1..]);
      assert ResourcesOf(cs) == head + rest;
      forall k | 0 <= k < |head + rest|
        ensures exists i :: 0 <= i < |cs| && AsResource(cs[i]) == Some((head + rest)[k])
      {
        if k < |head| {
          assert AsResource(cs[0]) == Some((head + rest)[k]);
        } else {
          var i :| 0 <= i < |cs[1..]| && AsResource(cs[1..][i]) == Some(rest[k - |head|]);
          assert cs[1..][i] == cs[i + 1];
        }
      }
      forall i | 1 <= i < |cs| && AsResource(cs[i]).Some?
        ensures AsResource(cs[i]).value in head + rest
      {
        assert cs[1..][i - 1] == cs[i];
      }
    }
  }

  /** The loop stops at a match, and no component before it matches. */
  lemma {:induction false} FirstNamedIndexIsFirstMatch(cs: seq<Component>, name: ResourceName)
    ensures FirstNamedIndex(cs, name) < |cs| ==> CastsToNamed(cs[FirstNamedIndex(cs, name)], name)
    ensures forall j :: 0 <= j < FirstNamedIndex(cs, name) ==> !CastsToNamed(cs[j], name)
  {
    if cs != [] && !CastsToNamed(cs[0], name) {
      FirstNamedIndexIsFirstMatch(cs[1..], name);
      assert forall j :: 1 <= j < |cs| ==> cs[j] == cs[1..][j - 1];
    }
  }

  /** Every resource the batch lookup finds carries the name, at most one per actor. */
  lemma {:induction false} ResourceFromActorsNamed(actors: seq<Actor>, resourceName: ResourceName)
    ensures |ResourceFromActors(actors, resourceName)| <= |actors|
    ensures forall k :: 0 <= k < |ResourceFromActors(actors, resourceName)| ==>
              ResourceFromActors(actors, resourceName)[k].name == resourceName
  {
    if actors != [] {
      ResourceFromActorsNamed(actors[1..], resourceName);
      if actors[0].isValid {
        FirstNamedIndexIsFirstMatch(actors[0].components, resourceName);
      }
    }
  }

  /** The health components listed are exactly the actor's health components. */
  lemma {:induction false} HealthsOfMembers(cs: seq<Component>)
    ensures forall k :: 0 <= k < |HealthsOf(cs)| ==> HealthComp(HealthsOf(cs)[k]) in cs
    ensures forall i :: 0 <= i < |cs| && cs[i].HealthComp? ==> cs[i].health in HealthsOf(cs)
  {
    if cs != [] {
      HealthsOfMembers(cs[1..]);
      assert forall i :: 1 <= i < |cs| ==> cs[1..][i - 1] == cs[i];
    }
  }

  /** The filter keeps exactly the listed components whose resource name it holds. */
  lemma {:induction false} NameFilteredMembers(hs: seq<HealthResource>, filter: seq<ResourceName>)
    ensures forall k :: 0 <= k < |NameFiltered(hs, filter)| ==>
              NameFiltered(hs, filter)[k] in hs && NameFiltered(hs, filter)[k].resource.name in filter
    ensures forall i :: 0 <= i < |hs| && hs[i].resource.name in filter ==> hs[i] in NameFiltered(hs, filter)
  {
    if hs != [] {
      NameFilteredMembers(hs[1..], filter);
      assert forall i :: 1 <= i < |hs| ==> hs[1..][i - 1] == hs[i];
    }
  }

  /**
   * GetActorHealthResources lists exactly the valid actor's health components
   * whose resource name passes the filter, an empty filter passing every name.
   */
  lemma HealthResourcesOfMembers(actor: Actor, filter: seq<ResourceName>)
    ensures !actor.isValid ==> HealthResourcesOf(actor, filter) == []
    ensures actor.isValid ==>
              forall k :: 0 <= k < |HealthResourcesOf(actor, filter)| ==>
                && HealthComp(HealthResourcesOf(actor, filter)[k]) in actor.components
                && (filter == [] || HealthResourcesOf(actor, filter)[k].resource.name in filter)
    ensures actor.isValid ==>
              forall i :: 0 <= i < |actor.components| && actor.components[i].HealthComp?
                          && (filter == [] || actor.components[i].health.resource.name in filter)
                          ==> actor.components[i].health in HealthResourcesOf(actor, filter)
  {
    if actor.isValid {
      HealthsOfMembers(actor.components);
      NameFilteredMembers(HealthsOf(actor.components), filter);
    }
  }

  /** With one actor, the batch lookup finds exactly what the single lookup finds. */
  lemma SingleActorBatch(actor: Actor, resourceName: ResourceName)
    ensures ResourceFromActors([actor], resourceName) == ToSeq(ResourceFromActor(actor, resourceName))
    ensures AllResourcesFromActors([actor]) == AllResourcesFromActor(actor)
  {
    assert [actor][1..] == [];
  }

  /** The batch lookup distributes over concatenation of the actor lists. */
  lemma {:induction false} ResourceFromActorsAppend(xs: seq<Actor>, ys: seq<Actor>, resourceName: ResourceName)
    ensures ResourceFromActors(xs + ys, resourceName) == ResourceFromActors(xs, resourceName) + ResourceFromActors(ys, resourceName)
    decreases |xs|
  {
    if xs == [] {
      assert xs + ys == ys;
    } else {
      assert (xs + ys)[1..] == xs[1..] + ys;
      ResourceFromActorsAppend(xs[1..], ys, resourceName);
    }
  }

  /** Collecting all resources distributes over concatenation of the actor lists. */
  lemma {:induction false} AllResourcesFromActorsAppend(xs: seq<Actor>, ys: seq<Actor>)
    ensures AllResourcesFromActors(xs + ys) == AllResourcesFromActors(xs) + AllResourcesFromActors(ys)
    decreases |xs|
  {
    if xs == [] {
      assert xs + ys == ys;
    } else {
      assert (xs + ys)[1..] == xs[1..] + ys;
      AllResourcesFromActorsAppend(xs[1..], ys);
    }
  }

  /** The first match is among all the actor's resources; an invalid actor has none. */
  lemma FirstMatchAmongAll(actor: Actor, resourceName: ResourceName)
    ensures ResourceFromActor(actor, resourceName).Some? ==>
              ResourceFromActor(actor, resourceName).value in AllResourcesFromActor(actor)
    ensures ResourceFromActor(actor, resourceName).None? <==>
              forall x :: x in AllResourcesFromActor(actor) ==> x.name != resourceName
  {
    if actor.isValid {
      FirstNamedIndexIsFirstMatch(actor.components, resourceName);
      ResourcesOfMembers(actor.components);
      if ResourceFromActor(actor, resourceName).None? {
        forall x | x in AllResourcesFromActor(actor) ensures x.name != resourceName {
          var k :| 0 <= k < |ResourcesOf(actor.components)| && ResourcesOf(actor.components)[k] == x;
          var i :| 0 <= i < |actor.components| && AsResource(actor.components[i]) == Some(x);
        }
      }
    }
  }

  // ---------------------------------------------------------------------------
  // The lookups as the helpers run them

  method GetResourceFromActor(actor: Actor, resourceName: ResourceName) returns (r: Option<ResourceComponent>)
    ensures r == ResourceFromActor(actor, resourceName)
  {
    if !actor.isValid {
      return None;
    }
    var components := actor.components;
    FirstNamedIndexIsFirstMatch(components, resourceName);
    for i := 0 to |components|
      invariant forall j :: 0 <= j < i ==> !CastsToNamed(components[j], resourceName)
    {
      var resource := AsResource(components[i]);
      if resource.Some? && resource.value.name == resourceName {
        return resource;
      }
    }
    return None;
  }

  method GetAllResourcesFromActor(actor: Actor) returns (r: seq<ResourceComponent>)
    ensures r == AllResourcesFromActor(actor)
  {
    if !actor.isValid {
      return [];
    }
    var components := actor.components;
    r := [];
    for i := 0 to |components|
      invariant r + ResourcesOf(components[i..]) == ResourcesOf(components)
    {
      assert components[i..] == [components[i]] + components[i + 1..];
      r := r + ToSeq(AsResource(components[i]));
    }
  }

  method GetResourceFromActors(actors: seq<Actor>, resourceName: ResourceName) returns (r: seq<ResourceComponent>)
    ensures r == ResourceFromActors(actors, resourceName)
  {
    r := [];
    for i := 0 to |actors|
      invariant r == ResourceFromActors(actors[..i], resourceName)
    {
      assert actors[..i + 1] == actors[..i] + [actors[i]];
      ResourceFromActorsAppend(actors[..i], [actors[i]], resourceName);
      SingleActorBatch(actors[i], resourceName);
      var resource := GetResourceFromActor(actors[i], resourceName);
      if resource.Some? {
        r := r + [resource.value];
      }
    }
    assert actors[..|actors|] == actors;
  }

  method GetAllResourcesFromActors(actors: seq<Actor>) returns (r: seq<ResourceComponent>)
    ensures r == AllResourcesFromActors(actors)
  {
    r := [];
    for i := 0 to |actors|
      invariant r == AllResourcesFromActors(actors[..i])
    {
      assert actors[..i + 1] == actors[..i] + [actors[i]];
      AllResourcesFromActorsAppend(actors[..i], [actors[i]]);
      assert [actors[i]][1..] == [];
      var resources := GetAllResourcesFromActor(actors[i]);
      r := r + resources;
    }
    assert actors[..|actors|] == actors;
  }

  /** GetActorHealthResources: all health components, then the unnamed ones removed back to front. */
  method GetActorHealthResources(actor: Actor, filter: seq<ResourceName>) returns (r: seq<HealthResource>)
    ensures r == HealthResourcesOf(actor, filter)
  {
    if !actor.isValid {
      return [];
    }
    r := HealthsOf(actor.components);
    if |filter| > 0 {
      r := FilterByName(r, filter);
    }
  }

  /** The back-to-front RemoveAt loop of GetActorHealthResources: drops the components whose name the filter lacks. */
  method FilterByName(all: seq<HealthResource>, filter: seq<ResourceName>) returns (r: seq<HealthResource>)
    ensures r == NameFiltered(all, filter)
  {
    r := all;
    var h := |r| - 1;
    while h >= 0
      invariant -1 <= h < |all|
      invariant r == all[..h + 1] + NameFiltered(all[h + 1..], filter)
    {
      FilterBackStep(all, r, h, filter);
      if r[h].resource.name !in filter {
        r := r[..h] + r[h + 1..];
      }
      h := h - 1;
    }
    assert all[0..] == all;
  }

  /** One step of the back-to-front filter loop: the component at h is kept or removed as the filter says. */
  lemma FilterBackStep(all: seq<HealthResource>, r: seq<HealthResource>, h: nat, filter: seq<ResourceName>)
    requires h < |all|
    requires r == all[..h + 1] + NameFiltered(all[h + 1..], filter)
    ensures h < |r| && r[h] == all[h]
    ensures all[h].resource.name in filter ==> r == all[..h] + NameFiltered(all[h..], filter)
    ensures all[h].resource.name !in filter ==> r[..h] + r[h + 1..] == all[..h] + NameFiltered(all[h..], filter)
  {
    assert all[h..] == [all[h]] + all[h + 1..];
    assert all[..h + 1] == all[..h] + [all[h]];
    assert r[..h] == all[..h];
    assert r[h + 1..] == NameFiltered(all[h + 1..], filter);
  }

  method ActorImplementsAnyModification(actor: Actor, names: seq<Name>, filter: seq<ResourceName>) returns (r: bool)
    ensures r == ImplementsAnyModification(actor, names, filter)
  {
    if !actor.isValid {
      return false;
    }
    var healthComps := GetActorHealthResources(actor, filter);
    for i := 0 to |healthComps|
      invariant forall j :: 0 <= j < i ==> !DamagePipeline.HasModifications(healthComps[j].modificationRules, names)
    {
      if healthComps[i].HasModifications(names) {
        return true;
      }
    }
    return false;
  }

  // ---------------------------------------------------------------------------
  // Applying operations

  /** The component call each of the four Add/Drain/AddPercent/DrainPercent helpers makes. */
  method ApplyToResource(resource: ResourceComponent, op: ResourceOp, now: real)
    modifies resource
    ensures resource.State() == ApplyOp(old(resource.State()), op, now)
  {
    match op
    case AddOp(x) => resource.AddResource(x, now);
    case DrainOp(x) => resource.DrainResource(x, now);
    case AddPercentOp(p, t) => resource.AddResourceByPercent(p, t, now);
    case DrainPercentOp(p, t) => resource.DrainResourceByPercent(p, t, now);
  }

  /**
   * AddResourceToActor and its three siblings, as written: the lookup uses
   * the default name and never the resourceName argument. Only the resource
   * found changes; every other resource component of the actor keeps its state.
   */
  method ApplyToActor(actor: Actor, resourceName: ResourceName, op: ResourceOp, now: real)
    modifies AllResourcesFromActor(actor)
    ensures var target := ResourceFromActor(actor, DefaultResourceName);
            target.Some? ==> target.value.State() == ApplyOp(old(target.value.State()), op, now)
    ensures forall i :: 0 <= i < |actor.components| && AsResource(actor.components[i]).Some?
                        && AsResource(actor.components[i]) != ResourceFromActor(actor, DefaultResourceName) ==>
              AsResource(actor.components[i]).value.State() == old(AsResource(actor.components[i]).value.State())
  {
    ApplyToNamedResource(actor, DefaultResourceName, op, now);
  }

  /** The single-actor helpers with the lookup their documentation describes: the named resource. */
  method ApplyToNamedResource(actor: Actor, resourceName: ResourceName, op: ResourceOp, now: real)
    modifies AllResourcesFromActor(actor)
    ensures var target := ResourceFromActor(actor, resourceName);
            target.Some? ==> target.value.State() == ApplyOp(old(target.value.State()), op, now)
    ensures forall i :: 0 <= i < |actor.components| && AsResource(actor.components[i]).Some?
                        && AsResource(actor.components[i]) != ResourceFromActor(actor, resourceName) ==>
              AsResource(actor.components[i]).value.State() == old(AsResource(actor.components[i]).value.State())
  {
    if !actor.isValid {
      return;
    }
    FirstMatchAmongAll(actor, resourceName);
    var resource := GetResourceFromActor(actor, resourceName);
    if resource.Some? {
      ApplyToResource(resource.value, op, now);
    }
    forall i | 0 <= i < |actor.components| && AsResource(actor.components[i]).Some?
               && AsResource(actor.components[i]) != resource
      ensures AsResource(actor.components[i]).value.State() == old(AsResource(actor.components[i]).value.State())
    {
      var c := actor.components[i];
      assert old(allocated(c));
      assert old(allocated(AsResource(c).value)) by {
        if c.HealthComp? {
          assert old(allocated(c.health));
        }
      }
    }
  }

  /**
   * The as-written helper and the named one agree exactly when the name asked
   * for is the default: with any other name, an actor whose only resource
   * carries that name is left untouched by the as-written helper.
   */
  lemma NamedTargetIgnored(r: ResourceComponent, op: ResourceOp)
    requires r.name != DefaultResourceName
    ensures ResourceFromActor(Actor(true, [ResourceComp(r)]), DefaultResourceName) == None
    ensures ResourceFromActor(Actor(true, [ResourceComp(r)]), r.name) == Some(r)
  {
    assert ResourcesOf([ResourceComp(r)]) == [r] by {
      assert [ResourceComp(r)][1..] == [];
    }
    assert [r][1..] == [];
  }

  /**
   * A health component keeps the name the health class gives its resource,
   * so on an actor whose resources are all such health components the
   * as-written single-actor helpers find nothing, while a lookup by "Health"
   * finds the first of them.
   */
  lemma {:induction false} DefaultLookupMissesHealth(actor: Actor)
    requires actor.isValid
    requires forall i :: 0 <= i < |actor.components| ==>
               actor.components[i].OtherComponent?
               || (actor.components[i].HealthComp?
                   && actor.components[i].health.resource.name == DefaultHealthConfig().name)
    ensures ResourceFromActor(actor, DefaultResourceName) == None
    ensures ResourceFromActor(actor, HealthResourceName).Some? <==>
              exists i :: 0 <= i < |actor.components| && actor.components[i].HealthComp?
  {
    var cs := actor.components;
    FirstNamedIndexIsFirstMatch(cs, DefaultResourceName);
    FirstNamedIndexIsFirstMatch(cs, HealthResourceName);
    if exists i :: 0 <= i < |cs| && cs[i].HealthComp? {
      var i :| 0 <= i < |cs| && cs[i].HealthComp?;
      assert CastsToNamed(cs[i], HealthResourceName);
    }
  }

  /**
   * AddResourceToActors and its three siblings: every found resource gets the
   * operation once per time it was found (an actor listed twice gets it twice).
   */
  method ApplyToActors(actors: seq<Actor>, resourceName: ResourceName, op: ResourceOp, now: real)
    modifies ResourceFromActors(actors, resourceName)
    ensures forall a, i :: 0 <= a < |actors| && 0 <= i < |actors[a].components|
                           && AsResource(actors[a].components[i]).Some? ==>
              var x := AsResource(actors[a].components[i]).value;
              x.State() == ApplyOpTimes(old(x.State()), op, now, multiset(ResourceFromActors(actors, resourceName))[x])
  {
    var resources := GetResourceFromActors(actors, resourceName);
    ApplyToEach(resources, op, now);
    forall a, i | 0 <= a < |actors| && 0 <= i < |actors[a].components| && AsResource(actors[a].components[i]).Some?
      ensures var x := AsResource(actors[a].components[i]).value;
              x.State() == ApplyOpTimes(old(x.State()), op, now, multiset(ResourceFromActors(actors, resourceName))[x])
    {
      var c := actors[a].components[i];
      assert old(allocated(c));
      var x := AsResource(c).value;
      assert old(allocated(x)) by {
        if c.HealthComp? {
          assert old(allocated(c.health));
        }
      }
      if x !in resources {
        assert multiset(resources)[x] == 0;
      }
    }
  }

  /** The loop of the batch helpers: the operation on each found resource in turn. */
  method ApplyToEach(resources: seq<ResourceComponent>, op: ResourceOp, now: real)
    modifies resources
    ensures forall x :: x in resources ==> x.State() == ApplyOpTimes(old(x.State()), op, now, multiset(resources)[x])
  {
    for r := 0 to |resources|
      invariant forall x :: x in resources ==>
                  x.State() == ApplyOpTimes(old(x.State()), op, now, multiset(resources[..r])[x])
    {
      assert multiset(resources[..r + 1]) == multiset(resources[..r]) + multiset{resources[r]} by {
        assert resources[..r + 1] == resources[..r] + [resources[r]];
      }
      label Before:
      ApplyToResource(resources[r], op, now);
      forall x | x in resources
        ensures x.State() == ApplyOpTimes(old(x.State()), op, now, multiset(resources[..r + 1])[x])
      {
        CountStep(old(x.State()), old@Before(x.State()), x.State(), op, now, multiset(resources[..r]), x, resources[r]);
      }
    }
    assert resources[..|resources|] == resources;
  }

  /** One more application, counted for the resource it was applied to and for no other. */
  lemma CountStep(s0: ResourceState, before: ResourceState, after: ResourceState, op: ResourceOp, now: real,
                  applied: multiset<ResourceComponent>, x: ResourceComponent, y: ResourceComponent)
    requires before == ApplyOpTimes(s0, op, now, applied[x])
    requires x == y ==> after == ApplyOp(before, op, now)
    requires x != y ==> after == before
    ensures after == ApplyOpTimes(s0, op, now, (applied + multiset{y})[x])
  {
    if x == y {
      assert (applied + multiset{y})[x] == applied[x] + 1;
    } else {
      assert (applied + multiset{y})[x] == applied[x];
    }
  }

  // ---------------------------------------------------------------------------
  // Editing the rules of an actor's health components

  /** The rule list after appending each present asset in turn. */
  function AppendAssets(rules: seq<Modification>, assets: seq<Option<ModificationData>>): seq<Modification>
  {
    if assets == [] then rules
    else
      var last := assets[|assets| - 1];
      var before := AppendAssets(rules, assets[..|assets| - 1]);
      if last.Some? then InsertModifications(before, last.value.modifications, -1) else before
  }

  /** The events appending each present asset in turn fires. */
  function AssetEvents(assets: seq<Option<ModificationData>>): seq<HealthEvent>
  {
    if assets == [] then []
    else
      var last := assets[|assets| - 1];
      AssetEvents(assets[..|assets| - 1])
      + (if last.Some? then AddedEvents(last.value.modifications) + [OnModificationDataAdded(last.value)] else [])
  }

  /** The present assets' rules, concatenated in asset order. */
  function AllAssetRules(assets: seq<Option<ModificationData>>): seq<Modification>
  {
    if assets == [] then []
    else
      var last := assets[|assets| - 1];
      AllAssetRules(assets[..|assets| - 1]) + (if last.Some? then last.value.modifications else [])
  }

  /** One more asset: what appending it does to the rules and to the events. */
  lemma AssetsSnoc(rules: seq<Modification>, assets: seq<Option<ModificationData>>, a: nat)
    requires a < |assets|
    ensures AppendAssets(rules, assets[..a + 1])
            == if assets[a].Some? then InsertModifications(AppendAssets(rules, assets[..a]), assets[a].value.modifications, -1)
               else AppendAssets(rules, assets[..a])
    ensures AssetEvents(assets[..a + 1])
            == AssetEvents(assets[..a])
               + if assets[a].Some? then AddedEvents(assets[a].value.modifications) + [OnModificationDataAdded(assets[a].value)]
                 else []
  {
    assert assets[..a + 1][..a] == assets[..a];
    assert assets[..a + 1][a] == assets[a];
  }

  /** Appending assets one by one appends all their rules, in asset order, after the existing ones. */
  lemma {:induction false} AppendAssetsConcatenates(rules: seq<Modification>, assets: seq<Option<ModificationData>>)
    ensures AppendAssets(rules, assets) == rules + AllAssetRules(assets)
    decreases |assets|
  {
    if assets != [] {
      AppendAssetsConcatenates(rules, assets[..|assets| - 1]);
    }
  }

  /** A health component has had the assets appended, and nothing else of its rule or damage state changed. */
  twostate predicate GaveAssets(h: HealthResource, assets: seq<Option<ModificationData>>)
    reads h
  {
    && h.modificationRules == AppendAssets(old(h.modificationRules), assets)
    && h.healthEvents == old(h.healthEvents) + AssetEvents(assets)
    && h.blockDamage == old(h.blockDamage) && h.lastDamageCauser == old(h.lastDamageCauser)
    && h.lastLocationHitFrom == old(h.lastLocationHitFrom)
  }

  /** The i-th component is a health component GetActorHealthResources keeps. */
  predicate Selected(actor: Actor, filter: seq<ResourceName>, i: nat)
    requires i < |actor.components|
  {
    && actor.isValid
    && actor.components[i].HealthComp?
    && (filter == [] || actor.components[i].health.resource.name in filter)
  }

  /** The inner loop of GiveModificationDataToActor: one component is given each asset in turn, appended. */
  method GiveAssets(h: HealthResource, assets: seq<Option<ModificationData>>)
    modifies h
    ensures GaveAssets(h, assets)
  {
    for a := 0 to |assets|
      invariant GaveAssets(h, assets[..a])
    {
      AssetsSnoc(old(h.modificationRules), assets, a);
      h.GiveModificationData(assets[a], -1);
    }
    assert assets[..|assets|] == assets;
  }

  /** Nothing of the component's rule or damage state has changed. */
  twostate predicate Untouched(h: HealthResource)
    reads h
  {
    && h.modificationRules == old(h.modificationRules) && h.healthEvents == old(h.healthEvents)
    && h.blockDamage == old(h.blockDamage) && h.lastDamageCauser == old(h.lastDamageCauser)
    && h.lastLocationHitFrom == old(h.lastLocationHitFrom)
  }

  /** GiveModificationDataToActor: each matching health component gets every present asset appended, in order. */
  method GiveModificationDataToActor(actor: Actor, assets: seq<Option<ModificationData>>, filter: seq<ResourceName>)
    requires DistinctComponents(actor)
    modifies HealthResourcesOf(actor, filter)
    ensures forall i :: 0 <= i < |actor.components| && Selected(actor, filter, i) ==>
              GaveAssets(actor.components[i].health, assets)
  {
    if !actor.isValid {
      return;
    }
    var healthComps := GetActorHealthResources(actor, filter);
    DistinctHealths(actor, filter);
    GiveAssetsToEach(healthComps, assets);
    HealthResourcesOfMembers(actor, filter);
  }

  /** The outer loop of GiveModificationDataToActor: every component of the list is given every asset. */
  method GiveAssetsToEach(healthComps: seq<HealthResource>, assets: seq<Option<ModificationData>>)
    requires Distinct(healthComps)
    modifies healthComps
    ensures forall j :: 0 <= j < |healthComps| ==> GaveAssets(healthComps[j], assets)
  {
    for k := 0 to |healthComps|
      invariant forall j :: 0 <= j < k ==> GaveAssets(healthComps[j], assets)
      invariant forall j :: k <= j < |healthComps| ==> Untouched(healthComps[j])
    {
      GiveAssets(healthComps[k], assets);
    }
  }

  /** A health component has had RemoveModifier run for each name in turn, and nothing else changed. */
  twostate predicate RemovedNames(h: HealthResource, names: seq<Name>)
    reads h
  {
    && h.modificationRules == RemoveAllAsWritten(old(h.modificationRules), names)
    && h.healthEvents == old(h.healthEvents) + RemovedEvents(RemovedAllAsWritten(old(h.modificationRules), names))
    && h.blockDamage == old(h.blockDamage) && h.lastDamageCauser == old(h.lastDamageCauser)
    && h.lastLocationHitFrom == old(h.lastLocationHitFrom)
  }

  /** The inner loop of RemoveModificationFromActor: RemoveModifier on one component for each name in turn. */
  method RemoveNames(h: HealthResource, names: seq<Name>)
    modifies h
    ensures RemovedNames(h, names)
  {
    for n := 0 to |names|
      invariant RemovedNames(h, names[..n])
    {
      assert names[..n + 1] == names[..n] + [names[n]];
      RemoveNamesStep(old(h.modificationRules), names[..n], names[n], old(h.healthEvents),
                      h.modificationRules, h.healthEvents);
      h.RemoveModifier(names[n]);
    }
    assert names[..|names|] == names;
  }

  /** One more name: RemoveModifier's effect extends the removal of the names before it. */
  lemma RemoveNamesStep(rules0: seq<Modification>, done: seq<Name>, next: Name, events0: seq<HealthEvent>,
                        rules: seq<Modification>, events: seq<HealthEvent>)
    requires rules == RemoveAllAsWritten(rules0, done)
    requires events == events0 + RemovedEvents(RemovedAllAsWritten(rules0, done))
    ensures RemoveAsWritten(rules, next) == RemoveAllAsWritten(rules0, done + [next])
    ensures events + RemovedEvents(RemovedAsWritten(rules, next))
            == events0 + RemovedEvents(RemovedAllAsWritten(rules0, done + [next]))
  {
    RemoveAllAsWrittenSnoc(rules0, done, next);
    RemovedEventsAppend(RemovedAllAsWritten(rules0, done), RemovedAsWritten(rules, next));
  }

  /** RemoveModificationFromActor: each matching health component has each name removed, in name order. */
  method RemoveModificationFromActor(actor: Actor, names: seq<Name>, filter: seq<ResourceName>)
    requires DistinctComponents(actor)
    modifies HealthResourcesOf(actor, filter)
    ensures forall i :: 0 <= i < |actor.components| && Selected(actor, filter, i) ==>
              RemovedNames(actor.components[i].health, names)
  {
    if !actor.isValid {
      return;
    }
    var healthComps := GetActorHealthResources(actor, filter);
    DistinctHealths(actor, filter);
    RemoveNamesFromEach(healthComps, names);
    HealthResourcesOfMembers(actor, filter);
  }

  /** The outer loop of RemoveModificationFromActor: every component of the list has each name removed. */
  method RemoveNamesFromEach(healthComps: seq<HealthResource>, names: seq<Name>)
    requires Distinct(healthComps)
    modifies healthComps
    ensures forall j :: 0 <= j < |healthComps| ==> RemovedNames(healthComps[j], names)
  {
    for k := 0 to |healthComps|
      invariant forall j :: 0 <= j < k ==> RemovedNames(healthComps[j], names)
      invariant forall j :: k <= j < |healthComps| ==> Untouched(healthComps[j])
    {
      RemoveNames(healthComps[k], names);
    }
  }

  // ---------------------------------------------------------------------------
  // Helper lemmas

  /** No element is listed twice. */
  predicate Distinct<T(==)>(s: seq<T>)
  {
    forall i, j :: 0 <= i < j < |s| ==> s[i] != s[j]
  }

  /** Distinct components give distinct health components, and filtering keeps them distinct. */
  lemma DistinctHealths(actor: Actor, filter: seq<ResourceName>)
    requires DistinctComponents(actor)
    ensures Distinct(HealthResourcesOf(actor, filter))
  {
    if actor.isValid {
      DistinctHealthsOf(actor.components);
      DistinctNameFiltered(HealthsOf(actor.components), filter);
    }
  }

  lemma {:induction false} DistinctHealthsOf(cs: seq<Component>)
    requires Distinct(cs)
    ensures Distinct(HealthsOf(cs))
  {
    if cs != [] {
      assert Distinct(cs[1..]) by {
        forall i, j | 0 <= i < j < |cs[1..]| ensures cs[1..][i] != cs[1..][j] {
          assert cs[1..][i] == cs[i + 1] && cs[1..][j] == cs[j + 1];
        }
      }
      DistinctHealthsOf(cs[1..]);
      if cs[0].HealthComp? {
        assert HealthComp(cs[0].health) !in cs[1..] by {
          forall i | 0 <= i < |cs[1..]| ensures cs[1..][i] != cs[0] {
            assert cs[1..][i] == cs[i + 1];
          }
        }
        HealthsOfMembers(cs[1..]);
        DistinctCons(cs[0].health, HealthsOf(cs[1..]));
      }
    }
  }

  lemma {:induction false} DistinctNameFiltered(hs: seq<HealthResource>, filter: seq<ResourceName>)
    requires Distinct(hs)
    ensures Distinct(NameFiltered(hs, filter))
  {
    if hs != [] {
      assert Distinct(hs[1..]) by {
        forall i, j | 0 <= i < j < |hs[1..]| ensures hs[1..][i] != hs[1..][j] {
          assert hs[1..][i] == hs[i + 1] && hs[1..][j] == hs[j + 1];
        }
      }
      DistinctNameFiltered(hs[1..], filter);
      if hs[0].resource.name in filter {
        assert hs[0] !in hs[1..] by {
          forall i | 0 <= i < |hs[1..]| ensures hs[1..][i] != hs[0] {
            assert hs[1..][i] == hs[i + 1];
          }
        }
        NameFilteredMembers(hs[1..], filter);
        DistinctCons(hs[0], NameFiltered(hs[1..], filter));
      }
    }
  }

  lemma DistinctCons<T>(x: T, s: seq<T>)
    requires Distinct(s) && x !in s
    ensures Distinct([x] + s)
  {
    forall i, j | 0 <= i < j < |[x] + s| ensures ([x] + s)[i] != ([x] + s)[j] {
      assert ([x] + s)[j] == s[j - 1];
      if i > 0 {
        assert ([x] + s)[i] == s[i - 1];
      }
    }
  }
}
