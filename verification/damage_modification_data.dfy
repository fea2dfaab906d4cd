/**
 * The data side of damage modification: the damage channels, the four kinds
 * of modification, the rule record with its default values, and the data
 * asset that bundles an ordered list of rules.
 */
module DamageModificationData {

  /** An engine FName: an identifier compared by value. The empty name is FName(). */
  type Name = string

  /** A UDamageType subclass, identified by its class name. */
  type DamageClass = string

  const NoName: Name := ""

  /** How the damage was delivered; AllChannels only appears on rules. */
  datatype DamageChannel = AllChannels | PointDamage | RadialDamage | GenericDamage

  /** What an applying rule does to the running damage value. */
  datatype ModificationType = AddDamage | MultiplyDamage | OverrideDamage | ModifyFromDamageType

  /** One incoming-damage modification rule (FIncomingDamageModification). */
  datatype Modification = Modification(
    name: Name,
    channel: DamageChannel,
    kind: ModificationType,
    magnitude: real,
    whitelistedBoneNames: seq<Name>,
    minimumRange: real,
    maximumRange: real,
    whitelistedDamageTypes: seq<DamageClass>,
    whitelistChildDamageTypes: bool)

  /** The rule built by the record's default constructor. */
  function DefaultModification(): Modification
  {
    Modification(NoName, AllChannels, MultiplyDamage, 1.0, [], 0.0, 0.0, [], false)
  }

  /** A data asset holding an ordered list of rules (UDamageModificationData). */
  datatype ModificationData = ModificationData(description: string, modifications: seq<Modification>)

  /** The names of the given rules, in rule order. */
  function NamesOf(mods: seq<Modification>): (names: seq<Name>)
    ensures |names| == |mods|
    ensures forall i :: 0 <= i < |mods| ==> names[i] == mods[i].name
  {
    if mods == [] then [] else [mods[0].name] + NamesOf(mods[1..])
  }

  /** GetAllModificationNames: one name per rule of the asset, duplicates and empty names kept. */
  function GetAllModificationNames(data: ModificationData): (names: seq<Name>)
    ensures |names| == |data.modifications|
    ensures forall i :: 0 <= i < |names| ==> names[i] == data.modifications[i].name
  {
    NamesOf(data.modifications)
  }

  /** Names are not deduplicated: two rules sharing a name give that name twice. */
  lemma {:induction false} AllModificationNamesKeepsDuplicates(data: ModificationData, i: nat, j: nat)
    requires i < j < |data.modifications|
    requires data.modifications[i].name == data.modifications[j].name
    ensures GetAllModificationNames(data)[i] == GetAllModificationNames(data)[j]
    ensures multiset(GetAllModificationNames(data))[data.modifications[i].name] >= 2
  {
    var names := GetAllModificationNames(data);
    var n := data.modifications[i].name;
    assert names == names[..j] + [names[j]] + names[j + 1..];
    assert names[..j] == names[..i] + [names[i]] + names[i + 1..j];
    assert multiset(names) == multiset(names[..i]) + multiset{n} + multiset(names[i + 1..j])
                              + multiset{n} + multiset(names[j + 1..]);
  }
}
