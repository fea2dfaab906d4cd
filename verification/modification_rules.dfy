/**
 * What the rule-editing operations of a health resource do to its ordered
 * rule list: positional insertion, bulk insertion of a data asset's rules,
 * and removal by name as the removal loop is written (an index that advances
 * past the element that slid into the removed slot), beside the removal of
 * every rule with the name.
 */
module ModificationRules {
  import opened DamageModificationData
  import DamagePipeline

  // ---------------------------------------------------------------------------
  // Insertion

  /** GiveModifier: a non-negative index inserts there, shifting the rest right; a negative one appends. */
  function InsertModification(rules: seq<Modification>, m: Modification, insertAt: int): seq<Modification>
    requires insertAt <= |rules|
  {
    if insertAt >= 0 then rules[..insertAt] + [m] + rules[insertAt..] else rules + [m]
  }

  /** The new rule sits at the index (or last), the rules before it stay, the rules from it on move up by one. */
  lemma InsertModificationPlaces(rules: seq<Modification>, m: Modification, insertAt: int)
    requires insertAt <= |rules|
    ensures var r := InsertModification(rules, m, insertAt);
            var at := if insertAt >= 0 then insertAt else |rules|;
            && |r| == |rules| + 1
            && r[at] == m
            && (forall i :: 0 <= i < at ==> r[i] == rules[i])
            && (forall i :: at <= i < |rules| ==> r[i + 1] == rules[i])
  {
  }

  /** GiveModificationData's effect on the list: the asset's rules, in asset order, at the begin index or at the end. */
  function InsertModifications(rules: seq<Modification>, mods: seq<Modification>, beginInsertAt: int): seq<Modification>
    requires beginInsertAt <= |rules|
  {
    if beginInsertAt < 0 then rules + mods else rules[..beginInsertAt] + mods + rules[beginInsertAt..]
  }

  /**
   * Inserting the asset's rules one by one, the i-th at begin + i (or at the
   * end), is the same as placing the whole block there: this is what the
   * insertion loop of GiveModificationData relies on.
   */
  lemma InsertOneMore(rules: seq<Modification>, mods: seq<Modification>, i: nat, beginInsertAt: int)
    requires beginInsertAt <= |rules|
    requires i < |mods|
    ensures var bump := if beginInsertAt < 0 then -1 else beginInsertAt + i;
            var partial := InsertModifications(rules, mods[..i], beginInsertAt);
            bump <= |partial| &&
            InsertModification(partial, mods[i], bump) == InsertModifications(rules, mods[..i + 1], beginInsertAt)
  {
    assert mods[..i + 1] == mods[..i] + [mods[i]];
    if beginInsertAt >= 0 {
      var partial := InsertModifications(rules, mods[..i], beginInsertAt);
      var at := beginInsertAt + i;
      assert partial[..at] == rules[..beginInsertAt] + mods[..i];
      assert partial[at..] == rules[beginInsertAt..];
    }
  }

  /** Appending a data asset puts its rules after every rule already present, in asset order. */
  lemma AppendedRulesFollowExisting(rules: seq<Modification>, mods: seq<Modification>)
    ensures var r := InsertModifications(rules, mods, -1);
            && |r| == |rules| + |mods|
            && r[..|rules|] == rules
            && (forall i :: 0 <= i < |mods| ==> r[|rules| + i] == mods[i])
  {
  }

  // ---------------------------------------------------------------------------
  // Removal by name

  /**
   * RemoveModifier as written: after removing a match at some index, the
   * index still advances, so the rule that slid into that slot is kept
   * without being looked at.
   */
  function RemoveAsWritten(rules: seq<Modification>, name: Name): seq<Modification>
    decreases |rules|
  {
    if rules == [] then []
    else if rules[0].name == name then
      (if |rules| == 1 then [] else [rules[1]] + RemoveAsWritten(rules[2..], name))
    else [rules[0]] + RemoveAsWritten(rules[1..], name)
  }

  /** The rules RemoveModifier removes, in the order it removes them (one removed event each). */
  function RemovedAsWritten(rules: seq<Modification>, name: Name): seq<Modification>
    decreases |rules|
  {
    if rules == [] then []
    else if rules[0].name == name then
      [rules[0]] + (if |rules| == 1 then [] else RemovedAsWritten(rules[2..], name))
    else RemovedAsWritten(rules[1..], name)
  }

  /** Only rules with the name are removed. */
  lemma {:induction false} RemovedAsWrittenAreNamed(rules: seq<Modification>, name: Name)
    ensures forall i :: 0 <= i < |RemovedAsWritten(rules, name)| ==> RemovedAsWritten(rules, name)[i].name == name
    decreases |rules|
  {
    if rules != [] {
      if rules[0].name == name && |rules| > 1 {
        RemovedAsWrittenAreNamed(rules[2..], name);
      } else if rules[0].name != name {
        RemovedAsWrittenAreNamed(rules[1..], name);
      }
    }
  }

  /** Every rule with the name removed, the rest in order: what RemoveModifier's documentation promises. */
  function RemoveAllNamed(rules: seq<Modification>, name: Name): seq<Modification>
    decreases |rules|
  {
    if rules == [] then []
    else if rules[0].name == name then RemoveAllNamed(rules[1..], name)
    else [rules[0]] + RemoveAllNamed(rules[1..], name)
  }

  /** The rules with the name, in list order: what removing every match removes. */
  function NamedRules(rules: seq<Modification>, name: Name): seq<Modification>
    decreases |rules|
  {
    if rules == [] then []
    else (if rules[0].name == name then [rules[0]] else []) + NamedRules(rules[1..], name)
  }

  /** No rule with the name is left, every other rule is kept, and nothing new appears. */
  lemma {:induction false} RemoveAllNamedRemovesExactly(rules: seq<Modification>, name: Name)
    ensures var r := RemoveAllNamed(rules, name);
            && (forall i :: 0 <= i < |r| ==> r[i].name != name)
            && |r| <= |rules|
            && (forall m :: m in rules && m.name != name ==> m in r)
            && (forall m :: m in r ==> m in rules)
    decreases |rules|
  {
    if rules != [] {
      RemoveAllNamedRemovesExactly(rules[1..], name);
      assert forall m :: m in rules ==> m == rules[0] || m in rules[1..];
    }
  }

  lemma {:induction false} RemoveAllNamedAppend(a: seq<Modification>, b: seq<Modification>, name: Name)
    ensures RemoveAllNamed(a + b, name) == RemoveAllNamed(a, name) + RemoveAllNamed(b, name)
    decreases |a|
  {
    if a == [] {
      assert a + b == b;
    } else {
      assert (a + b)[1..] == a[1..] + b;
      RemoveAllNamedAppend(a[1..], b, name);
    }
  }

  /**
   * The as-written removal deletes only rules with the name, and the
   * survivors keep their order: dropping the name from its result gives
   * exactly the other rules of the input, in input order.
   */
  lemma {:induction false} RemoveAsWrittenOnlyDropsNamed(rules: seq<Modification>, name: Name)
    ensures RemoveAllNamed(RemoveAsWritten(rules, name), name) == RemoveAllNamed(rules, name)
    decreases |rules|
  {
    if rules == [] {
    } else if rules[0].name == name {
      if |rules| > 1 {
        var rest := rules[2..];
        RemoveAsWrittenOnlyDropsNamed(rest, name);
        RemoveAllNamedAppend([rules[1]], RemoveAsWritten(rest, name), name);
        assert rules[1..] == [rules[1]] + rest;
        RemoveAllNamedAppend([rules[1]], rest, name);
      }
    } else {
      RemoveAsWrittenOnlyDropsNamed(rules[1..], name);
    }
  }

  /** Every rule is either kept or removed: the two outputs partition the input. */
  lemma {:induction false} RemoveAsWrittenPartitions(rules: seq<Modification>, name: Name)
    ensures multiset(RemoveAsWritten(rules, name)) + multiset(RemovedAsWritten(rules, name)) == multiset(rules)
    decreases |rules|
  {
    if rules == [] {
    } else if rules[0].name == name && |rules| > 1 {
      RemoveAsWrittenPartitions(rules[2..], name);
      PartitionAfterMatch(rules, name);
    } else if rules[0].name != name {
      RemoveAsWrittenPartitions(rules[1..], name);
      PartitionAfterMiss(rules, name);
    }
  }

  lemma PartitionAfterMatch(rules: seq<Modification>, name: Name)
    requires |rules| > 1 && rules[0].name == name
    requires multiset(RemoveAsWritten(rules[2..], name)) + multiset(RemovedAsWritten(rules[2..], name))
             == multiset(rules[2..])
    ensures multiset(RemoveAsWritten(rules, name)) + multiset(RemovedAsWritten(rules, name)) == multiset(rules)
  {
    var rest := rules[2..];
    assert RemoveAsWritten(rules, name) == [rules[1]] + RemoveAsWritten(rest, name);
    assert RemovedAsWritten(rules, name) == [rules[0]] + RemovedAsWritten(rest, name);
    assert rules == [rules[0]] + [rules[1]] + rest;
    assert multiset(rules) == multiset{rules[0]} + multiset{rules[1]} + multiset(rest);
  }

  lemma PartitionAfterMiss(rules: seq<Modification>, name: Name)
    requires |rules| > 0 && rules[0].name != name
    requires multiset(RemoveAsWritten(rules[1..], name)) + multiset(RemovedAsWritten(rules[1..], name))
             == multiset(rules[1..])
    ensures multiset(RemoveAsWritten(rules, name)) + multiset(RemovedAsWritten(rules, name)) == multiset(rules)
  {
    var rest := rules[1..];
    MissKeepsHead(rules, name);
    assert multiset([rules[0]] + RemoveAsWritten(rest, name))
        == multiset{rules[0]} + multiset(RemoveAsWritten(rest, name));
    assert multiset(rules) == multiset{rules[0]} + multiset(rest) by {
      assert rules == [rules[0]] + rest;
    }
  }

  /** A first rule without the name is kept in front, and removal goes on from the second rule. */
  lemma MissKeepsHead(rules: seq<Modification>, name: Name)
    requires |rules| > 0 && rules[0].name != name
    ensures RemoveAsWritten(rules, name) == [rules[0]] + RemoveAsWritten(rules[1..], name)
    ensures RemovedAsWritten(rules, name) == RemovedAsWritten(rules[1..], name)
  {
  }

  /** No two rules with the name stand next to each other. */
  predicate NoAdjacentMatches(rules: seq<Modification>, name: Name)
  {
    forall i :: 0 <= i < |rules| - 1 ==> !(rules[i].name == name && rules[i + 1].name == name)
  }

  /** When no two matches are adjacent, the as-written removal does remove every match. */
  lemma {:induction false} RemoveAsWrittenWithoutAdjacentMatches(rules: seq<Modification>, name: Name)
    requires NoAdjacentMatches(rules, name)
    ensures RemoveAsWritten(rules, name) == RemoveAllNamed(rules, name)
    decreases |rules|
  {
    if rules == [] {
    } else if rules[0].name == name {
      if |rules| > 1 {
        assert rules[1].name != name;
        assert NoAdjacentMatches(rules[2..], name) by {
          forall i | 0 <= i < |rules[2..]| - 1
            ensures !(rules[2..][i].name == name && rules[2..][i + 1].name == name)
          {
            assert rules[2..][i] == rules[i + 2] && rules[2..][i + 1] == rules[i + 3];
          }
        }
        RemoveAsWrittenWithoutAdjacentMatches(rules[2..], name);
        assert rules[1..][1..] == rules[2..];
      }
    } else {
      assert NoAdjacentMatches(rules[1..], name) by {
        forall i | 0 <= i < |rules[1..]| - 1
          ensures !(rules[1..][i].name == name && rules[1..][i + 1].name == name)
        {
          assert rules[1..][i] == rules[i + 1] && rules[1..][i + 1] == rules[i + 2];
        }
      }
      RemoveAsWrittenWithoutAdjacentMatches(rules[1..], name);
    }
  }

  /**
   * Two adjacent rules with the name: the as-written removal keeps the
   * second, so the component still reports the name afterwards.
   */
  lemma AdjacentMatchSurvives(m: Modification)
    ensures RemoveAsWritten([m, m], m.name) == [m]
    ensures DamagePipeline.HasModifications(RemoveAsWritten([m, m], m.name), [m.name])
    ensures RemoveAllNamed([m, m], m.name) == []
  {
    assert [m, m][1] == m;
    assert [m, m][2..] == [];
    assert [m, m][1..] == [m];
    assert [m][1..] == [];
    assert RemoveAllNamed([m], m.name) == [];
  }

  // ---------------------------------------------------------------------------
  // Several names, several assets (the batch helpers of the function library)

  /** RemoveModifier applied for each name in turn. */
  function RemoveAllAsWritten(rules: seq<Modification>, names: seq<Name>): seq<Modification>
    decreases |names|
  {
    if names == [] then rules
    else RemoveAllAsWritten(RemoveAsWritten(rules, names[0]), names[1..])
  }

  /** The removed rules, in the order RemoveModifier removes them, one name after another. */
  function RemovedAllAsWritten(rules: seq<Modification>, names: seq<Name>): seq<Modification>
    decreases |names|
  {
    if names == [] then []
    else RemovedAsWritten(rules, names[0]) + RemovedAllAsWritten(RemoveAsWritten(rules, names[0]), names[1..])
  }

  lemma {:induction false} RemoveAllAsWrittenSnoc(rules: seq<Modification>, names: seq<Name>, n: Name)
    ensures RemoveAllAsWritten(rules, names + [n]) == RemoveAsWritten(RemoveAllAsWritten(rules, names), n)
    ensures RemovedAllAsWritten(rules, names + [n])
         == RemovedAllAsWritten(rules, names) + RemovedAsWritten(RemoveAllAsWritten(rules, names), n)
    decreases |names|
  {
    if names == [] {
      assert names + [n] == [n];
    } else {
      assert (names + [n])[1..] == names[1..] + [n];
      RemoveAllAsWrittenSnoc(RemoveAsWritten(rules, names[0]), names[1..], n);
    }
  }
}
