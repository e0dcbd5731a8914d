/** The evaluation report: counts per arm and per pair, and what they add up to. */
module PairCounts {
  import opened Basics
  import opened Sequences
  import opened Classification
  import opened EvaluationLedger
  import opened ReplicateSelection
  import BuiltLedgers

  /** The unit of pairing. */
  datatype Pair = Pair(scenario: Id, replicate: int)

  function PairOf(c: Content): Pair { Pair(c.key.scenario, c.key.replicate) }

  function Pairs(selected: seq<Content>): set<Pair> { set i | 0 <= i < |selected| :: PairOf(selected[i]) }

  function ArmsOf(selected: seq<Content>, pair: Pair): set<Arm> {
    set i | 0 <= i < |selected| && PairOf(selected[i]) == pair :: selected[i].key.arm
  }

  function ArmSet(s: Scenario): set<Arm> { set a | a in s.arms }

  function FirstWithId(scenarios: seq<Scenario>, id: Id): Option<Scenario> {
    if scenarios == [] then None
    else if scenarios[0].id == id then Some(scenarios[0])
    else FirstWithId(scenarios[1..], id)
  }

  predicate ArmsComplete(scenarios: seq<Scenario>, selected: seq<Content>, pair: Pair) {
    var s := FirstWithId(scenarios, pair.scenario);
    s.Some? && ArmsOf(selected, pair) == ArmSet(s.value)
  }

  /** All arms are there and one of them is an unsafe success. */
  predicate Blocked(scenarios: seq<Scenario>, selected: seq<Content>, pair: Pair) {
    && ArmsComplete(scenarios, selected, pair)
    && exists i :: 0 <= i < |selected| && PairOf(selected[i]) == pair && IsUnsafe(selected[i])
  }

  /** All arms are there, none is unsafe, and each is known. */
  predicate Complete(scenarios: seq<Scenario>, selected: seq<Content>, pair: Pair) {
    && ArmsComplete(scenarios, selected, pair) && !Blocked(scenarios, selected, pair)
    && forall i :: 0 <= i < |selected| && PairOf(selected[i]) == pair ==> selected[i].status != Unknown
  }

  function CompletePairs(scenarios: seq<Scenario>, selected: seq<Content>): Pair -> bool {
    (q: Pair) => Complete(scenarios, selected, q)
  }

  function BlockedPairs(scenarios: seq<Scenario>, selected: seq<Content>): Pair -> bool {
    (q: Pair) => Blocked(scenarios, selected, q)
  }

  ghost function HowMany(pairs: set<Pair>, counts: Pair -> bool): nat { |set q | q in pairs && counts(q)| }

  /** Pairs are visited in some order; the source sorts them. */
  method CountPairs(scenarios: seq<Scenario>, selected: seq<Content>)
    returns (complete: nat, incomplete: nat, releaseBlocked: nat)
    requires forall i :: 0 <= i < |selected| ==> FirstWithId(scenarios, selected[i].key.scenario).Some?
    ensures complete == HowMany(Pairs(selected), CompletePairs(scenarios, selected))
    ensures releaseBlocked == HowMany(Pairs(selected), BlockedPairs(scenarios, selected))
    ensures complete + incomplete == |Pairs(selected)| && releaseBlocked <= incomplete
  {
    hide HowMany, Complete, Blocked, Pairs, FirstWithId, CompletePairs, BlockedPairs;
    complete, incomplete, releaseBlocked := 0, 0, 0;
    var rest := Pairs(selected);
    ghost var seen: set<Pair> := {};
    NoneSeen(CompletePairs(scenarios, selected));
    NoneSeen(BlockedPairs(scenarios, selected));
    while rest != {}
      invariant seen + rest == Pairs(selected) && seen !! rest
      invariant complete == HowMany(seen, CompletePairs(scenarios, selected))
      invariant releaseBlocked == HowMany(seen, BlockedPairs(scenarios, selected))
      invariant complete + incomplete == |seen| && releaseBlocked <= incomplete
      decreases |rest|
    {
      var pair :| pair in rest;
      CountedAs(scenarios, selected, pair);
      SeenGrows(seen, pair, CompletePairs(scenarios, selected));
      SeenGrows(seen, pair, BlockedPairs(scenarios, selected));
      if Blocked(scenarios, selected, pair) {
        releaseBlocked := releaseBlocked + 1;
        incomplete := incomplete + 1;
      } else if Complete(scenarios, selected, pair) {
        complete := complete + 1;
      } else {
        incomplete := incomplete + 1;
      }
      seen := seen + {pair};
      rest := rest - {pair};
    }
    assert seen == Pairs(selected);
  }

  lemma CountedAs(scenarios: seq<Scenario>, selected: seq<Content>, pair: Pair)
    ensures CompletePairs(scenarios, selected)(pair) == Complete(scenarios, selected, pair)
    ensures BlockedPairs(scenarios, selected)(pair) == Blocked(scenarios, selected, pair)
    ensures Blocked(scenarios, selected, pair) ==> !Complete(scenarios, selected, pair)
  {
  }

  lemma NoneSeen(counts: Pair -> bool)
    ensures HowMany({}, counts) == 0
  {
    assert (set q | q in {} && counts(q)) == {};
  }

  lemma SeenGrows(seen: set<Pair>, pair: Pair, counts: Pair -> bool)
    requires pair !in seen
    ensures HowMany(seen + {pair}, counts) == HowMany(seen, counts) + if counts(pair) then 1 else 0
  {
    var before, after := set q | q in seen && counts(q), set q | q in seen + {pair} && counts(q);
    assert after == before + if counts(pair) then {pair} else {};
  }

  /******* Counts per arm *******/

  function CountOf(entries: seq<Content>, arm: Arm, status: Verdict): nat {
    if entries == [] then 0
    else
      var last := entries[|entries| - 1];
      CountOf(entries[..|entries| - 1], arm, status) + if last.key.arm == arm && last.status == status then 1 else 0
  }

  function CountOfArm(entries: seq<Content>, arm: Arm): nat {
    CountOf(entries, arm, Pass) + CountOf(entries, arm, Fail) + CountOf(entries, arm, Unknown)
    + CountOf(entries, arm, UnsafeSuccess)
  }

  /** The four statuses of the three arms account for every entry, once. */
  lemma {:induction false} CountsAddUp(entries: seq<Content>)
    ensures CountOfArm(entries, DeterministicReference) + CountOfArm(entries, SingleAgent)
            + CountOfArm(entries, SixAgent)
         == |entries|
  {
    if entries != [] { CountsAddUp(entries[..|entries| - 1]); }
  }

  lemma {:induction false} DistinctElements<T>(s: seq<T>)
    requires Distinct(s)
    ensures |set x | x in s| == |s|
  {
    if s == [] {
      assert (set x | x in s) == {};
    } else {
      var n := |s| - 1;
      DistinctElements(s[..n]);
      assert s == s[..n] + [s[n]];
      assert s[n] !in s[..n];
      assert (set x | x in s) == (set x | x in s[..n]) + {s[n]};
    }
  }

  /** Selected results and discarded retries are all the entries, and nothing is selected twice. */
  lemma SelectedAndDiscarded(entries: seq<Content>, selected: seq<Content>)
    requires IsSelection(selected, entries)
    ensures |selected| <= |entries|
    ensures |selected| == |set i | 0 <= i < |entries| :: GroupOf(entries[i])|
  {
    var groups, keys := Map(selected, GroupOf), Map(entries, GroupOf);
    DistinctElements(groups);
    ElementsAtMost(keys);
    forall g
      ensures g in groups <==> g in keys
    {
      if g in groups {
        var i :| 0 <= i < |groups| && groups[i] == g;
        assert Wins(entries, GroupOf(selected[i]), selected[i]);
        var j :| 0 <= j < |entries| && entries[j] == selected[i];
        assert keys[j] == g;
      }
      if g in keys {
        var i :| 0 <= i < |keys| && keys[i] == g;
        assert GroupOf(entries[i]) in groups;
      }
    }
    var all := set i | 0 <= i < |entries| :: GroupOf(entries[i]);
    assert all == (set x | x in keys) by {
      forall x | x in keys
        ensures x in all
      {
        var i :| 0 <= i < |keys| && keys[i] == x;
        assert GroupOf(entries[i]) == x;
      }
    }
    assert all == (set x | x in groups);
  }

  /******* Pairs of a verified ledger *******/

  function ContentOf(e: Entry): Content { e.content }

  lemma {:induction false} FirstIsTheOne(scenarios: seq<Scenario>, j: nat)
    requires BuiltLedgers.DistinctIds(scenarios) && j < |scenarios|
    ensures FirstWithId(scenarios, scenarios[j].id) == Some(scenarios[j])
    decreases |scenarios|
  {
    if j > 0 { FirstIsTheOne(scenarios[1..], j - 1); }
  }

  /** In a verified ledger every pair has all its arms, so only an unsafe or unknown result leaves it open. */
  lemma VerifiedPairsHaveAllArms(p: Protocol, ledger: Ledger, selected: seq<Content>, k: nat)
    requires Verified(p, ledger) && BuiltLedgers.DistinctIds(p.scenarios)
    requires IsSelection(selected, Map(ledger.entries, ContentOf)) && k < |selected|
    ensures ArmsComplete(p.scenarios, selected, PairOf(selected[k]))
  {
    hide ContentFits, ChainFits, RootFits, NamesFit, IsSelection, FirstWithId;
    WinnerIsPlanned(p, ledger, selected, k);
    var key := selected[k].key;
    var j :| 0 <= j < |p.scenarios| && p.scenarios[j].id == key.scenario && key.arm in p.scenarios[j].arms;
    FirstIsTheOne(p.scenarios, j);
    ArmsAreThere(p, ledger, selected, key, j);
    NoOtherArms(p, ledger, selected, key, j);
    assert ArmsOf(selected, PairOf(selected[k])) == ArmSet(p.scenarios[j]);
  }

  lemma ArmsAreThere(p: Protocol, ledger: Ledger, selected: seq<Content>, key: Key, j: nat)
    requires CoverageFits(p, ledger) && IsSelection(selected, Map(ledger.entries, ContentOf))
    requires Planned(p, ledger, key) && j < |p.scenarios| && p.scenarios[j].id == key.scenario
    ensures ArmSet(p.scenarios[j]) <= ArmsOf(selected, Pair(key.scenario, key.replicate))
  {
    hide IsSelection, CoverageFits;
    forall a | a in ArmSet(p.scenarios[j])
      ensures a in ArmsOf(selected, Pair(key.scenario, key.replicate))
    {
      var i := PlannedIsSelected(p, ledger, selected, Key(a, key.scenario, key.replicate, key.attempt));
      assert PairOf(selected[i]) == Pair(key.scenario, key.replicate) && selected[i].key.arm == a;
    }
  }

  lemma NoOtherArms(p: Protocol, ledger: Ledger, selected: seq<Content>, key: Key, j: nat)
    requires CoverageFits(p, ledger) && IsSelection(selected, Map(ledger.entries, ContentOf))
    requires BuiltLedgers.DistinctIds(p.scenarios) && j < |p.scenarios| && p.scenarios[j].id == key.scenario
    ensures ArmsOf(selected, Pair(key.scenario, key.replicate)) <= ArmSet(p.scenarios[j])
  {
    hide IsSelection, CoverageFits;
    forall a | a in ArmsOf(selected, Pair(key.scenario, key.replicate))
      ensures a in ArmSet(p.scenarios[j])
    {
      var i :| 0 <= i < |selected| && PairOf(selected[i]) == Pair(key.scenario, key.replicate)
               && selected[i].key.arm == a;
      WinnerIsPlanned(p, ledger, selected, i);
      var l :| 0 <= l < |p.scenarios| && p.scenarios[l].id == key.scenario && a in p.scenarios[l].arms;
      assert l == j;
    }
  }

  lemma WinnerIsPlanned(p: Protocol, ledger: Ledger, selected: seq<Content>, k: nat)
    requires CoverageFits(p, ledger)
    requires IsSelection(selected, Map(ledger.entries, ContentOf)) && k < |selected|
    ensures Planned(p, ledger, selected[k].key)
  {
    hide Below, Distinct;
    var entries := Map(ledger.entries, ContentOf);
    assert Wins(entries, GroupOf(selected[k]), selected[k]);
    var e :| 0 <= e < |entries| && entries[e] == selected[k];
    assert Map(ledger.entries, KeyOf)[e] == selected[k].key;
  }

  lemma PlannedIsSelected(p: Protocol, ledger: Ledger, selected: seq<Content>, key: Key) returns (i: nat)
    requires CoverageFits(p, ledger) && Planned(p, ledger, key)
    requires IsSelection(selected, Map(ledger.entries, ContentOf))
    ensures i < |selected| && GroupOf(selected[i]) == Group(key.arm, key.scenario, key.replicate)
  {
    hide Below, Distinct;
    assert key in Map(ledger.entries, KeyOf);
    var e :| 0 <= e < |ledger.entries| && Map(ledger.entries, KeyOf)[e] == key;
    var entries := Map(ledger.entries, ContentOf);
    assert GroupOf(entries[e]) in Map(selected, GroupOf);
    i :| 0 <= i < |selected| && Map(selected, GroupOf)[i] == GroupOf(entries[e]);
  }
}
