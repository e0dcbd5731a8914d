/** Ledgers from the builder, put before the verifier. */
module BuiltLedgers {
  import opened Basics
  import opened Sequences
  import opened Classification
  import opened EvaluationLedger

  /******* The plan, key by key *******/

  ghost predicate InScenarios(scenarios: seq<Scenario>, k: Key) {
    exists i :: 0 <= i < |scenarios| && scenarios[i].id == k.scenario && k.arm in scenarios[i].arms
  }

  lemma ArmKeysAre(s: Scenario, replicate: int, attempt: int, k: Key)
    ensures k in ArmKeys(s, replicate, attempt)
            <==> k.replicate == replicate && k.attempt == attempt && s.id == k.scenario && k.arm in s.arms
    ensures Distinct(ArmKeys(s, replicate, attempt))
  {
    var keys := ArmKeys(s, replicate, attempt);
    if k.replicate == replicate && k.attempt == attempt && s.id == k.scenario && k.arm in s.arms {
      assert k == Key(k.arm, s.id, replicate, attempt);
      match k.arm
      case DeterministicReference => assert keys[0] == k;
      case SingleAgent => assert keys[if DeterministicReference in s.arms then 1 else 0] == k;
      case SixAgent => assert keys[|keys| - 1] == k;
    }
  }

  lemma {:induction false} ScenarioKeysAre(scenarios: seq<Scenario>, replicate: int, attempt: int, k: Key)
    ensures k in ScenarioKeys(scenarios, replicate, attempt)
            <==> k.replicate == replicate && k.attempt == attempt && InScenarios(scenarios, k)
  {
    hide ArmKeys;
    if scenarios != [] {
      var n := |scenarios| - 1;
      ScenarioKeysAre(scenarios[..n], replicate, attempt, k);
      ArmKeysAre(scenarios[n], replicate, attempt, k);
      assert scenarios == scenarios[..n] + [scenarios[n]];
      assert InScenarios(scenarios, k) <==>
        InScenarios(scenarios[..n], k) || (scenarios[n].id == k.scenario && k.arm in scenarios[n].arms) by {
        if i :| 0 <= i < n && scenarios[..n][i].id == k.scenario && k.arm in scenarios[..n][i].arms {
          assert scenarios[i].id == k.scenario && k.arm in scenarios[i].arms;
        }
        if i :| 0 <= i < n && scenarios[i].id == k.scenario && k.arm in scenarios[i].arms {
          assert scenarios[..n][i].id == k.scenario;
        }
      }
    }
  }

  lemma {:induction false} AttemptKeysAre(scenarios: seq<Scenario>, replicate: int, attempts: seq<int>, k: Key)
    ensures k in AttemptKeys(scenarios, replicate, attempts)
            <==> k.replicate == replicate && k.attempt in attempts && InScenarios(scenarios, k)
  {
    hide ScenarioKeys, InScenarios;
    if attempts != [] {
      var n := |attempts| - 1;
      AttemptKeysAre(scenarios, replicate, attempts[..n], k);
      ScenarioKeysAre(scenarios, replicate, attempts[n], k);
      assert attempts == attempts[..n] + [attempts[n]];
    }
  }

  lemma {:induction false} PlanKeysAre(scenarios: seq<Scenario>, replicates: seq<int>, attempts: seq<int>, k: Key)
    ensures k in PlanKeys(scenarios, replicates, attempts)
            <==> k.replicate in replicates && k.attempt in attempts && InScenarios(scenarios, k)
  {
    hide AttemptKeys, InScenarios;
    if replicates != [] {
      var n := |replicates| - 1;
      PlanKeysAre(scenarios, replicates[..n], attempts, k);
      AttemptKeysAre(scenarios, replicates[n], attempts, k);
      assert replicates == replicates[..n] + [replicates[n]];
    }
  }

  ghost predicate DistinctIds(scenarios: seq<Scenario>) {
    forall i, j :: 0 <= i < j < |scenarios| ==> scenarios[i].id != scenarios[j].id
  }

  lemma {:induction false} ScenarioKeysDiffer(scenarios: seq<Scenario>, replicate: int, attempt: int)
    requires DistinctIds(scenarios)
    ensures Distinct(ScenarioKeys(scenarios, replicate, attempt))
  {
    hide ArmKeys;
    if scenarios != [] {
      var n := |scenarios| - 1;
      var before, last := ScenarioKeys(scenarios[..n], replicate, attempt), ArmKeys(scenarios[n], replicate, attempt);
      ScenarioKeysDiffer(scenarios[..n], replicate, attempt);
      ArmKeysAre(scenarios[n], replicate, attempt, Key(DeterministicReference, scenarios[n].id, replicate, attempt));
      forall i, j | 0 <= i < |before| && 0 <= j < |last|
        ensures before[i] != last[j]
      {
        ScenarioKeysAre(scenarios[..n], replicate, attempt, before[i]);
        ArmKeysAre(scenarios[n], replicate, attempt, last[j]);
      }
      DistinctJoin(before, last);
    }
  }

  lemma {:induction false} AttemptKeysDiffer(scenarios: seq<Scenario>, replicate: int, attempts: seq<int>)
    requires DistinctIds(scenarios) && Distinct(attempts)
    ensures Distinct(AttemptKeys(scenarios, replicate, attempts))
  {
    hide ScenarioKeys, InScenarios;
    if attempts != [] {
      var n := |attempts| - 1;
      var before, last := AttemptKeys(scenarios, replicate, attempts[..n]),
          ScenarioKeys(scenarios, replicate, attempts[n]);
      AttemptKeysDiffer(scenarios, replicate, attempts[..n]);
      ScenarioKeysDiffer(scenarios, replicate, attempts[n]);
      forall i, j | 0 <= i < |before| && 0 <= j < |last|
        ensures before[i] != last[j]
      {
        AttemptKeysAre(scenarios, replicate, attempts[..n], before[i]);
        ScenarioKeysAre(scenarios, replicate, attempts[n], last[j]);
      }
      DistinctJoin(before, last);
    }
  }

  lemma {:induction false} PlanKeysDiffer(scenarios: seq<Scenario>, replicates: seq<int>, attempts: seq<int>)
    requires DistinctIds(scenarios) && Distinct(replicates) && Distinct(attempts)
    ensures Distinct(PlanKeys(scenarios, replicates, attempts))
  {
    hide AttemptKeys, InScenarios;
    if replicates != [] {
      var n := |replicates| - 1;
      var before, last := PlanKeys(scenarios, replicates[..n], attempts),
          AttemptKeys(scenarios, replicates[n], attempts);
      PlanKeysDiffer(scenarios, replicates[..n], attempts);
      AttemptKeysDiffer(scenarios, replicates[n], attempts);
      forall i, j | 0 <= i < |before| && 0 <= j < |last|
        ensures before[i] != last[j]
      {
        PlanKeysAre(scenarios, replicates[..n], attempts, before[i]);
        AttemptKeysAre(scenarios, replicates[n], attempts, last[j]);
      }
      DistinctJoin(before, last);
    }
  }

  /******* The chain *******/

  lemma {:induction false} ChainedFits(p: Protocol, drafts: seq<Content>)
    ensures var entries := Chained(p, drafts);
            && ChainFits(p, entries)
            && forall i :: 0 <= i < |drafts| ==>
                 entries[i].content == Placed(drafts[i], i + 1, PreviousHash(p, entries, i))
  {
    if drafts != [] {
      hide Placed;
      var n := |drafts| - 1;
      var before, entries := Chained(p, drafts[..n]), Chained(p, drafts);
      ChainedFits(p, drafts[..n]);
      forall i | 0 <= i <= n
        ensures LinkFits(p, entries, i)
        ensures entries[i].content == Placed(drafts[i], i + 1, PreviousHash(p, entries, i))
      {
        assert PreviousHash(p, entries, i) == PreviousHash(p, before, i);
        if i < n {
          assert LinkFits(p, before, i) && entries[i] == before[i] && drafts[..n][i] == drafts[i];
        } else {
          PlacedIsPlaced(drafts[n], n + 1, PreviousHash(p, before, n));
        }
      }
    }
  }

  lemma PlacedIsPlaced(draft: Content, index: int, previous: Digest)
    ensures var c := Placed(draft, index, previous); c.index == index && c.previous == previous
  {
  }

  /******* The verdict *******/

  /** Identifiers tell their keys apart, and scenarios have their own. */
  ghost predicate ProperProtocol(p: Protocol) {
    && DistinctIds(p.scenarios)
    && (forall k, l :: p.entryId(k) == p.entryId(l) ==> k == l)
    && (forall e, k, f, l :: p.runId(e, k) == p.runId(f, l) ==> k == l)
  }

  ghost predicate ProperBuild(p: Protocol, b: Build) {
    b.commit == p.sources.commit && forall k :: b.started(k) <= b.finished(k)
  }

  lemma {:induction false} FindIsTheOne(scenarios: seq<Scenario>, j: nat)
    requires DistinctIds(scenarios) && j < |scenarios|
    ensures Find(scenarios, scenarios[j].id) == Some(scenarios[j])
    decreases |scenarios|
  {
    var n := |scenarios| - 1;
    if j < n { FindIsTheOne(scenarios[..n], j); }
  }

  /** The one contract a planned key is held to. */
  function ContractOf(p: Protocol, k: Key): Option<Contract> {
    var s := Find(p.scenarios, k.scenario);
    if s.None? then None else Some(s.value.expected)
  }

  lemma DraftIsAccepted(p: Protocol, b: Build, ledger: Ledger, k: Key, j: nat, c: Content)
    requires ProperProtocol(p) && ProperBuild(p, b) && ledger.sources == p.sources
    requires j < |p.scenarios| && p.scenarios[j].id == k.scenario && k.arm in p.scenarios[j].arms
    requires c == Placed(Draft(p, b, p.scenarios[j].expected, k), c.index, c.previous)
    ensures ContractOf(p, k) == Some(p.scenarios[j].expected)
    ensures ContentFits(p, ledger, c)
            <==> (k.arm == DeterministicReference ==>
                    Classify(p.scenarios[j].expected, b.observe(k))
                    == ContractStatus(b.observe(k), p.scenarios[j].expected))
  {
    hide Classify, ContractStatus, Find;
    FindIsTheOne(p.scenarios, j);
  }

  ghost predicate IsBuilt(p: Protocol, b: Build, ledger: Ledger, drafts: seq<Content>) {
    && DraftsOf(p, b, drafts, PlanKeys(p.scenarios, ledger.replicates, ledger.attempts))
    && ledger.entries == Chained(p, drafts) && ledger.sources == p.sources.(commit := b.commit)
    && ledger.root == p.rootDigest(ledger.entries, ledger.replicates, ledger.attempts, ledger.sources)
  }

  /** Each entry is the draft of its key. */
  lemma EntryIsADraft(p: Protocol, b: Build, ledger: Ledger, drafts: seq<Content>, i: nat) returns (j: nat)
    requires IsBuilt(p, b, ledger, drafts)
    requires i < |PlanKeys(p.scenarios, ledger.replicates, ledger.attempts)|
    ensures i < |ledger.entries|
    ensures var k, c := PlanKeys(p.scenarios, ledger.replicates, ledger.attempts)[i], ledger.entries[i].content;
            && j < |p.scenarios| && p.scenarios[j].id == k.scenario && k.arm in p.scenarios[j].arms
            && c == Placed(Draft(p, b, p.scenarios[j].expected, k), c.index, c.previous)
            && c.key == k
  {
    hide Draft, PlanKeys, Chained, LinkFits;
    ChainedFits(p, drafts);
    var k, c := PlanKeys(p.scenarios, ledger.replicates, ledger.attempts)[i], ledger.entries[i].content;
    j :| 0 <= j < |p.scenarios| && p.scenarios[j].id == k.scenario
         && k.arm in p.scenarios[j].arms && drafts[i] == Draft(p, b, p.scenarios[j].expected, k);
    DraftHasItsKey(p, b, p.scenarios[j].expected, k);
    PlacedIsPlaced(drafts[i], i + 1, PreviousHash(p, ledger.entries, i));
  }

  lemma DraftHasItsKey(p: Protocol, b: Build, expected: Contract, k: Key)
    ensures Draft(p, b, expected, k).key == k
  {
  }

  lemma BuiltNamesFit(p: Protocol, b: Build, ledger: Ledger, drafts: seq<Content>)
    requires ProperProtocol(p) && IsBuilt(p, b, ledger, drafts)
    requires Distinct(ledger.replicates) && Distinct(ledger.attempts)
    ensures NamesFit(ledger.entries)
    ensures Map(ledger.entries, KeyOf) == PlanKeys(p.scenarios, ledger.replicates, ledger.attempts)
  {
    hide PlanKeys, Chained, DraftsOf, Classify;
    var keys := PlanKeys(p.scenarios, ledger.replicates, ledger.attempts);
    PlanKeysDiffer(p.scenarios, ledger.replicates, ledger.attempts);
    assert |ledger.entries| == |keys| by { SameLength(p, b, ledger, drafts); }
    forall i | 0 <= i < |keys|
      ensures ledger.entries[i].content.key == keys[i] && ledger.entries[i].content.entryId == p.entryId(keys[i])
      ensures ledger.entries[i].content.runId == p.runId(keys[i].arm == DeterministicReference, keys[i])
    {
      var j := EntryIsADraft(p, b, ledger, drafts, i);
    }
    assert Map(ledger.entries, KeyOf) == keys;
    forall i, j | 0 <= i < j < |keys|
      ensures Map(ledger.entries, EntryIdOf)[i] != Map(ledger.entries, EntryIdOf)[j]
      ensures Map(ledger.entries, RunIdOf)[i] != Map(ledger.entries, RunIdOf)[j]
    {
      assert keys[i] != keys[j];
    }
  }

  lemma SameLength(p: Protocol, b: Build, ledger: Ledger, drafts: seq<Content>)
    requires IsBuilt(p, b, ledger, drafts)
    ensures |ledger.entries| == |PlanKeys(p.scenarios, ledger.replicates, ledger.attempts)|
  {
  }

  /**
   A ledger straight from the builder is verified exactly when the two classifiers agree on
   every run of the deterministic arm.
   */
  lemma BuiltLedgerIsVerifiedIff(p: Protocol, b: Build, ledger: Ledger, drafts: seq<Content>)
    requires ProperProtocol(p) && ProperBuild(p, b) && IsBuilt(p, b, ledger, drafts)
    requires Distinct(ledger.replicates) && Distinct(ledger.attempts)
    ensures Verified(p, ledger)
            <==> forall k: Key :: Planned(p, ledger, k) && k.arm == DeterministicReference && ContractOf(p, k).Some? ==>
                   Classify(ContractOf(p, k).value, b.observe(k))
                   == ContractStatus(b.observe(k), ContractOf(p, k).value)
  {
    hide Classify, ContractStatus, PlanKeys, Chained, DraftsOf, ContentFits, LinkFits, ContractOf, Draft;
    var keys := PlanKeys(p.scenarios, ledger.replicates, ledger.attempts);
    ChainedFits(p, drafts);
    BuiltNamesFit(p, b, ledger, drafts);
    forall k: Key
      ensures k in keys <==> Planned(p, ledger, k)
    {
      PlanKeysAre(p.scenarios, ledger.replicates, ledger.attempts, k);
    }
    forall i | 0 <= i < |keys|
      ensures ContractOf(p, keys[i]).Some?
      ensures ContentFits(p, ledger, ledger.entries[i].content)
              <==> (keys[i].arm == DeterministicReference ==>
                      Classify(ContractOf(p, keys[i]).value, b.observe(keys[i]))
                      == ContractStatus(b.observe(keys[i]), ContractOf(p, keys[i]).value))
    {
      var j := EntryIsADraft(p, b, ledger, drafts, i);
      DraftIsAccepted(p, b, ledger, keys[i], j, ledger.entries[i].content);
    }
    assert |ledger.entries| == |keys|;
    if Verified(p, ledger) {
      forall k: Key | Planned(p, ledger, k) && k.arm == DeterministicReference && ContractOf(p, k).Some?
        ensures Classify(ContractOf(p, k).value, b.observe(k)) == ContractStatus(b.observe(k), ContractOf(p, k).value)
      {
        assert k in keys;
        var i :| 0 <= i < |keys| && keys[i] == k;
        assert ContentFits(p, ledger, ledger.entries[i].content);
      }
    }
    if forall k: Key :: Planned(p, ledger, k) && k.arm == DeterministicReference && ContractOf(p, k).Some? ==>
         Classify(ContractOf(p, k).value, b.observe(k)) == ContractStatus(b.observe(k), ContractOf(p, k).value)
    {
      forall i | 0 <= i < |keys|
        ensures ContentFits(p, ledger, ledger.entries[i].content)
      {
        assert keys[i] in keys && Planned(p, ledger, keys[i]);
      }
    }
  }

  /** Runs without signals and repeated codes give a ledger that is verified. */
  lemma QuietBuildsAreVerified(p: Protocol, b: Build, ledger: Ledger, drafts: seq<Content>)
    requires ProperProtocol(p) && ProperBuild(p, b) && IsBuilt(p, b, ledger, drafts)
    requires Distinct(ledger.replicates) && Distinct(ledger.attempts)
    requires forall k: Key :: Planned(p, ledger, k) && k.arm == DeterministicReference ==>
               var o := b.observe(k); o.executed && !UnsafeAtTop(o) && !o.signals.Any() && Distinct(o.issueCodes)
    requires forall k: Key :: Planned(p, ledger, k) && ContractOf(p, k).Some? ==>
               Distinct(ContractOf(p, k).value.requiredIssueCodes)
    ensures Verified(p, ledger)
  {
    hide Classify, ContractStatus, ContractOf, Planned, UnsafeAtTop, Verified, IsBuilt;
    forall k: Key | Planned(p, ledger, k) && k.arm == DeterministicReference && ContractOf(p, k).Some?
      ensures Classify(ContractOf(p, k).value, b.observe(k)) == ContractStatus(b.observe(k), ContractOf(p, k).value)
    {
      ClassifiersAgreeOnQuietRuns(ContractOf(p, k).value, b.observe(k));
    }
    BuiltLedgerIsVerifiedIff(p, b, ledger, drafts);
  }
}
