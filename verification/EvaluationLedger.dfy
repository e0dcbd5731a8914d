/**
 The evaluation ledger: a builder that chains entries by digest, and an independently
 written verifier of the chain, the keys, the coverage and the statuses.
 */
module EvaluationLedger {
  import opened Basics
  import opened Sequences
  import opened Classification

  datatype Arm = DeterministicReference | SingleAgent | SixAgent

  datatype Key = Key(arm: Arm, scenario: Id, replicate: int, attempt: int)

  datatype Sources = Sources(fixture: Digest, scenarioFile: Digest, commit: Id, catalog: Digest, formula: Id)

  /** An entry without its own digest. */
  datatype Content = Content(
    index: int,
    previous: Digest,
    key: Key,
    entryId: Id,
    runId: Id,
    executed: bool,
    status: Verdict,
    issueCodes: seq<Id>,
    startedAt: Time,
    finishedAt: Time,
    sources: Sources,
    model: Option<Id>,
    workerEvidence: Option<Id>,
    result: Option<Observation>)

  datatype Entry = Entry(content: Content, hash: Digest)

  datatype Scenario = Scenario(id: Id, arms: seq<Arm>, expected: Contract)

  datatype Ledger = Ledger(entries: seq<Entry>, replicates: seq<int>, attempts: seq<int>, sources: Sources,
                           root: Digest)

  /**
   The checked-in protocol and the digests. `sources` is what every entry has to name,
   `workerReady` the gate on the evidence of an executed worker arm.
   */
  datatype Protocol = Protocol(
    scenarios: seq<Scenario>,
    sources: Sources,
    genesis: Digest,
    digest: Content -> Digest,
    rootDigest: (seq<Entry>, seq<int>, seq<int>, Sources) -> Digest,
    entryId: Key -> Id,
    runId: (bool, Key) -> Id,
    workerReady: Content -> bool)

  function KeyOf(e: Entry): Key { e.content.key }
  function EntryIdOf(e: Entry): Id { e.content.entryId }
  function RunIdOf(e: Entry): Id { e.content.runId }

  /** The dictionary from identifiers to scenarios: a later scenario replaces an earlier one. */
  function Find(scenarios: seq<Scenario>, id: Id): Option<Scenario> {
    if scenarios == [] then None
    else if scenarios[|scenarios| - 1].id == id then Some(scenarios[|scenarios| - 1])
    else Find(scenarios[..|scenarios| - 1], id)
  }

  /******* What the verifier accepts *******/

  /** The digest the i-th entry has to link to. */
  function PreviousHash(p: Protocol, entries: seq<Entry>, i: nat): Digest
    requires i <= |entries|
  {
    if i == 0 then p.genesis else entries[i - 1].hash
  }

  predicate LinkFits(p: Protocol, entries: seq<Entry>, i: nat)
    requires i < |entries|
  {
    && entries[i].content.index == i + 1
    && entries[i].content.previous == PreviousHash(p, entries, i)
    && entries[i].hash == p.digest(entries[i].content)
  }

  ghost predicate ChainFits(p: Protocol, entries: seq<Entry>) {
    forall i :: 0 <= i < |entries| ==> LinkFits(p, entries, i)
  }

  ghost predicate NamesFit(entries: seq<Entry>) {
    Distinct(Map(entries, KeyOf)) && Distinct(Map(entries, EntryIdOf)) && Distinct(Map(entries, RunIdOf))
  }

  predicate StatusFits(c: Content, expected: Contract) {
    if !c.executed then c.status == Unknown && c.result.None?
    else if c.result.None? then c.status == Unknown
    else c.result.value.issueCodes == c.issueCodes && c.status == ContractStatus(c.result.value, expected)
  }

  predicate WorkerFits(p: Protocol, c: Content) {
    if !c.executed || c.key.arm == DeterministicReference then c.workerEvidence.None?
    else c.workerEvidence.Some? && p.workerReady(c)
  }

  predicate ContentFits(p: Protocol, ledger: Ledger, c: Content) {
    var scenario := Find(p.scenarios, c.key.scenario);
    && scenario.Some? && c.key.arm in scenario.value.arms
    && c.sources.fixture == p.sources.fixture && c.sources.scenarioFile == p.sources.scenarioFile
    && c.sources.commit == ledger.sources.commit
    && c.sources.catalog == p.sources.catalog && c.sources.formula == p.sources.formula
    && (!c.executed || c.key.arm == DeterministicReference ==> c.model.None?)
    && c.startedAt <= c.finishedAt
    && StatusFits(c, scenario.value.expected) && WorkerFits(p, c)
  }

  ghost predicate Planned(p: Protocol, ledger: Ledger, k: Key) {
    && k.replicate in ledger.replicates && k.attempt in ledger.attempts
    && exists i :: 0 <= i < |p.scenarios| && p.scenarios[i].id == k.scenario && k.arm in p.scenarios[i].arms
  }

  ghost predicate CoverageFits(p: Protocol, ledger: Ledger) {
    forall k: Key :: k in Map(ledger.entries, KeyOf) <==> Planned(p, ledger, k)
  }

  predicate RootFits(p: Protocol, ledger: Ledger) {
    && ledger.sources.fixture == p.sources.fixture && ledger.sources.scenarioFile == p.sources.scenarioFile
    && ledger.sources.commit == p.sources.commit
    && ledger.root == p.rootDigest(ledger.entries, ledger.replicates, ledger.attempts, ledger.sources)
  }

  ghost predicate Verified(p: Protocol, ledger: Ledger) {
    && RootFits(p, ledger) && ChainFits(p, ledger.entries) && NamesFit(ledger.entries)
    && (forall i :: 0 <= i < |ledger.entries| ==> ContentFits(p, ledger, ledger.entries[i].content))
    && CoverageFits(p, ledger)
  }

  /******* The verifier *******/

  datatype Reason =
    | SourceMismatch | SequenceInvalid | PreviousHashMismatch | EntryHashMismatch
    | KeyNotUnique | EntryIdNotUnique | RunIdNotUnique
    | UnknownScenario | EntryInvalid | CoverageMissing | EntryUnexpected | RootHashMismatch

  method ChainReasons(p: Protocol, entries: seq<Entry>) returns (reasons: seq<Reason>)
    ensures reasons == [] <==> ChainFits(p, entries)
  {
    reasons := [];
    var previous := p.genesis;
    for i := 0 to |entries|
      invariant previous == PreviousHash(p, entries, i)
      invariant reasons == [] <==> forall j :: 0 <= j < i ==> LinkFits(p, entries, j)
    {
      var e := entries[i];
      var found := If(e.content.index != i + 1, SequenceInvalid)
        + If(e.content.previous != previous, PreviousHashMismatch)
        + If(e.hash != p.digest(e.content), EntryHashMismatch);
      assert found == [] <==> LinkFits(p, entries, i);
      reasons := reasons + found;
      previous := e.hash;
    }
  }

  /** One of the three sets of names already seen, and whether any came twice. */
  method Repeated<T(==)>(names: seq<T>, reason: Reason) returns (reasons: seq<Reason>, seen: set<T>)
    ensures reasons == [] <==> Distinct(names)
    ensures forall x :: x in seen <==> x in names
  {
    reasons, seen := [], {};
    for i := 0 to |names|
      invariant forall x :: x in seen <==> x in names[..i]
      invariant reasons == [] <==> Distinct(names[..i])
    {
      assert names[..i + 1] == names[..i] + [names[i]];
      if names[i] in seen {
        var j :| 0 <= j < i && names[j] == names[i];
        assert names[..i + 1][j] == names[..i + 1][i];
        reasons := reasons + [reason];
      } else {
        assert Distinct(names[..i]) ==> Distinct(names[..i + 1]);
        assert Distinct(names[..i + 1]) ==> Distinct(names[..i]) by {
          assert forall a :: 0 <= a < i ==> names[..i + 1][a] == names[..i][a];
        }
      }
      seen := seen + {names[i]};
    }
    assert names[..|names|] == names;
  }

  method ContentReasons(p: Protocol, ledger: Ledger) returns (reasons: seq<Reason>)
    ensures reasons == []
            <==> forall i :: 0 <= i < |ledger.entries| ==> ContentFits(p, ledger, ledger.entries[i].content)
  {
    reasons := [];
    for i := 0 to |ledger.entries|
      invariant reasons == [] <==> forall j :: 0 <= j < i ==> ContentFits(p, ledger, ledger.entries[j].content)
    {
      var c := ledger.entries[i].content;
      if Find(p.scenarios, c.key.scenario).None? {
        reasons := reasons + [UnknownScenario];
      } else {
        reasons := reasons + If(!ContentFits(p, ledger, c), EntryInvalid);
      }
    }
  }

  function ExpectedKeys(p: Protocol, ledger: Ledger): set<Key> {
    set i, arm, r, a |
      0 <= i < |p.scenarios| && arm in p.scenarios[i].arms && r in ledger.replicates && a in ledger.attempts
      :: Key(arm, p.scenarios[i].id, r, a)
  }

  method VerifyRunLedger(p: Protocol, ledger: Ledger) returns (reasons: seq<Reason>)
    ensures reasons == [] <==> Verified(p, ledger)
  {
    hide ContentFits, RootFits, ChainFits, Distinct;
    var chain := ChainReasons(p, ledger.entries);
    var keys, seenKeys := Repeated(Map(ledger.entries, KeyOf), KeyNotUnique);
    var ids, _ := Repeated(Map(ledger.entries, EntryIdOf), EntryIdNotUnique);
    var runs, _ := Repeated(Map(ledger.entries, RunIdOf), RunIdNotUnique);
    var contents := ContentReasons(p, ledger);
    var expected := ExpectedKeys(p, ledger);
    assert forall k: Key :: k in expected <==> Planned(p, ledger, k);
    assert (expected - seenKeys == {} && seenKeys - expected == {}) <==> seenKeys == expected;
    assert seenKeys == expected <==> CoverageFits(p, ledger) by {
      if CoverageFits(p, ledger) { assert forall k :: k in seenKeys <==> k in expected; }
    }
    reasons := chain + keys + ids + runs + contents
      + If(expected - seenKeys != {}, CoverageMissing) + If(seenKeys - expected != {}, EntryUnexpected)
      + If(!RootFits(p, ledger), RootHashMismatch);
  }

  /******* What a verified ledger says *******/

  ghost predicate Injective(p: Protocol) { forall a, b :: p.digest(a) == p.digest(b) ==> a == b }

  lemma {:induction false} ChainsWithOneEndAreOne(p: Protocol, a: seq<Entry>, b: seq<Entry>)
    requires Injective(p) && ChainFits(p, a) && ChainFits(p, b)
    requires a != [] && b != [] && a[|a| - 1].hash == b[|b| - 1].hash
    ensures a == b
    decreases |a|
  {
    var m, n := |a| - 1, |b| - 1;
    assert LinkFits(p, a, m) && LinkFits(p, b, n);
    assert a[m].content == b[n].content;
    assert a == a[..m] + [a[m]] && b == b[..n] + [b[n]];
    if m > 0 {
      assert forall i :: 0 <= i < m ==> LinkFits(p, a, i) ==> LinkFits(p, a[..m], i);
      assert forall i :: 0 <= i < n ==> LinkFits(p, b, i) ==> LinkFits(p, b[..n], i);
      ChainsWithOneEndAreOne(p, a[..m], b[..n]);
    }
  }

  /** The last digest of a verified ledger fixes every entry of it. */
  lemma LastHashFixesTheLedger(p: Protocol, ledger: Ledger, other: Ledger)
    requires Injective(p) && Verified(p, ledger) && Verified(p, other)
    requires ledger.entries != [] && other.entries != []
    requires ledger.entries[|ledger.entries| - 1].hash == other.entries[|other.entries| - 1].hash
    ensures ledger.entries == other.entries
  {
    hide ContentFits, CoverageFits, NamesFit, RootFits;
    ChainsWithOneEndAreOne(p, ledger.entries, other.entries);
  }

  /** Every planned run is in a verified ledger exactly once, and nothing else is. */
  lemma VerifiedLedgerIsThePlan(p: Protocol, ledger: Ledger, k: Key)
    requires Verified(p, ledger)
    ensures Planned(p, ledger, k) <==> exists i :: 0 <= i < |ledger.entries| && ledger.entries[i].content.key == k
    ensures forall i, j :: 0 <= i < j < |ledger.entries| ==>
              ledger.entries[i].content.key != ledger.entries[j].content.key
  {
    hide ContentFits, RootFits, ChainFits;
    var keys := Map(ledger.entries, KeyOf);
    assert k in keys <==> Planned(p, ledger, k);
    if Planned(p, ledger, k) {
      var i :| 0 <= i < |keys| && keys[i] == k;
      assert ledger.entries[i].content.key == k;
    }
    forall i, j | 0 <= i < j < |ledger.entries|
      ensures ledger.entries[i].content.key != ledger.entries[j].content.key
    {
      assert keys[i] != keys[j];
    }
    if i :| 0 <= i < |ledger.entries| && ledger.entries[i].content.key == k {
      assert keys[i] == k;
    }
  }

  /******* The builder *******/

  /** What a build brings with it: the runs of the deterministic arm, and when they took place. */
  datatype Build = Build(
    observe: Key -> Observation, started: Key -> Time, finished: Key -> Time, recordedAt: Time, commit: Id)

  function ArmKeys(s: Scenario, replicate: int, attempt: int): seq<Key> {
    (if DeterministicReference in s.arms then [Key(DeterministicReference, s.id, replicate, attempt)] else [])
    + (if SingleAgent in s.arms then [Key(SingleAgent, s.id, replicate, attempt)] else [])
    + (if SixAgent in s.arms then [Key(SixAgent, s.id, replicate, attempt)] else [])
  }

  function ScenarioKeys(scenarios: seq<Scenario>, replicate: int, attempt: int): seq<Key> {
    if scenarios == [] then []
    else
      var n := |scenarios| - 1;
      ScenarioKeys(scenarios[..n], replicate, attempt) + ArmKeys(scenarios[n], replicate, attempt)
  }

  function AttemptKeys(scenarios: seq<Scenario>, replicate: int, attempts: seq<int>): seq<Key> {
    if attempts == [] then []
    else
      var n := |attempts| - 1;
      AttemptKeys(scenarios, replicate, attempts[..n]) + ScenarioKeys(scenarios, replicate, attempts[n])
  }

  function PlanKeys(scenarios: seq<Scenario>, replicates: seq<int>, attempts: seq<int>): seq<Key> {
    if replicates == [] then []
    else
      var n := |replicates| - 1;
      PlanKeys(scenarios, replicates[..n], attempts) + AttemptKeys(scenarios, replicates[n], attempts)
  }

  /** One entry before it is chained. Worker arms are recorded as not executed. */
  function Draft(p: Protocol, b: Build, expected: Contract, k: Key): Content {
    var executed := k.arm == DeterministicReference;
    Content(
      0, p.genesis, k, p.entryId(k), p.runId(executed, k), executed,
      if executed then Classify(expected, b.observe(k)) else Unknown,
      if executed then b.observe(k).issueCodes else [],
      if executed then b.started(k) else b.recordedAt,
      if executed then b.finished(k) else b.recordedAt,
      p.sources.(commit := b.commit), None, None,
      if executed then Some(b.observe(k)) else None)
  }

  function ArmDrafts(p: Protocol, b: Build, s: Scenario, replicate: int, attempt: int): (r: seq<Content>)
    ensures |r| == |ArmKeys(s, replicate, attempt)|
    ensures forall i :: 0 <= i < |r| ==> r[i] == Draft(p, b, s.expected, ArmKeys(s, replicate, attempt)[i])
  {
    (if DeterministicReference in s.arms
     then [Draft(p, b, s.expected, Key(DeterministicReference, s.id, replicate, attempt))] else [])
    + (if SingleAgent in s.arms then [Draft(p, b, s.expected, Key(SingleAgent, s.id, replicate, attempt))] else [])
    + (if SixAgent in s.arms then [Draft(p, b, s.expected, Key(SixAgent, s.id, replicate, attempt))] else [])
  }

  /** The drafts are those of the keys, each made with the contract of its own scenario. */
  ghost predicate DraftsOf(p: Protocol, b: Build, drafts: seq<Content>, keys: seq<Key>) {
    && |drafts| == |keys|
    && forall i :: 0 <= i < |keys| ==>
         exists j :: 0 <= j < |p.scenarios| && p.scenarios[j].id == keys[i].scenario
                     && keys[i].arm in p.scenarios[j].arms && drafts[i] == Draft(p, b, p.scenarios[j].expected, keys[i])
  }

  function Placed(draft: Content, index: int, previous: Digest): Content {
    draft.(index := index, previous := previous)
  }

  function Chained(p: Protocol, drafts: seq<Content>): (entries: seq<Entry>)
    ensures |entries| == |drafts|
  {
    if drafts == [] then []
    else
      var n := |drafts| - 1;
      var before := Chained(p, drafts[..n]);
      var c := Placed(drafts[n], n + 1, PreviousHash(p, before, n));
      before + [Entry(c, p.digest(c))]
  }

  /** Drafts in nested loops over the plan, then index, previous digest and digest one by one. */
  method BuildRunLedger(p: Protocol, b: Build, replicates: seq<int>, attempts: seq<int>) returns (ledger: Ledger)
    ensures ledger.replicates == replicates && ledger.attempts == attempts
    ensures ledger.sources == p.sources.(commit := b.commit)
    ensures ledger.root == p.rootDigest(ledger.entries, replicates, attempts, ledger.sources)
    ensures exists drafts :: DraftsOf(p, b, drafts, PlanKeys(p.scenarios, replicates, attempts))
                             && ledger.entries == Chained(p, drafts)
  {
    hide Draft, ArmDrafts, ArmKeys, DraftsOf, Chained, ScenarioKeys, AttemptKeys, PlanKeys;
    var drafts: seq<Content> := [];
    NoDrafts(p, b);
    ghost var scenarios := p.scenarios;
    PlanKeysGrow(scenarios, replicates, attempts, 0);
    for i := 0 to |replicates|
      invariant DraftsOf(p, b, drafts, PlanKeys(scenarios, replicates[..i], attempts))
    {
      ghost var keys := PlanKeys(scenarios, replicates[..i], attempts);
      PlanKeysGrow(scenarios, replicates, attempts, i);
      AttemptKeysGrow(keys, scenarios, replicates[i], attempts, 0);
      for j := 0 to |attempts|
        invariant DraftsOf(p, b, drafts, keys + AttemptKeys(scenarios, replicates[i], attempts[..j]))
      {
        ghost var more := keys + AttemptKeys(scenarios, replicates[i], attempts[..j]);
        AttemptKeysGrow(keys, scenarios, replicates[i], attempts, j);
        ScenarioKeysGrow(more, scenarios, replicates[i], attempts[j], 0);
        for k := 0 to |p.scenarios|
          invariant DraftsOf(p, b, drafts, more + ScenarioKeys(scenarios[..k], replicates[i], attempts[j]))
        {
          ScenarioKeysGrow(more, scenarios, replicates[i], attempts[j], k);
          DraftsGoOn(p, b, drafts, more + ScenarioKeys(scenarios[..k], replicates[i], attempts[j]), k, replicates[i],
                     attempts[j]);
          drafts := drafts + ArmDrafts(p, b, p.scenarios[k], replicates[i], attempts[j]);
        }
        assert scenarios[..|scenarios|] == scenarios;
      }
      assert attempts[..|attempts|] == attempts;
    }
    assert replicates[..|replicates|] == replicates;
    var entries := ChainEntries(p, drafts);
    var sources := p.sources.(commit := b.commit);
    ledger := Ledger(entries, replicates, attempts, sources, p.rootDigest(entries, replicates, attempts, sources));
  }

  lemma ScenarioKeysGrow(keys: seq<Key>, scenarios: seq<Scenario>, replicate: int, attempt: int, k: nat)
    requires k <= |scenarios|
    ensures keys + ScenarioKeys(scenarios[..0], replicate, attempt) == keys
    ensures k < |scenarios| ==>
      keys + ScenarioKeys(scenarios[..k + 1], replicate, attempt)
        == keys + ScenarioKeys(scenarios[..k], replicate, attempt) + ArmKeys(scenarios[k], replicate, attempt)
  {
    hide ArmKeys;
    if k < |scenarios| { assert scenarios[..k + 1][..k] == scenarios[..k]; }
  }

  lemma AttemptKeysGrow(keys: seq<Key>, scenarios: seq<Scenario>, replicate: int, attempts: seq<int>, j: nat)
    requires j <= |attempts|
    ensures keys + AttemptKeys(scenarios, replicate, attempts[..0]) == keys
    ensures j < |attempts| ==>
      keys + AttemptKeys(scenarios, replicate, attempts[..j + 1])
        == keys + AttemptKeys(scenarios, replicate, attempts[..j]) + ScenarioKeys(scenarios, replicate, attempts[j])
  {
    hide ScenarioKeys;
    if j < |attempts| { assert attempts[..j + 1][..j] == attempts[..j]; }
  }

  lemma PlanKeysGrow(scenarios: seq<Scenario>, replicates: seq<int>, attempts: seq<int>, i: nat)
    requires i <= |replicates|
    ensures PlanKeys(scenarios, replicates[..0], attempts) == []
    ensures i < |replicates| ==>
      PlanKeys(scenarios, replicates[..i + 1], attempts)
        == PlanKeys(scenarios, replicates[..i], attempts) + AttemptKeys(scenarios, replicates[i], attempts)
  {
    hide AttemptKeys;
    if i < |replicates| { assert replicates[..i + 1][..i] == replicates[..i]; }
  }

  lemma NoDrafts(p: Protocol, b: Build)
    ensures DraftsOf(p, b, [], [])
  {
  }

  lemma DraftsGoOn(p: Protocol, b: Build, drafts: seq<Content>, keys: seq<Key>, k: nat, replicate: int, attempt: int)
    requires DraftsOf(p, b, drafts, keys) && k < |p.scenarios|
    ensures var s := p.scenarios[k];
            DraftsOf(p, b, drafts + ArmDrafts(p, b, s, replicate, attempt), keys + ArmKeys(s, replicate, attempt))
  {
    hide Draft;
    var s := p.scenarios[k];
    var all, more := keys + ArmKeys(s, replicate, attempt), drafts + ArmDrafts(p, b, s, replicate, attempt);
    forall i | 0 <= i < |all|
      ensures exists j :: 0 <= j < |p.scenarios| && p.scenarios[j].id == all[i].scenario
                && all[i].arm in p.scenarios[j].arms && more[i] == Draft(p, b, p.scenarios[j].expected, all[i])
    {
      if i < |keys| { assert all[i] == keys[i] && more[i] == drafts[i]; }
      else { assert all[i].scenario == p.scenarios[k].id && all[i].arm in p.scenarios[k].arms; }
    }
  }

  method ChainEntries(p: Protocol, drafts: seq<Content>) returns (entries: seq<Entry>)
    ensures entries == Chained(p, drafts)
  {
    entries := [];
    var previous := p.genesis;
    for i := 0 to |drafts|
      invariant entries == Chained(p, drafts[..i])
      invariant previous == PreviousHash(p, entries, i)
    {
      assert drafts[..i + 1][..i] == drafts[..i];
      var c := Placed(drafts[i], i + 1, previous);
      entries := entries + [Entry(c, p.digest(c))];
      previous := entries[i].hash;
    }
    assert drafts[..|drafts|] == drafts;
  }
}
