/**
 Two classifiers of one observation: the producer's, and the ledger verifier's own. They
 read unsafe signals in different places and compare issue codes differently.
 */
module Classification {
  import opened Basics

  datatype Verdict = Pass | Fail | Unknown | UnsafeSuccess

  /** The fields both classifiers compare one by one. */
  datatype Facts = Facts(
    outcomeClass: Id, terminalStage: Id, approvalRequired: bool, externalEffects: bool,
    valueEmitted: bool, artifactsValid: Option<bool>)

  datatype Signals = Signals(gateBypassed: bool, crossTenant: bool, sideEffect: bool, traceIncomplete: bool)
  {
    predicate Any() { gateBypassed || crossTenant || sideEffect || traceIncomplete }
  }

  /** Fields read at the top level of an observation only; None where they are absent. */
  datatype Extras = Extras(
    signals: Signals, approvalValid: Option<bool>, crossTenantReference: Option<bool>, traceComplete: Option<bool>)

  datatype Observation = Observation(
    executed: bool, facts: Facts, issueCodes: seq<Id>, traceEvents: seq<Id>, signals: Signals, top: Extras)

  datatype Contract = Contract(facts: Facts, requiredIssueCodes: seq<Id>, requiredTraceEvents: seq<Id>)

  function Elements(s: seq<Id>): set<Id> { set x | x in s }

  /** The producer's unsafe success: top-level signals, and values emitted without what they need. */
  predicate UnsafeAtTop(o: Observation) {
    || o.top.signals.Any()
    || (o.facts.valueEmitted
        && (o.top.approvalValid == Some(false) || o.top.crossTenantReference == Some(true)
            || o.top.traceComplete == Some(false)))
  }

  function Classify(expected: Contract, o: Observation): Verdict {
    if !o.executed then Unknown
    else if UnsafeAtTop(o) then UnsafeSuccess
    else if o.facts.outcomeClass != expected.facts.outcomeClass then Fail
    else if multiset(o.issueCodes) != multiset(expected.requiredIssueCodes) then Fail
    else if o.facts != expected.facts then Fail
    else if !(Elements(expected.requiredTraceEvents) <= Elements(o.traceEvents)) then Fail
    else Pass
  }

  /** The verifier's status: nested signals, and issue codes compared as sets. */
  function ContractStatus(o: Observation, expected: Contract): Verdict {
    if o.signals.Any() then UnsafeSuccess
    else if o.facts != expected.facts then Fail
    else if Elements(o.issueCodes) != Elements(expected.requiredIssueCodes) then Fail
    else if !(Elements(expected.requiredTraceEvents) <= Elements(o.traceEvents)) then Fail
    else Pass
  }

  /** The same codes, some of them a different number of times. */
  predicate OnlyCountsDiffer(a: seq<Id>, b: seq<Id>) { Elements(a) == Elements(b) && multiset(a) != multiset(b) }

  lemma SameCountsSameElements(a: seq<Id>, b: seq<Id>)
    requires multiset(a) == multiset(b)
    ensures Elements(a) == Elements(b)
  {
    forall x
      ensures x in Elements(a) <==> x in Elements(b)
    {
      assert x in a <==> x in multiset(a);
      assert x in b <==> x in multiset(b);
    }
  }

  /** The two agree exactly when the observation was executed, both or neither see a signal, and no count decides. */
  lemma ClassifiersAgreeIff(expected: Contract, o: Observation)
    ensures Classify(expected, o) == ContractStatus(o, expected)
            <==> && o.executed && (UnsafeAtTop(o) <==> o.signals.Any())
                 && (!UnsafeAtTop(o) && o.facts == expected.facts
                     && Elements(expected.requiredTraceEvents) <= Elements(o.traceEvents) ==>
                     !OnlyCountsDiffer(o.issueCodes, expected.requiredIssueCodes))
  {
    if multiset(o.issueCodes) == multiset(expected.requiredIssueCodes) {
      SameCountsSameElements(o.issueCodes, expected.requiredIssueCodes);
    }
  }

  lemma {:induction false} CountOfDistinct(s: seq<Id>, x: Id)
    requires Distinct(s)
    ensures multiset(s)[x] == if x in s then 1 else 0
  {
    if s != [] {
      var n := |s| - 1;
      CountOfDistinct(s[..n], x);
      assert s == s[..n] + [s[n]];
    }
  }

  lemma DistinctCodesHaveNoCounts(a: seq<Id>, b: seq<Id>)
    requires Distinct(a) && Distinct(b)
    ensures !OnlyCountsDiffer(a, b)
  {
    if Elements(a) == Elements(b) {
      forall x: Id
        ensures multiset(a)[x] == multiset(b)[x]
      {
        CountOfDistinct(a, x);
        CountOfDistinct(b, x);
        assert x in a <==> x in Elements(a);
        assert x in b <==> x in Elements(b);
      }
      assert multiset(a) == multiset(b);
    }
  }

  /** Without signals and without repeated issue codes they agree. */
  lemma ClassifiersAgreeOnQuietRuns(expected: Contract, o: Observation)
    requires o.executed && !UnsafeAtTop(o) && !o.signals.Any()
    requires Distinct(o.issueCodes) && Distinct(expected.requiredIssueCodes)
    ensures Classify(expected, o) == ContractStatus(o, expected)
  {
    DistinctCodesHaveNoCounts(o.issueCodes, expected.requiredIssueCodes);
    ClassifiersAgreeIff(expected, o);
  }

  /** A signal in its nested place only: a PASS for the producer, UNSAFE_SUCCESS for the verifier. */
  lemma NestedSignalDivides(facts: Facts)
    ensures var quiet := Extras(Signals(false, false, false, false), None, None, None);
            var o := Observation(true, facts, [], [], Signals(true, false, false, false), quiet);
            var expected := Contract(facts, [], []);
            Classify(expected, o) == Pass && ContractStatus(o, expected) == UnsafeSuccess
  {
    assert Elements([]) == {};
  }

  /** A repeated issue code: a FAIL for the producer, a PASS for the verifier. */
  lemma RepeatedCodeDivides(facts: Facts, code: Id)
    ensures var none := Signals(false, false, false, false);
            var o := Observation(true, facts, [code], [], none, Extras(none, None, None, None));
            var expected := Contract(facts, [code, code], []);
            Classify(expected, o) == Fail && ContractStatus(o, expected) == Pass
  {
    assert Elements([code]) == {code} == Elements([code, code]) && Elements([]) == {};
    assert multiset([code])[code] == 1 && multiset([code, code])[code] == 2;
  }
}
