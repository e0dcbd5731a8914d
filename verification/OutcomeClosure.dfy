/**
 Verification of an outcome closure: two accepted results are taken over as evidence,
 checked against their own signed bytes, and a verdict is derived from the observed
 effect attempts and recorded once.
 */
module OutcomeClosure {
  import opened Basics
  import opened Decimal
  import opened AppendOnlyRuns
  import opened LogIndex
  import opened Attestations
  import opened Selection
  import opened Signers
  import opened ActionCertificate
  import opened ExecutionReceipt
  import OX = OutcomeIndex

  /******* Taking over an accepted certificate *******/

  datatype Handoff<T> = Trusted(value: T) | Untrusted(reason: ClosureReason)

  predicate CertificateDigestsMatch(
      w: World, envelope: Bytes, e: Envelope, s: CertificateStatement, result: CertificateResult,
      expected: CertificateReference)
  {
    && w.sha256(envelope) == expected.envelope
    && w.sha256(e.payload) == expected.payload
    && s.claim.certificateId == expected.certificateId
    && result.certificateId == Some(expected.certificateId)
    && result.payload == Some(expected.payload)
    && w.certificateResultDigest(result) == expected.verificationResult
    && w.scopeDigest(ScopeOf(s)) == expected.intent
  }

  predicate CertificateIdsUsable(result: CertificateResult, s: CertificateStatement) {
    && result.issuerRoots != []
    && (s.claim.approval.required <==> result.approvalRoots != [])
    && Distinct(result.issuerRoots) && Distinct(result.approvalRoots)
  }

  /** The signer holds its role both when the certificate was verified and now. */
  predicate StillCertifies(
      root: TrustRoot, purpose: Purpose, claim: CertificatePredicate, policy: TrustPolicy, verifiedAt: Time,
      now: Time, approvers: Option<seq<Id>>)
  {
    && MayCertify(root, purpose, claim, policy, verifiedAt, approvers)
    && IsCurrent(root, now, policy.skew)
    && claim.audience in policy.audiences
    && ActionCertificateV01 in policy.predicateTypes
  }

  predicate AuthorityIsSeparate(
      w: World, claim: CertificatePredicate, policy: TrustPolicy, issuers: seq<TrustRoot>,
      approvers: seq<TrustRoot>)
  {
    && claim.human.id in policy.humans
    && claim.workload.id in policy.workloads
    && claim.human.id != claim.workload.id
    && |Principals(issuers)| >= policy.issuerThreshold
    && |Fingerprints(w, issuers)| >= policy.issuerThreshold
    && (claim.approval.required ==>
          && |Principals(approvers)| >= policy.approvalThreshold
          && |Fingerprints(w, approvers)| >= policy.approvalThreshold)
    && Principals(issuers) * Principals(approvers) == {}
    && Fingerprints(w, issuers) * Fingerprints(w, approvers) == {}
  }

  function CertificateHandoff(
      w: World, envelope: Bytes, result: CertificateResult, expected: CertificateReference,
      policy: TrustPolicy, now: Time): (h: Handoff<CertificatePredicate>)
    requires WorldValid(w) && PolicyValid(policy)
    ensures h.Untrusted? ==> h.reason == ActionAcceptanceUnknown || h.reason == ActionHandoffUntrusted
  {
    if result.status != Accept || !result.reserved then Untrusted(ActionAcceptanceUnknown)
    else if w.parseEnvelope(envelope).None? || w.parseCertificate(w.parseEnvelope(envelope).value.payload).None? then
      Untrusted(ActionHandoffUntrusted)
    else
      var e := w.parseEnvelope(envelope).value;
      var s := w.parseCertificate(e.payload).value;
      var byId := RootsById(VerifiedRoots(w, e, policy.roots));
      if || !CertificateDigestsMatch(w, envelope, e, s, result, expected)
         || !CertificateIdsUsable(result, s)
         || (exists i :: 0 <= i < |result.issuerRoots| && result.issuerRoots[i] !in byId)
         || (exists i :: 0 <= i < |result.approvalRoots| && result.approvalRoots[i] !in byId)
      then Untrusted(ActionHandoffUntrusted)
      else
        var issuers := RootsNamed(VerifiedRoots(w, e, policy.roots), result.issuerRoots);
        var approvers := RootsNamed(VerifiedRoots(w, e, policy.roots), result.approvalRoots);
        if && (forall r :: r in issuers ==>
                 StillCertifies(r, ActionIssuer, s.claim, policy, expected.verificationAt, now, None))
           && (forall r :: r in approvers ==>
                 StillCertifies(r, HumanApproval, s.claim, policy, expected.verificationAt, now,
                                Some(s.claim.approval.approvers)))
           && AuthorityIsSeparate(w, s.claim, policy, issuers, approvers)
        then Trusted(s.claim)
        else Untrusted(ActionHandoffUntrusted)
  }

  /******* Taking over an accepted receipt *******/

  predicate ReceiptDigestsMatch(
      w: World, envelope: Bytes, e: Envelope, s: ReceiptStatement, result: ReceiptResult,
      expected: ReceiptReference)
  {
    && w.sha256(envelope) == expected.envelope
    && w.sha256(e.payload) == expected.payload
    && s.claim.receiptId == expected.receiptId
    && result.receiptId == Some(expected.receiptId)
    && result.payload == Some(expected.payload)
    && result.envelope == expected.envelope
    && w.receiptResultDigest(result) == expected.verificationResult
  }

  predicate StillObserves(w: World, root: TrustRoot, claim: ReceiptPredicate, policy: TrustPolicy, now: Time) {
    && MayObserve(w, root, claim, policy)
    && w.receiptAudience in policy.audiences
    && ExecutionReceiptV01 in policy.predicateTypes
    && CurrentThroughout(root, claim.issuedAt, now, policy.skew)
  }

  function ReceiptHandoff(
      w: World, envelope: Bytes, result: ReceiptResult, expected: ReceiptReference, policy: TrustPolicy,
      now: Time): (h: Handoff<ReceiptStatement>)
    requires WorldValid(w) && PolicyValid(policy)
    ensures h.Untrusted? ==> h.reason == ReceiptAcceptanceUnknown || h.reason == ReceiptHandoffUntrusted
  {
    if result.status != Accept || !result.recorded then Untrusted(ReceiptAcceptanceUnknown)
    else if w.parseEnvelope(envelope).None? || w.parseReceipt(w.parseEnvelope(envelope).value.payload).None? then
      Untrusted(ReceiptHandoffUntrusted)
    else
      var e := w.parseEnvelope(envelope).value;
      var s := w.parseReceipt(e.payload).value;
      var byId := RootsById(VerifiedRoots(w, e, policy.roots));
      if || !ReceiptDigestsMatch(w, envelope, e, s, result, expected)
         || result.observerRoots == [] || !Distinct(result.observerRoots)
         || (exists i :: 0 <= i < |result.observerRoots| && result.observerRoots[i] !in byId)
      then Untrusted(ReceiptHandoffUntrusted)
      else
        var observers := RootsNamed(VerifiedRoots(w, e, policy.roots), result.observerRoots);
        if && (forall r :: r in observers ==> StillObserves(w, r, s.claim, policy, now))
           && |Principals(observers)| >= policy.executionObserverThreshold
           && |Fingerprints(w, observers)| >= policy.executionObserverThreshold
        then Trusted(s)
        else Untrusted(ReceiptHandoffUntrusted)
  }

  /** What a verifier is given, after the two spellings of each operator input have been merged. */
  datatype ClosureAttempt = ClosureAttempt(
    envelope: Bytes, policy: TrustPolicy, expected: ExpectedOutcome,
    certificateEnvelope: Bytes, certificateResult: CertificateResult,
    receiptEnvelope: Bytes, receiptResult: ReceiptResult,
    resolver: EvidenceResolver, now: Time)

  /******* Outcome observers *******/

  predicate MayClose(w: World, root: TrustRoot, claim: ClosurePredicate, policy: TrustPolicy) {
    && root.purpose == OutcomeObserver
    && root.tenant == claim.tenant
    && w.closureAudience in root.audiences
    && OutcomeClosureV01 in root.predicateTypes
    && root.principal in policy.outcomeObservers
    && root.outcomeScopes == ALL_OUTCOME_SCOPES
    && claim.source.kind in root.sourceKinds
    && claim.source.principal in root.sourcePrincipals
  }

  /** Principals and keys that already had a part in the action, and so may not judge it. */
  datatype Involved = Involved(principals: set<Id>, keys: set<Digest>)

  function NamedPrincipals(policy: TrustPolicy, ids: set<Id>): set<Id> {
    set r | r in policy.roots && r.id in ids :: r.principal
  }

  function NamedKeys(w: World, policy: TrustPolicy, ids: set<Id>): set<Digest> {
    set r | r in policy.roots && r.id in ids :: w.fingerprint(r.key)
  }

  function InvolvedIn(
      w: World, a: ClosureAttempt, claim: ClosurePredicate, action: Option<CertificatePredicate>,
      receipt: Option<ReceiptStatement>): Involved
  {
    var named := (set id | id in a.certificateResult.issuerRoots) + (set id | id in a.certificateResult.approvalRoots)
                 + (set id | id in a.receiptResult.observerRoots);
    Involved(
      (if action.Some? then {action.value.human.id, action.value.workload.id} else {})
      + (if receipt.Some? then set p | p in receipt.value.claim.observers else {})
      + {claim.source.principal}
      + NamedPrincipals(a.policy, named),
      NamedKeys(w, a.policy, named)
      + (set k | k in a.expected.humanKeys) + (set k | k in a.expected.executorKeys))
  }

  predicate IsInvolved(w: World, root: TrustRoot, involved: Involved) {
    root.principal in involved.principals || w.fingerprint(root.key) in involved.keys
  }

  function JudgeStanding(
      w: World, claim: ClosurePredicate, policy: TrustPolicy, involved: Involved, now: Time): TrustRoot -> Standing
  {
    (root: TrustRoot) =>
      if !MayClose(w, root, claim, policy) then Unfit
      else if root.principal !in claim.observers then Undeclared
      else if IsInvolved(w, root, involved) then Conflicted
      else if !CurrentThroughout(root, claim.issuedAt, now, policy.skew) then Stale
      else Eligible
  }

  function Judges(
      w: World, claim: ClosurePredicate, policy: TrustPolicy, involved: Involved, now: Time): TrustRoot -> bool
  {
    IsEligible(JudgeStanding(w, claim, policy, involved, now))
  }

  /** The ids of the qualified observers, and the objection to them if there is one. */
  function OutcomeObservers(
      w: World, roots: seq<TrustRoot>, claim: ClosurePredicate, policy: TrustPolicy, involved: Involved,
      now: Time): (r: (seq<Id>, Option<ClosureReason>))
    ensures r.1.Some? ==> IsUnknownReasonOfClosure(r.1.value)
  {
    var standing := JudgeStanding(w, claim, policy, involved, now);
    var chosen := Chosen(w, roots, Judges(w, claim, policy, involved, now));
    var ids := SortedIds(w, chosen);
    if Occurs(roots, standing, Undeclared) then ([], Some(ClosureSignerMismatch))
    else if Occurs(roots, standing, Conflicted) then ([], Some(ClosureSelfObservation))
    else if Occurs(roots, standing, Stale) then (ids, Some(ClosureRootTimeOrRevocationInvalid))
    else if Principals(chosen) != (set p | p in claim.observers) then (ids, Some(ClosureSignerMismatch))
    else if |chosen| < policy.outcomeObserverThreshold then (ids, Some(OutcomeObserverThresholdNotMet))
    else (ids, None)
  }

  /** One pass over the roots; an undeclared signer outranks everything else, wherever it stands. */
  method QualifyingOutcomeObservers(
      w: World, roots: seq<TrustRoot>, claim: ClosurePredicate, policy: TrustPolicy, involved: Involved,
      now: Time)
    returns (ids: seq<Id>, reason: Option<ClosureReason>)
    requires WorldValid(w)
    ensures (ids, reason) == OutcomeObservers(w, roots, claim, policy, involved, now)
  {
    var qualified, undeclared, selfObserved, stale :=
      SelectDistinct(w, roots, JudgeStanding(w, claim, policy, involved, now));
    if undeclared { return [], Some(ClosureSignerMismatch); }
    if selfObserved { return [], Some(ClosureSelfObservation); }
    assert Ids(qualified) == Ids(Chosen(w, roots, Judges(w, claim, policy, involved, now)));
    assert Principals(qualified) == Principals(Chosen(w, roots, Judges(w, claim, policy, involved, now)));
    ids := SortedIds(w, qualified);
    if stale { return ids, Some(ClosureRootTimeOrRevocationInvalid); }
    if Principals(qualified) != (set p | p in claim.observers) { return ids, Some(ClosureSignerMismatch); }
    if |qualified| < policy.outcomeObserverThreshold { return ids, Some(OutcomeObserverThresholdNotMet); }
    reason := None;
  }

  /******* Evidence *******/

  datatype EvidenceResolver =
    | NoEvidence
    | EvidenceFrom(resolve: (Digest, EvidenceSource, Time) -> Option<Bytes>)

  function AttemptDigests(a: EffectAttempt): seq<Digest> {
    [a.beforeState, a.afterState, a.providerEvent, a.observerEvidence]
  }

  function DigestsOfAttempts(attempts: seq<EffectAttempt>): seq<Digest> {
    if attempts == [] then []
    else DigestsOfAttempts(attempts[..|attempts| - 1]) + AttemptDigests(attempts[|attempts| - 1])
  }

  function DigestsOfUnresolved(unresolved: seq<Unresolved>): seq<Digest> {
    if unresolved == [] then []
    else
      var last := unresolved[|unresolved| - 1].observerEvidence;
      DigestsOfUnresolved(unresolved[..|unresolved| - 1]) + if last.Some? then [last.value] else []
  }

  /** Everything the closure claims to have seen, in the order it is looked up. */
  function EvidenceDigests(claim: ClosurePredicate): seq<Digest> {
    [claim.source.sourceEvent] + DigestsOfAttempts(claim.reconciliation.attempts)
    + DigestsOfUnresolved(claim.reconciliation.unresolved)
  }

  function EvidenceProblem(
      w: World, claim: ClosurePredicate, resolver: EvidenceResolver, digest: Digest,
      now: Time): (r: Option<ClosureReason>)
    requires resolver.EvidenceFrom?
    ensures r.Some? ==> IsUnknownReasonOfClosure(r.value)
  {
    var raw := resolver.resolve(digest, claim.source, now);
    if raw.None? then Some(EvidenceBytesUnavailable)
    else if w.sha256(raw.value) != digest then Some(EvidenceDigestMismatch)
    else None
  }

  function FirstProblem(
      w: World, claim: ClosurePredicate, resolver: EvidenceResolver, digests: seq<Digest>,
      now: Time): (r: Option<ClosureReason>)
    requires resolver.EvidenceFrom?
    ensures r.Some? ==> IsUnknownReasonOfClosure(r.value)
  {
    if digests == [] then None
    else
      var earlier := FirstProblem(w, claim, resolver, digests[..|digests| - 1], now);
      if earlier.Some? then earlier else EvidenceProblem(w, claim, resolver, digests[|digests| - 1], now)
  }

  function EvidenceObjection(
      w: World, claim: ClosurePredicate, resolver: EvidenceResolver, now: Time): (r: Option<ClosureReason>)
    ensures r.Some? ==> IsUnknownReasonOfClosure(r.value)
  {
    if claim.source.observedAt > now || claim.source.validUntil < now then Some(EvidenceSourceInvalid)
    else if resolver.NoEvidence? then Some(EvidenceBytesUnavailable)
    else FirstProblem(w, claim, resolver, EvidenceDigests(claim), now)
  }

  /** The two collecting loops at the start of the method below. */
  method CollectEvidenceDigests(claim: ClosurePredicate) returns (digests: seq<Digest>)
    ensures digests == EvidenceDigests(claim)
  {
    hide AttemptDigests;
    digests := [claim.source.sourceEvent];
    var attempts, unresolved := claim.reconciliation.attempts, claim.reconciliation.unresolved;
    for i := 0 to |attempts|
      invariant digests == [claim.source.sourceEvent] + DigestsOfAttempts(attempts[..i])
    {
      assert attempts[..i + 1][..i] == attempts[..i];
      digests := digests + AttemptDigests(attempts[i]);
    }
    assert attempts[..|attempts|] == attempts;
    for i := 0 to |unresolved|
      invariant digests == [claim.source.sourceEvent] + DigestsOfAttempts(attempts)
                + DigestsOfUnresolved(unresolved[..i])
    {
      assert unresolved[..i + 1][..i] == unresolved[..i];
      if unresolved[i].observerEvidence.Some? { digests := digests + [unresolved[i].observerEvidence.value]; }
    }
    assert unresolved[..|unresolved|] == unresolved;
  }

  /** The source's loops: the digests are collected first, then looked up until one fails. */
  method ResolveOutcomeEvidence(
      w: World, claim: ClosurePredicate, resolver: EvidenceResolver, now: Time) returns (reason: Option<ClosureReason>)
    ensures reason == EvidenceObjection(w, claim, resolver, now)
  {
    hide EvidenceProblem, EvidenceDigests;
    var source := claim.source;
    if source.observedAt > now || source.validUntil < now { return Some(EvidenceSourceInvalid); }
    if resolver.NoEvidence? { return Some(EvidenceBytesUnavailable); }
    var digests := CollectEvidenceDigests(claim);
    for i := 0 to |digests|
      invariant FirstProblem(w, claim, resolver, digests[..i], now) == None
    {
      assert digests[..i + 1][..i] == digests[..i];
      var problem := EvidenceProblem(w, claim, resolver, digests[i], now);
      if problem.Some? {
        ProblemsAreNotForgotten(w, claim, resolver, digests, now, i + 1);
        return problem;
      }
    }
    assert digests[..|digests|] == digests;
    reason := None;
  }

  lemma {:induction false} ProblemsAreNotForgotten(
      w: World, claim: ClosurePredicate, resolver: EvidenceResolver, digests: seq<Digest>, now: Time, n: nat)
    requires resolver.EvidenceFrom? && n <= |digests|
    requires FirstProblem(w, claim, resolver, digests[..n], now).Some?
    ensures FirstProblem(w, claim, resolver, digests, now) == FirstProblem(w, claim, resolver, digests[..n], now)
    decreases |digests|
  {
    if n == |digests| {
      assert digests[..n] == digests;
    } else {
      assert digests[..|digests| - 1][..n] == digests[..n];
      ProblemsAreNotForgotten(w, claim, resolver, digests[..|digests| - 1], now, n);
    }
  }

  /** No objection means that every digest in the closure was backed by bytes with that digest. */
  lemma {:induction false} EvidenceBacksEveryDigest(
      w: World, claim: ClosurePredicate, resolver: EvidenceResolver, digests: seq<Digest>, now: Time)
    requires resolver.EvidenceFrom?
    ensures FirstProblem(w, claim, resolver, digests, now).None? <==>
            forall d :: d in digests ==>
              && resolver.resolve(d, claim.source, now).Some?
              && w.sha256(resolver.resolve(d, claim.source, now).value) == d
  {
    if digests != [] {
      var n := |digests| - 1;
      EvidenceBacksEveryDigest(w, claim, resolver, digests[..n], now);
      assert digests == digests[..n] + [digests[n]];
    }
  }

  /******* The verdict on the observed attempts *******/

  function Successes(attempts: seq<EffectAttempt>): nat {
    if attempts == [] then 0
    else Successes(attempts[..|attempts| - 1]) + if attempts[|attempts| - 1].status == Succeeded then 1 else 0
  }

  /** A verdict to record, or a status and reason that end the verification. */
  datatype Judgement = Terminal(verdict: Verdict) | Halt(status: Verdict, reason: ClosureReason)
  {
    /** The status and the reason are ones the result model accepts together. */
    predicate Fits() {
      Halt? ==>
        || (status == Undecided && IsUnknownReasonOfClosure(reason))
        || (status == UnsafeSuccess && IsUnsafeReason(reason))
    }
  }

  function Judge(r: Reconciliation): Judgement {
    var successes := Successes(r.attempts);
    if successes > r.expectedCount then Halt(UnsafeSuccess, DuplicateEffectSuccess)
    else if r.unresolved != [] then
      if successes > 0 then Halt(UnsafeSuccess, UnsafeUnresolvedEffect)
      else Halt(Undecided, EffectReconciliationUnresolved)
    else if |r.attempts| + |r.unresolved| != r.expectedCount then
      if successes > 0 then Halt(UnsafeSuccess, EffectCountMismatch)
      else Halt(Undecided, EffectCoverageIncomplete)
    else if successes == r.expectedCount && (forall a :: a in r.attempts ==> a.terminal == Committed) then
      Terminal(Pass)
    else if successes == 0 && |r.attempts| == r.expectedCount
            && (forall a :: a in r.attempts ==> a.status == Failed && a.terminal in {Rejected, NotApplied}) then
      Terminal(Fail)
    else if successes > 0 then Halt(UnsafeSuccess, EffectTerminalInvalid)
    else Halt(Undecided, EffectTerminalInvalid)
  }

  lemma {:induction false} SuccessesAreBounded(attempts: seq<EffectAttempt>)
    ensures Successes(attempts) <= |attempts|
    ensures Successes(attempts) == |attempts| <==> forall i :: 0 <= i < |attempts| ==> attempts[i].status == Succeeded
    ensures Successes(attempts) == 0 <==> forall i :: 0 <= i < |attempts| ==> attempts[i].status == Failed
  {
    if attempts != [] {
      var n := |attempts| - 1;
      SuccessesAreBounded(attempts[..n]);
      assert forall i :: 0 <= i < n ==> attempts[..n][i].status == attempts[i].status;
    }
  }

  /** All expected effects have an attempt, nothing is unresolved, and some but not all succeeded. */
  ghost predicate CoveredMix(r: Reconciliation) {
    r.unresolved == [] && |r.attempts| == r.expectedCount && 0 < Successes(r.attempts) < r.expectedCount
  }

  /**
   PASS exactly when every expected effect was attempted and succeeded, FAIL exactly when
   every one was attempted and failed; anything else with a success in it is unsafe and
   anything else without one is undecided. The last branch of the source is dead.
   */
  lemma VerdictIsExact(r: Reconciliation)
    requires ReconciliationValid(r)
    ensures Judge(r) == Terminal(Pass)
            <==> r.unresolved == [] && Successes(r.attempts) == |r.attempts| == r.expectedCount
    ensures Judge(r) == Terminal(Fail)
            <==> r.unresolved == [] && Successes(r.attempts) == 0 && |r.attempts| == r.expectedCount
    ensures Judge(r).Terminal? ==> Judge(r).verdict in {Pass, Fail}
    ensures Judge(r).Halt? ==> Judge(r).status == if Successes(r.attempts) > 0 then UnsafeSuccess else Undecided
    ensures Judge(r) != Halt(Undecided, EffectTerminalInvalid)
    ensures Judge(r) == Halt(UnsafeSuccess, EffectTerminalInvalid) <==> CoveredMix(r)
    ensures Judge(r).Fits() <==> !CoveredMix(r)
  {
    SuccessesAreBounded(r.attempts);
    forall a | a in r.attempts ensures AttemptValid(a) {}
  }

  /** Two effects expected, the first succeeded, the second failed. */
  function OneOfTwo(x: Id, y: Id, intent: Digest, digest: Digest): Reconciliation {
    Reconciliation(
      x, x, intent, x, 2,
      [ EffectAttempt(x, x, x, x, intent, x, Succeeded, Committed, Some(x), digest, digest, digest, digest),
        EffectAttempt(y, y, x, x, intent, x, Failed, Rejected, None, digest, digest, digest, digest) ],
      [])
  }

  /** This is legal to claim, and no result can be built for it. */
  lemma OneOfTwoSucceeded(x: Id, y: Id, intent: Digest, digest: Digest)
    requires x != y
    ensures var r := OneOfTwo(x, y, intent, digest);
            && ReconciliationValid(r) && CoveredMix(r)
            && Judge(r) == Halt(UnsafeSuccess, EffectTerminalInvalid) && !Judge(r).Fits()
  {
    var r := OneOfTwo(x, y, intent, digest);
    assert r.attempts[..1] == [r.attempts[0]] && [r.attempts[0]][..0] == [];
    assert Successes([r.attempts[0]]) == 1 && Successes(r.attempts) == 1;
    VerdictIsExact(r);
  }

  /******* The guards *******/

  predicate AnySuccess(r: Reconciliation) { exists a :: a in r.attempts && a.status == Succeeded }

  /** With a success on record a failed guard makes the outcome unsafe; otherwise it is undecided. */
  function Either(r: Reconciliation, unsafe: ClosureReason, unknown: ClosureReason): (j: Judgement)
    requires IsUnsafeReason(unsafe) && IsUnknownReasonOfClosure(unknown)
    ensures j.Halt? && j.Fits()
  {
    if AnySuccess(r) then Halt(UnsafeSuccess, unsafe) else Halt(Undecided, unknown)
  }

  function CertificateOf(w: World, a: ClosureAttempt, claim: ClosurePredicate): Handoff<CertificatePredicate>
    requires WorldValid(w) && PolicyValid(a.policy)
  {
    CertificateHandoff(w, a.certificateEnvelope, a.certificateResult, claim.certificateRef, a.policy, a.now)
  }

  function ReceiptOf(w: World, a: ClosureAttempt, claim: ClosurePredicate): Handoff<ReceiptStatement>
    requires WorldValid(w) && PolicyValid(a.policy)
  {
    ReceiptHandoff(w, a.receiptEnvelope, a.receiptResult, claim.receiptRef, a.policy, a.now)
  }

  /** The guards on the evidence and on what the caller expects. */
  function BindingObjection(w: World, a: ClosureAttempt, s: ClosureStatement): (j: Option<Judgement>)
    ensures j.Some? ==> j.value.Halt? && j.value.Fits()
  {
    var evidence := EvidenceObjection(w, s.claim, a.resolver, a.now);
    if evidence.Some? then Some(Halt(Undecided, evidence.value))
    else if ExpectedOutcomeFor(s, a.expected.humanKeys, a.expected.executorKeys) != a.expected then
      Some(Either(s.claim.reconciliation, EffectBindingMismatch, ClosureBindingMismatch))
    else None
  }

  /** The guards on the two results taken over. */
  function TakeoverObjection(
      r: Reconciliation, certificate: Handoff<CertificatePredicate>,
      receipt: Handoff<ReceiptStatement>): (j: Option<Judgement>)
    requires certificate.Untrusted? ==> certificate.reason in {ActionAcceptanceUnknown, ActionHandoffUntrusted}
    requires receipt.Untrusted? ==> receipt.reason in {ReceiptAcceptanceUnknown, ReceiptHandoffUntrusted}
    ensures j.Some? ==> j.value.Halt? && j.value.Fits()
    ensures j.None? <==> certificate.Trusted? && receipt.Trusted?
  {
    if certificate.Untrusted? then
      if certificate.reason == ActionAcceptanceUnknown then Some(Either(r, ActionUnsafe, ActionAcceptanceUnknown))
      else Some(Halt(Undecided, certificate.reason))
    else if receipt.Untrusted? then
      if receipt.reason == ReceiptAcceptanceUnknown then Some(Either(r, ReceiptUnsafe, ReceiptAcceptanceUnknown))
      else Some(Halt(Undecided, receipt.reason))
    else None
  }

  /** The guards before the observers are checked a second time. */
  function HandoffObjection(w: World, a: ClosureAttempt, s: ClosureStatement): (j: Option<Judgement>)
    requires WorldValid(w) && PolicyValid(a.policy)
    ensures j.Some? ==> j.value.Halt? && j.value.Fits()
    ensures j.None? ==> CertificateOf(w, a, s.claim).Trusted? && ReceiptOf(w, a, s.claim).Trusted?
  {
    if BindingObjection(w, a, s).Some? then BindingObjection(w, a, s)
    else TakeoverObjection(s.claim.reconciliation, CertificateOf(w, a, s.claim), ReceiptOf(w, a, s.claim))
  }

  predicate LinksAgree(claim: ClosurePredicate, action: CertificatePredicate, receipt: ReceiptPredicate) {
    var r := claim.reconciliation;
    && action.tenant == claim.tenant
    && action.subject.subjectId == claim.caseId
    && action.context.requestId == claim.executionId
    && claim.attemptId == receipt.attempt.attemptId
    && action.effect.effectType == r.effectType
    && action.effect.target == r.target
    && claim.certificateRef.intent == r.intent
    && action.effect.idempotencyKey == r.idempotencyKey
    && receipt.tenant == claim.tenant
    && receipt.caseId == claim.caseId
    && receipt.executionId == claim.executionId
    && receipt.taskId == claim.taskId
    && receipt.certificateRef == claim.certificateRef
    && receipt.effect.effectType == r.effectType
    && receipt.effect.target == r.target
    && receipt.effect.intent == r.intent
    && receipt.effect.idempotencyKey == r.idempotencyKey
  }

  /** Authorization, reservation, execution, receipt, observation and closure in this order, all in time. */
  predicate WindowHolds(claim: ClosurePredicate, action: CertificatePredicate, receipt: ReceiptPredicate, now: Time) {
    && action.notBefore <= claim.certificateRef.verificationAt <= claim.certificateRef.reservedAt
       <= receipt.attempt.startedAt <= receipt.issuedAt <= claim.source.observedAt <= claim.issuedAt <= now
    && claim.issuedAt <= claim.source.validUntil
    && claim.certificateRef.reservedAt < action.expiresAt
    && claim.issuedAt < action.expiresAt
    && action.expiresAt <= action.policy.expiresAt
    && claim.source.observedAt <= claim.source.validUntil
    && receipt.issuedAt < action.expiresAt
  }

  /** The guards after the handoff, ending in the verdict on the attempts. */
  function LinkJudgement(
      claim: ClosurePredicate, action: CertificatePredicate, receipt: ReceiptPredicate, now: Time): Judgement
  {
    if !LinksAgree(claim, action, receipt) then
      Either(claim.reconciliation, EffectBindingMismatch, EffectBindingUnknown)
    else if !WindowHolds(claim, action, receipt, now) then
      Either(claim.reconciliation, OutcomeWindowUnsafe, ClosureTimeInvalid)
    else Judge(claim.reconciliation)
  }

  /** What the guards conclude about a parsed closure, and the observers shown with it. */
  function Examine(w: World, a: ClosureAttempt, e: Envelope, s: ClosureStatement): (Judgement, seq<Id>)
    requires WorldValid(w) && PolicyValid(a.policy)
  {
    var roots := VerifiedRoots(w, e, a.policy.roots);
    var first := OutcomeObservers(w, roots, s.claim, a.policy, InvolvedIn(w, a, s.claim, None, None), a.now);
    if first.1.Some? then (Halt(Undecided, first.1.value), first.0)
    else if HandoffObjection(w, a, s).Some? then (HandoffObjection(w, a, s).value, first.0)
    else
      var action, receipt := CertificateOf(w, a, s.claim).value, ReceiptOf(w, a, s.claim).value;
      var second := OutcomeObservers(w, roots, s.claim, a.policy,
                                     InvolvedIn(w, a, s.claim, Some(action), Some(receipt)), a.now);
      if second.1.Some? then (Halt(Undecided, second.1.value), second.0)
      else (LinkJudgement(s.claim, action, receipt.claim, a.now), second.0)
  }

  datatype ClosureAdmission =
    | Stopped(result: ClosureResult)
    | Ready(statement: ClosureStatement, payload: Digest, envelope: Digest, observerRoots: seq<Id>, verdict: Verdict)

  function ResultFor(
      claim: ClosurePredicate, payload: Digest, envelope: Digest, status: Verdict, reason: ClosureReason,
      ids: seq<Id>, recorded: bool): ClosureResult
  {
    ClosureResult(
      status, [reason], Some(claim.closureId), Some(payload), envelope, ids, recorded, Some(claim.attemptId),
      Some(claim.sequence), claim.previous, Some(claim.reconciliation.expectedCount),
      Some(Successes(claim.reconciliation.attempts)), Some(|claim.reconciliation.unresolved|))
  }

  function ReadClosure(w: World, a: ClosureAttempt): (r: Reading<ClosureReason, ClosureStatement>)
    requires WorldValid(w) && PolicyValid(a.policy)
    ensures r.Unread? ==> IsUnknownReasonOfClosure(r.reason)
    ensures r.Read? ==> EnvelopeValid(r.envelope) && ClosureValid(r.statement)
                        && w.parseEnvelope(a.envelope) == Some(r.envelope)
                        && w.parseClosure(r.envelope.payload) == Some(r.statement)
  {
    if |a.envelope| > MAX_ENVELOPE_BYTES then Unread(ClosureEnvelopeTooLarge, None)
    else if w.parseEnvelope(a.envelope).None? then Unread(ClosureEnvelopeInvalid, None)
    else
      var e := w.parseEnvelope(a.envelope).value;
      if |e.payload| > MAX_PAYLOAD_BYTES then Unread(ClosurePayloadTooLarge, None)
      else if VerifiedRoots(w, e, a.policy.roots) == [] then Unread(ClosureSignatureInvalid, Some(w.sha256(e.payload)))
      else if w.parseClosure(e.payload).None? then Unread(ClosurePayloadInvalid, Some(w.sha256(e.payload)))
      else Read(e, w.parseClosure(e.payload).value)
  }

  function AdmitClosure(w: World, a: ClosureAttempt): ClosureAdmission
    requires WorldValid(w) && PolicyValid(a.policy)
  {
    match ReadClosure(w, a)
    case Unread(reason, payload) =>
      Stopped(ClosureResult(Undecided, [reason], None, payload, w.sha256(a.envelope), [], false,
                            None, None, None, None, None, None))
    case Read(e, s) =>
      var (judgement, ids) := Examine(w, a, e, s);
      Conclude(s, w.sha256(e.payload), w.sha256(a.envelope), judgement, ids)
  }

  function Conclude(
      s: ClosureStatement, payload: Digest, envelope: Digest, judgement: Judgement, ids: seq<Id>): ClosureAdmission
  {
    match judgement
    case Halt(status, reason) => Stopped(ResultFor(s.claim, payload, envelope, status, reason, ids, false))
    case Terminal(verdict) => Ready(s, payload, envelope, ids, verdict)
  }

  function CallFor(s: ClosureStatement, payload: Digest): OX.Call {
    var claim := s.claim;
    OX.Call(claim.tenant, claim.closureId, claim.executionId, claim.attemptId, claim.sequence, claim.previous,
            payload, claim.reconciliation.idempotencyKey, claim.reconciliation.intent)
  }

  function SettleClosure(a: ClosureAdmission, status: OX.Status): ClosureResult
    requires a.Ready?
  {
    var claim := a.statement.claim;
    match status
    case Appended =>
      ResultFor(claim, a.payload, a.envelope, a.verdict, if a.verdict == Pass then PassVerified else FailVerified,
                a.observerRoots, true)
    case AlreadyPresent =>
      ResultFor(claim, a.payload, a.envelope, a.verdict,
                if a.verdict == Pass then PassAlreadyPresent else FailAlreadyPresent, a.observerRoots, true)
    case ClosureIdConflict => NotRecorded(a, ClosureReason.ClosureIdConflict)
    case AttemptSequenceConflict => NotRecorded(a, ClosureReason.AttemptSequenceConflict)
    case PreviousDigestConflict => NotRecorded(a, ClosureReason.PreviousDigestConflict)
    case IdempotencyConflict => NotRecorded(a, ClosureIdempotencyConflict)
    case Unavailable => NotRecorded(a, OutcomeIndexUnavailable)
  }

  function NotRecorded(a: ClosureAdmission, reason: ClosureReason): ClosureResult
    requires a.Ready?
  {
    ResultFor(a.statement.claim, a.payload, a.envelope, Undecided, reason, a.observerRoots, false)
  }

  /** The result the verifier assembles, given the closures already recorded. */
  ghost function Assembled(w: World, a: ClosureAttempt, log: seq<OX.Call>, capacity: int): ClosureResult
    requires WorldValid(w) && PolicyValid(a.policy)
  {
    var admission := AdmitClosure(w, a);
    if admission.Stopped? then admission.result
    else SettleClosure(admission, OX.Answer(log, capacity, CallFor(admission.statement, admission.payload)))
  }

  /** A result model rejects what its validator does not accept: the verifier then raises. */
  datatype Outcome = Returned(result: ClosureResult) | ValidationRaised

  function Built(r: ClosureResult): Outcome { if ClosureResultClosed(r) then Returned(r) else ValidationRaised }

  method VerifyOutcomeClosure(
      w: World, a: ClosureAttempt, index: OX.InMemoryOutcomeClosureIndex) returns (outcome: Outcome)
    requires WorldValid(w) && PolicyValid(a.policy) && index.Valid()
    modifies index
    ensures index.Valid()
    ensures outcome == Built(Assembled(w, a, old(index.log), index.capacity))
    ensures index.log == if AdmitClosure(w, a).Ready?
                         then After(old(index.log), OX.Appends(index.capacity),
                                    CallFor(AdmitClosure(w, a).statement, AdmitClosure(w, a).payload))
                         else old(index.log)
    ensures index.log == old(index.log) ==> index.Contents() == old(index.Contents())
  {
    var admission := AdmitClosure(w, a);
    if admission.Stopped? { return Built(admission.result); }
    var status := index.AppendOnce(CallFor(admission.statement, admission.payload));
    outcome := Built(SettleClosure(admission, status));
  }

  /******* What the guards let through *******/

  /** Every guard before the verdict passes. */
  ghost predicate GuardsPass(w: World, a: ClosureAttempt, e: Envelope, s: ClosureStatement)
    requires WorldValid(w) && PolicyValid(a.policy)
  {
    var roots := VerifiedRoots(w, e, a.policy.roots);
    && OutcomeObservers(w, roots, s.claim, a.policy, InvolvedIn(w, a, s.claim, None, None), a.now).1.None?
    && HandoffObjection(w, a, s).None?
    && var action, receipt := CertificateOf(w, a, s.claim).value, ReceiptOf(w, a, s.claim).value;
    && OutcomeObservers(w, roots, s.claim, a.policy, InvolvedIn(w, a, s.claim, Some(action), Some(receipt)),
                        a.now).1.None?
    && LinksAgree(s.claim, action, receipt.claim)
    && WindowHolds(s.claim, action, receipt.claim, a.now)
  }

  /** The verdict on the attempts is what the guards conclude exactly when all of them pass. */
  lemma GuardsLeadToTheVerdict(w: World, a: ClosureAttempt, e: Envelope, s: ClosureStatement)
    requires WorldValid(w) && PolicyValid(a.policy)
    ensures GuardsPass(w, a, e, s) ==> Examine(w, a, e, s).0 == Judge(s.claim.reconciliation)
    ensures !GuardsPass(w, a, e, s) ==> Examine(w, a, e, s).0.Halt? && Examine(w, a, e, s).0.Fits()
  {
  }

  lemma {:induction false} SelectionsAgree<T, P, Q>(l: Labels<T, P, Q>, s: seq<T>, one: T -> bool, other: T -> bool)
    requires forall i :: 0 <= i < |s| ==> one(s[i]) == other(s[i])
    ensures Select(l, s, one) == Select(l, s, other)
  {
    if s != [] { SelectionsAgree(l, s[..|s| - 1], one, other); }
  }

  /** With more parties known, a signer turns out to be one of them, or nothing changes. */
  lemma MoreInvolvedOrTheSame(
      w: World, roots: seq<TrustRoot>, claim: ClosurePredicate, policy: TrustPolicy, few: Involved,
      more: Involved, now: Time)
    requires few.principals <= more.principals && few.keys <= more.keys
    requires OutcomeObservers(w, roots, claim, policy, few, now).1.None?
    ensures var second := OutcomeObservers(w, roots, claim, policy, more, now);
            if Occurs(roots, JudgeStanding(w, claim, policy, more, now), Conflicted)
            then second == ([], Some(ClosureSelfObservation))
            else second == OutcomeObservers(w, roots, claim, policy, few, now)
  {
    var first, second := JudgeStanding(w, claim, policy, few, now), JudgeStanding(w, claim, policy, more, now);
    forall i | 0 <= i < |roots|
      ensures second(roots[i]) == first(roots[i]) || second(roots[i]) == Conflicted
    {
      assert first(roots[i]) != Undeclared && first(roots[i]) != Conflicted;
    }
    if !Occurs(roots, second, Conflicted) {
      assert forall i :: 0 <= i < |roots| ==> second(roots[i]) == first(roots[i]);
      SelectionsAgree(RootLabels(w), roots, Judges(w, claim, policy, few, now), Judges(w, claim, policy, more, now));
    }
  }

  /** The parties that only the accepted certificate and receipt make known. */
  function LaterParties(action: CertificatePredicate, receipt: ReceiptStatement): set<Id> {
    {action.human.id, action.workload.id} + (set p | p in receipt.claim.observers)
  }

  /**
   The verifier checks the observers before and after it knows the accepted certificate and
   receipt. Once the first check passes, the second finds exactly the same observers, or, when
   a declared observer is one of the parties now known, that the action was judged by itself.
   */
  lemma SecondPassConfirmsTheFirst(
      w: World, a: ClosureAttempt, roots: seq<TrustRoot>, claim: ClosurePredicate, action: CertificatePredicate,
      receipt: ReceiptStatement)
    requires OutcomeObservers(w, roots, claim, a.policy, InvolvedIn(w, a, claim, None, None), a.now).1.None?
    ensures var first := OutcomeObservers(w, roots, claim, a.policy, InvolvedIn(w, a, claim, None, None), a.now);
            var second :=
              OutcomeObservers(w, roots, claim, a.policy, InvolvedIn(w, a, claim, Some(action), Some(receipt)), a.now);
            second == if exists p :: p in claim.observers && p in LaterParties(action, receipt)
                      then ([], Some(ClosureSelfObservation)) else first
  {
    var few, more := InvolvedIn(w, a, claim, None, None), InvolvedIn(w, a, claim, Some(action), Some(receipt));
    MoreInvolvedOrTheSame(w, roots, claim, a.policy, few, more, a.now);
    SelfObservedIff(w, a, roots, claim, action, receipt);
  }

  lemma SelfObservedIff(
      w: World, a: ClosureAttempt, roots: seq<TrustRoot>, claim: ClosurePredicate, action: CertificatePredicate,
      receipt: ReceiptStatement)
    requires OutcomeObservers(w, roots, claim, a.policy, InvolvedIn(w, a, claim, None, None), a.now).1.None?
    ensures Occurs(roots,
                   JudgeStanding(w, claim, a.policy, InvolvedIn(w, a, claim, Some(action), Some(receipt)), a.now),
                   Conflicted)
            <==> exists p :: p in claim.observers && p in LaterParties(action, receipt)
  {
    hide MayClose, NamedPrincipals, NamedKeys;
    var few, more := InvolvedIn(w, a, claim, None, None), InvolvedIn(w, a, claim, Some(action), Some(receipt));
    var first := JudgeStanding(w, claim, a.policy, few, a.now);
    var second := JudgeStanding(w, claim, a.policy, more, a.now);
    var later := LaterParties(action, receipt);
    assert forall r :: IsInvolved(w, r, more) <==> IsInvolved(w, r, few) || r.principal in later;
    assert forall i :: 0 <= i < |roots| ==> first(roots[i]) != Conflicted;
    assert forall i :: 0 <= i < |roots| && second(roots[i]) == Conflicted ==>
      roots[i].principal in claim.observers && roots[i].principal in LaterParties(action, receipt);
    if p :| p in claim.observers && p in LaterParties(action, receipt) {
      var chosen := Chosen(w, roots, Judges(w, claim, a.policy, few, a.now));
      assert p in Principals(chosen);
      var r :| r in chosen && r.principal == p;
      SelectionIsIndependent(RootLabels(w), roots, Judges(w, claim, a.policy, few, a.now));
      var i :| 0 <= i < |roots| && roots[i] == r;
      assert second(roots[i]) == Conflicted;
    }
  }

  /** At most as many observers are named as the closure declares, each of them once. */
  lemma ObserverIdsFit(w: World, a: ClosureAttempt, e: Envelope, claim: ClosurePredicate, involved: Involved)
    requires WorldValid(w) && PolicyValid(a.policy)
    ensures var (ids, reason) :=
              OutcomeObservers(w, VerifiedRoots(w, e, a.policy.roots), claim, a.policy, involved, a.now);
            Distinct(ids) && |ids| <= |claim.observers| && (reason.None? ==> ids != [])
  {
    var roots, eligible := VerifiedRoots(w, e, a.policy.roots), Judges(w, claim, a.policy, involved, a.now);
    DeclaredSignersAreFew(w, roots, eligible, claim.observers);
    SortedIdsAreNoMore(w, Chosen(w, roots, eligible));
  }

  lemma ExaminedIdsFit(w: World, a: ClosureAttempt, e: Envelope, s: ClosureStatement)
    requires WorldValid(w) && PolicyValid(a.policy)
    ensures var (judgement, ids) := Examine(w, a, e, s);
            Distinct(ids) && |ids| <= |s.claim.observers| && (judgement.Terminal? ==> ids != [])
  {
    hide OutcomeObservers, VerifiedRoots, LinkJudgement;
    ObserverIdsFit(w, a, e, s.claim, InvolvedIn(w, a, s.claim, None, None));
    if HandoffObjection(w, a, s).None? {
      var action, receipt := CertificateOf(w, a, s.claim).value, ReceiptOf(w, a, s.claim).value;
      ObserverIdsFit(w, a, e, s.claim, InvolvedIn(w, a, s.claim, Some(action), Some(receipt)));
    }
  }

  /** A result about a valid closure is closed exactly when its status and reason go together. */
  lemma HaltedResultIsClosedIff(s: ClosureStatement, payload: Digest, envelope: Digest, j: Judgement, ids: seq<Id>)
    requires ClosureValid(s) && j.Halt? && Distinct(ids) && |ids| <= MAX_RESULT_ROOTS
    requires j.status in {Undecided, UnsafeSuccess}
    ensures ClosureResultClosed(ResultFor(s.claim, payload, envelope, j.status, j.reason, ids, false)) <==> j.Fits()
  {
    SuccessesAreBounded(s.claim.reconciliation.attempts);
    var r := ResultFor(s.claim, payload, envelope, j.status, j.reason, ids, false);
    assert j.reason in r.reasons;
  }

  lemma NotRecordedIsClosed(a: ClosureAdmission, reason: ClosureReason)
    requires a.Ready? && ClosureValid(a.statement) && IsUnknownReasonOfClosure(reason)
    requires Distinct(a.observerRoots) && |a.observerRoots| <= MAX_RESULT_ROOTS
    ensures ClosureResultClosed(NotRecorded(a, reason))
  {
    SuccessesAreBounded(a.statement.claim.reconciliation.attempts);
  }

  lemma SettledResultIsClosed(a: ClosureAdmission, status: OX.Status)
    requires a.Ready? && ClosureValid(a.statement) && a.verdict in {Pass, Fail}
    requires Distinct(a.observerRoots) && 1 <= |a.observerRoots| <= MAX_RESULT_ROOTS
    ensures ClosureResultClosed(SettleClosure(a, status))
  {
    match status
    case Appended => SuccessesAreBounded(a.statement.claim.reconciliation.attempts);
    case AlreadyPresent => SuccessesAreBounded(a.statement.claim.reconciliation.attempts);
    case ClosureIdConflict => NotRecordedIsClosed(a, ClosureReason.ClosureIdConflict);
    case AttemptSequenceConflict => NotRecordedIsClosed(a, ClosureReason.AttemptSequenceConflict);
    case PreviousDigestConflict => NotRecordedIsClosed(a, ClosureReason.PreviousDigestConflict);
    case IdempotencyConflict => NotRecordedIsClosed(a, ClosureIdempotencyConflict);
    case Unavailable => NotRecordedIsClosed(a, OutcomeIndexUnavailable);
  }

  function Settled(admission: ClosureAdmission, status: OX.Status): ClosureResult {
    if admission.Stopped? then admission.result else SettleClosure(admission, status)
  }

  lemma ConcludedResultIsClosedIff(
      s: ClosureStatement, payload: Digest, envelope: Digest, j: Judgement, ids: seq<Id>, status: OX.Status)
    requires ClosureValid(s) && Distinct(ids) && |ids| <= MAX_RESULT_ROOTS
    requires if j.Terminal? then ids != [] && j.verdict in {Pass, Fail} else j.status in {Undecided, UnsafeSuccess}
    ensures ClosureResultClosed(Settled(Conclude(s, payload, envelope, j, ids), status)) <==> j.Fits()
  {
    if j.Halt? {
      HaltedResultIsClosedIff(s, payload, envelope, j, ids);
    } else {
      SettledResultIsClosed(Conclude(s, payload, envelope, j, ids), status);
    }
  }

  /**
   The verifier returns a result for every input but one family: it raises exactly when every
   guard passes and the closure covers all expected effects with some successes and some
   failures. The reason it then reports is not one its own result model admits.
   */
  lemma TotalExceptCoveredMix(w: World, a: ClosureAttempt, log: seq<OX.Call>, capacity: int)
    requires WorldValid(w) && PolicyValid(a.policy)
    ensures Built(Assembled(w, a, log, capacity)) == ValidationRaised <==>
            var reading := ReadClosure(w, a);
            reading.Read? && GuardsPass(w, a, reading.envelope, reading.statement)
            && CoveredMix(reading.statement.claim.reconciliation)
  {
    hide Examine, GuardsPass, SettleClosure, Judge, CoveredMix;
    match ReadClosure(w, a)
    case Unread(reason, payload) =>
    case Read(e, s) =>
      var (judgement, ids) := Examine(w, a, e, s);
      GuardsLeadToTheVerdict(w, a, e, s);
      ExaminedIdsFit(w, a, e, s);
      VerdictIsExact(s.claim.reconciliation);
      var admission := AdmitClosure(w, a);
      var status := if admission.Ready?
                    then OX.Answer(log, capacity, CallFor(admission.statement, admission.payload)) else OX.Appended;
      ConcludedResultIsClosedIff(s, w.sha256(e.payload), w.sha256(a.envelope), judgement, ids, status);
  }
}
