/**
 Verification of an execution receipt: the accepted certificate it builds on is checked
 again from its own bytes, the observers are chosen, and the receipt is indexed.
 */
module ExecutionReceipt {
  import opened Basics
  import opened Decimal
  import opened LogIndex
  import opened Attestations
  import opened Selection
  import opened Signers
  import opened ActionCertificate
  import RX = ReceiptIndex

  /******* The certificate a receipt builds on *******/

  /** A reason that goes with the status of a refusal. */
  predicate FitsReceiptRefusal(status: VerificationStatus, reason: ReceiptReason) {
    match status
    case Accept => false
    case Reject => IsRejectReceiptReason(reason)
    case Unknown => IsUnknownReceiptReason(reason)
  }

  datatype Context =
    | Usable(statement: CertificateStatement)
    | Unusable(status: VerificationStatus, reason: ReceiptReason)

  /** The certificate behind the reference, if its bytes and its verification result are the referenced ones. */
  function CertificateContext(
      w: World, envelope: Bytes, result: CertificateResult, expected: CertificateReference): (c: Context)
    ensures c.Unusable? ==> FitsReceiptRefusal(c.status, c.reason)
  {
    if |envelope| > MAX_ENVELOPE_BYTES || w.parseEnvelope(envelope).None? then
      Unusable(Reject, CertificateReferenceMismatch)
    else
      var payload := w.parseEnvelope(envelope).value.payload;
      if || |payload| > MAX_PAYLOAD_BYTES
         || w.sha256(envelope) != expected.envelope
         || w.sha256(payload) != expected.payload
         || w.certificateResultDigest(result) != expected.verificationResult
         || result.certificateId != Some(expected.certificateId)
         || result.payload != Some(expected.payload)
      then Unusable(Reject, CertificateReferenceMismatch)
      else if result.status == Unknown then Unusable(Unknown, CertificateAcceptanceUnknown)
      else if result.status != Accept || !result.reserved then Unusable(Reject, CertificateNotAccepted)
      else if w.parseCertificate(payload).None? then Unusable(Reject, CertificateReferenceMismatch)
      else
        var s := w.parseCertificate(payload).value;
        if s.claim.certificateId != expected.certificateId || w.scopeDigest(ScopeOf(s)) != expected.intent
        then Unusable(Reject, CertificateReferenceMismatch)
        else Usable(s)
  }

  function RootsNamed(roots: seq<TrustRoot>, ids: seq<Id>): seq<TrustRoot>
    requires forall i :: 0 <= i < |ids| ==> ids[i] in RootsById(roots)
  {
    seq(|ids|, i requires 0 <= i < |ids| => RootsById(roots)[ids[i]])
  }

  /** Every signer has the role, and there are enough different principals and keys. */
  predicate RoleHolds(
      w: World, signers: seq<TrustRoot>, purpose: Purpose, claim: CertificatePredicate, policy: TrustPolicy,
      at: Time, approvers: Option<seq<Id>>, threshold: int)
  {
    && (forall r :: r in signers ==> MayCertify(r, purpose, claim, policy, at, approvers))
    && |Principals(signers)| >= threshold
    && |Fingerprints(w, signers)| >= threshold
  }

  /** The roots that authorized the action, established again from the result's root ids. */
  function AuthorityRoots(
      w: World, policy: TrustPolicy, result: CertificateResult, s: CertificateStatement, envelope: Bytes,
      at: Time): Option<seq<TrustRoot>>
    requires WorldValid(w) && PolicyValid(policy)
  {
    var ids := result.issuerRoots + result.approvalRoots;
    if !Distinct(ids) || result.issuerRoots == []
       || !(forall i :: 0 <= i < |ids| ==> ids[i] in RootsById(policy.roots))
    then None
    else if w.parseEnvelope(envelope).None? then None
    else
      var signed := Ids(VerifiedRoots(w, w.parseEnvelope(envelope).value, policy.roots));
      if !(forall i :: 0 <= i < |ids| ==> ids[i] in signed) then None
      else
        assert forall i :: 0 <= i < |result.issuerRoots| ==> result.issuerRoots[i] == ids[i];
        assert forall i :: 0 <= i < |result.approvalRoots| ==> result.approvalRoots[i] == ids[|result.issuerRoots| + i];
        var issuers := RootsNamed(policy.roots, result.issuerRoots);
        var approvers := RootsNamed(policy.roots, result.approvalRoots);
        var approval := s.claim.approval;
        if !RoleHolds(w, issuers, ActionIssuer, s.claim, policy, at, None, policy.issuerThreshold) then None
        else if approval.required
                && (|approvers| < policy.approvalThreshold
                    || !RoleHolds(w, approvers, HumanApproval, s.claim, policy, at, Some(approval.approvers),
                                  policy.approvalThreshold)) then None
        else if !approval.required && approvers != [] then None
        else if SelfApproved(w, s.claim, issuers, approvers) then None
        else Some(issuers + approvers)
  }

  /******* Observers *******/

  predicate MayObserve(w: World, root: TrustRoot, claim: ReceiptPredicate, policy: TrustPolicy) {
    && root.purpose == ExecutionObserver
    && root.tenant == claim.tenant
    && w.receiptAudience in root.audiences
    && ExecutionReceiptV01 in root.predicateTypes
    && root.principal in policy.executionObservers
    && root.executionScopes == ALL_EXECUTION_SCOPES
  }

  /** Who may not observe: the executor, the human, and whoever authorized the action. */
  datatype Parties = Parties(human: Id, authority: seq<TrustRoot>, keys: seq<Digest>)

  predicate ObservesItself(w: World, root: TrustRoot, claim: ReceiptPredicate, parties: Parties) {
    || root.principal == claim.executor.id
    || root.principal == parties.human
    || root.principal in Principals(parties.authority)
    || w.fingerprint(root.key) in Fingerprints(w, parties.authority)
    || w.fingerprint(root.key) in parties.keys
  }

  predicate CurrentThroughout(root: TrustRoot, from: Time, to: Time, skew: int) {
    IsCurrent(root, from, skew) && IsCurrent(root, to, skew)
  }

  function ObserverStanding(
      w: World, claim: ReceiptPredicate, policy: TrustPolicy, parties: Parties, now: Time): TrustRoot -> Standing
  {
    (root: TrustRoot) =>
      if !MayObserve(w, root, claim, policy) then Unfit
      else if root.principal !in claim.observers then Undeclared
      else if ObservesItself(w, root, claim, parties) then Conflicted
      else if !CurrentThroughout(root, claim.issuedAt, now, policy.skew) then Stale
      else Eligible
  }

  function EligibleObserver(
      w: World, claim: ReceiptPredicate, policy: TrustPolicy, parties: Parties, now: Time): TrustRoot -> bool
  {
    IsEligible(ObserverStanding(w, claim, policy, parties, now))
  }

  /** What one pass over the verified roots finds. */
  datatype Scan = Scan(observers: seq<TrustRoot>, stale: bool, selfObserved: bool, mismatch: bool)

  function ScanObservers(
      w: World, roots: seq<TrustRoot>, claim: ReceiptPredicate, policy: TrustPolicy, parties: Parties, now: Time): Scan
  {
    var standing := ObserverStanding(w, claim, policy, parties, now);
    Scan(
      Chosen(w, roots, EligibleObserver(w, claim, policy, parties, now)),
      Occurs(roots, standing, Stale),
      Occurs(roots, standing, Conflicted),
      Occurs(roots, standing, Undeclared))
  }

  /** The source's single loop: three flags and a dictionary by fingerprint. */
  method QualifyingObserverRoots(
      w: World, roots: seq<TrustRoot>, claim: ReceiptPredicate, policy: TrustPolicy, parties: Parties, now: Time)
    returns (observers: seq<TrustRoot>, stale: bool, selfObserved: bool, mismatch: bool)
    requires WorldValid(w)
    ensures var scan := ScanObservers(w, roots, claim, policy, parties, now);
            && ListsByFingerprint(w, observers, scan.observers)
            && (stale, selfObserved, mismatch) == (scan.stale, scan.selfObserved, scan.mismatch)
  {
    observers, mismatch, selfObserved, stale :=
      SelectDistinct(w, roots, ObserverStanding(w, claim, policy, parties, now));
  }

  /******* The guards *******/

  datatype ReceiptAttempt = ReceiptAttempt(
    envelope: Bytes, policy: TrustPolicy, expected: ExpectedExecution,
    certificateEnvelope: Bytes, certificateResult: CertificateResult, now: Time)

  datatype ReceiptAdmission =
    | ReceiptRefused(result: ReceiptResult)
    | ReceiptAdmitted(statement: ReceiptStatement, payload: Digest, envelope: Digest, observerRoots: seq<Id>)

  predicate PolicyAllowsReceipt(w: World, policy: TrustPolicy, expected: ExpectedExecution) {
    && expected.tenant in policy.tenants
    && expected.human.id in policy.humans
    && expected.executor.id in policy.workloads
    && w.receiptAudience in policy.audiences
    && ExecutionReceiptV01 in policy.predicateTypes
    && policy.executionObservers != []
  }

  predicate OutsideCertificateWindow(claim: ReceiptPredicate, action: CertificatePredicate, skew: int) {
    || claim.certificateRef.verificationAt + skew < action.notBefore
    || claim.certificateRef.verificationAt - skew >= action.expiresAt
    || claim.certificateRef.reservedAt + skew < action.notBefore
    || claim.certificateRef.reservedAt - skew >= action.expiresAt
    || claim.attempt.startedAt + skew < action.notBefore
    || claim.attempt.endedAt - skew >= action.expiresAt
  }

  /** The receipt reports the execution of exactly the certified action. */
  predicate ReportsTheAction(w: World, claim: ReceiptPredicate, s: CertificateStatement, human: Principal) {
    var action := s.claim;
    && action.tenant == claim.tenant
    && action.human == human
    && action.subject.subjectId == claim.caseId
    && action.workload == claim.executor
    && action.context.traceId == claim.traceId
    && action.context.requestId == claim.executionId
    && action.action.name == claim.operation.name
    && action.action.parameters == claim.operation.request
    && action.effect.effectType == claim.effect.effectType
    && action.effect.target == claim.effect.target
    && action.effect.request == claim.operation.request
    && action.effect.idempotencyKey == claim.effect.idempotencyKey
    && w.scopeDigest(ScopeOf(s)) == claim.effect.intent
    && IndexOf(s.subjects, SubjectName, SubjectDigest) == IndexOf(claim.inputs, ArtifactId, ArtifactDigest)
    && (action.resource.resourceType == w.artifactResource ==>
          exists i :: 0 <= i < |claim.outputs| && claim.outputs[i].id == action.resource.resourceId)
  }

  function ReceiptRefusal(
      status: VerificationStatus, reason: ReceiptReason, receipt: Option<Id>, payload: Option<Digest>,
      envelope: Digest, observers: seq<Id>): ReceiptResult
  {
    ReceiptResult(status, [reason], receipt, payload, envelope, observers, false,
                  NotObserved, NotObserved, NotObserved, NotObserved, NotObserved)
  }

  /** What a group of guards concludes. */
  datatype Finding = Refusal(status: VerificationStatus, reason: ReceiptReason) | Clear
  {
    predicate Fits() { Refusal? ==> FitsReceiptRefusal(status, reason) }
  }

  /** The guards on time, policy, the caller's binding and the certificate behind the receipt. */
  function BindingFinding(w: World, a: ReceiptAttempt, s: ReceiptStatement): (f: Finding)
    ensures f.Fits()
  {
    var claim := s.claim;
    var context := CertificateContext(w, a.certificateEnvelope, a.certificateResult, claim.certificateRef);
    if claim.issuedAt > a.now + a.policy.skew then Refusal(Reject, ReceiptTimeInvalid)
    else if !PolicyAllowsReceipt(w, a.policy, a.expected) then Refusal(Reject, ReceiptPolicyMismatch)
    else if ExpectedExecutionFor(s, a.expected.human, a.expected.executorKeys, a.expected.humanKeys) != a.expected then
      Refusal(Reject, ReceiptBindingMismatch)
    else if context.Unusable? then Refusal(context.status, context.reason)
    else if claim.certificateRef.reservedAt > claim.attempt.startedAt then
      Refusal(Reject, CertificateReservationOrderInvalid)
    else if OutsideCertificateWindow(claim, context.statement.claim, a.policy.skew) then
      Refusal(Reject, CertificateExecutionWindowMismatch)
    else if !ReportsTheAction(w, claim, context.statement, a.expected.human) then
      Refusal(Reject, CertificateReferenceMismatch)
    else Clear
  }

  /** Who may not observe this receipt; None when the certificate's authority cannot be established. */
  function PartiesOf(w: World, a: ReceiptAttempt, s: ReceiptStatement): Option<Parties>
    requires WorldValid(w) && PolicyValid(a.policy)
  {
    var context := CertificateContext(w, a.certificateEnvelope, a.certificateResult, s.claim.certificateRef);
    if context.Unusable? then None
    else
      var authority := AuthorityRoots(w, a.policy, a.certificateResult, context.statement, a.certificateEnvelope,
                                      s.claim.certificateRef.verificationAt);
      if authority.None? then None
      else
        Some(Parties(context.statement.claim.human.id, authority.value,
                     a.expected.executorKeys + a.expected.humanKeys))
  }

  /** The guards on what the pass over the verified roots found. */
  function ObserverFinding(scan: Scan, someStatic: bool, claim: ReceiptPredicate, policy: TrustPolicy): (f: Finding)
    ensures f.Fits()
  {
    if !someStatic then Refusal(Reject, ReceiptPolicyMismatch)
    else if scan.selfObserved then Refusal(Reject, ReceiptSelfObservation)
    else if scan.stale then Refusal(Reject, ReceiptRootTimeOrRevocationInvalid)
    else if scan.mismatch || Principals(scan.observers) != (set p | p in claim.observers) then
      Refusal(Reject, ReceiptSignerMismatch)
    else if |scan.observers| < policy.executionObserverThreshold then
      Refusal(Unknown, ExecutionObserverThresholdNotMet)
    else Clear
  }

  predicate ShowsObservers(reason: ReceiptReason) {
    reason == ReceiptRootTimeOrRevocationInvalid || reason == ExecutionObserverThresholdNotMet
  }

  function ReadReceipt(w: World, a: ReceiptAttempt): (r: Reading<ReceiptReason, ReceiptStatement>)
    requires WorldValid(w) && PolicyValid(a.policy)
    ensures r.Unread? ==> FitsReceiptRefusal(Reject, r.reason)
    ensures r.Read? ==> EnvelopeValid(r.envelope) && w.parseEnvelope(a.envelope) == Some(r.envelope)
                        && w.parseReceipt(r.envelope.payload) == Some(r.statement) && ReceiptValid(r.statement)
  {
    if |a.envelope| > MAX_ENVELOPE_BYTES then Unread(ReceiptEnvelopeTooLarge, None)
    else if w.parseEnvelope(a.envelope).None? then Unread(ReceiptEnvelopeInvalid, None)
    else
      var e := w.parseEnvelope(a.envelope).value;
      if |e.payload| > MAX_PAYLOAD_BYTES then Unread(ReceiptPayloadTooLarge, None)
      else if VerifiedRoots(w, e, a.policy.roots) == [] then Unread(ReceiptSignatureInvalid, Some(w.sha256(e.payload)))
      else if w.parseReceipt(e.payload).None? then Unread(ReceiptPayloadInvalid, Some(w.sha256(e.payload)))
      else Read(e, w.parseReceipt(e.payload).value)
  }

  /** A refusal carries one reason of its kind, records nothing and claims no observation. */
  predicate Clean(admission: ReceiptAdmission) {
    admission.ReceiptRefused? ==>
      var r := admission.result;
      |r.reasons| == 1 && FitsReceiptRefusal(r.status, r.reasons[0]) && !r.recorded && r.ClaimsNothing()
  }

  function AdmitReceipt(w: World, a: ReceiptAttempt): (r: ReceiptAdmission)
    requires WorldValid(w) && PolicyValid(a.policy)
    ensures Clean(r)
  {
    match ReadReceipt(w, a)
    case Unread(reason, payload) =>
      ReceiptRefused(ReceiptRefusal(Reject, reason, None, payload, w.sha256(a.envelope), []))
    case Read(e, s) => AdmitReceiptStatement(w, a, e, s)
  }

  function AdmitReceiptStatement(w: World, a: ReceiptAttempt, e: Envelope, s: ReceiptStatement): (r: ReceiptAdmission)
    requires WorldValid(w) && PolicyValid(a.policy)
    ensures Clean(r)
  {
    var payload, digest, binding := w.sha256(e.payload), w.sha256(a.envelope), BindingFinding(w, a, s);
    if binding.Refusal? then Conclude(s, payload, digest, binding, [])
    else if PartiesOf(w, a, s).None? then
      Conclude(s, payload, digest, Refusal(Unknown, CertificateAuthorityUnknown), [])
    else
      var observing := Observing(w, a, e, s, PartiesOf(w, a, s).value);
      Conclude(s, payload, digest, observing.0, observing.1)
  }

  /** What the guards on observers conclude, and the ids of the observers chosen. */
  function Observing(
      w: World, a: ReceiptAttempt, e: Envelope, s: ReceiptStatement, parties: Parties): (f: (Finding, seq<Id>))
    requires WorldValid(w) && PolicyValid(a.policy)
    ensures f.0.Fits()
  {
    var roots := VerifiedRoots(w, e, a.policy.roots);
    var scan := ScanObservers(w, roots, s.claim, a.policy, parties, a.now);
    var someStatic := exists r :: r in roots && MayObserve(w, r, s.claim, a.policy);
    (ObserverFinding(scan, someStatic, s.claim, a.policy), SortedIds(w, scan.observers))
  }

  /** The receipt is refused for the reason found, or ready to be indexed. */
  function Conclude(
      s: ReceiptStatement, payload: Digest, digest: Digest, finding: Finding, ids: seq<Id>): (r: ReceiptAdmission)
    requires finding.Fits()
    ensures Clean(r)
  {
    if finding.Clear? then ReceiptAdmitted(s, payload, digest, ids)
    else
      ReceiptRefused(
        ReceiptRefusal(finding.status, finding.reason, Some(s.claim.receiptId), Some(payload), digest,
                       if ShowsObservers(finding.reason) then ids else []))
  }

  function CallFor(s: ReceiptStatement, payload: Digest): RX.Call {
    var claim := s.claim;
    RX.Call(claim.tenant, claim.receiptId, claim.executionId, claim.attempt.attemptId, payload,
            claim.effect.idempotencyKey, claim.effect.intent)
  }

  function SettleReceipt(a: ReceiptAdmission, status: RX.Status): ReceiptResult
    requires a.ReceiptAdmitted?
  {
    var claim := a.statement.claim;
    var accept := (reason: ReceiptReason) =>
      ReceiptResult(Accept, [reason], Some(claim.receiptId), Some(a.payload), a.envelope, a.observerRoots, true,
                    claim.inference, claim.usage, claim.effect.status, claim.cost, claim.duration);
    match status
    case AlreadyPresent => accept(ReceiptAlreadyPresent)
    case ReceiptIdConflict => RefusedByIndex(a, Reject, ReceiptReason.ReceiptIdConflict)
    case AttemptConflict => RefusedByIndex(a, Reject, ReceiptAttemptConflict)
    case IdempotencyConflict => RefusedByIndex(a, Reject, ReceiptIdempotencyConflict)
    case Unavailable => RefusedByIndex(a, Unknown, ReceiptIndexUnavailable)
    case Appended => accept(ReceiptAppended)
  }

  function RefusedByIndex(a: ReceiptAdmission, status: VerificationStatus, reason: ReceiptReason): ReceiptResult
    requires a.ReceiptAdmitted?
  {
    ReceiptRefusal(status, reason, Some(a.statement.claim.receiptId), Some(a.payload), a.envelope, a.observerRoots)
  }

  /** The verdict on a receipt, given the receipts already recorded. */
  ghost function ReceiptVerdict(w: World, a: ReceiptAttempt, log: seq<RX.Call>, capacity: int): ReceiptResult
    requires WorldValid(w) && PolicyValid(a.policy)
  {
    var admission := AdmitReceipt(w, a);
    if admission.ReceiptRefused? then admission.result
    else SettleReceipt(admission, RX.Answer(log, capacity, CallFor(admission.statement, admission.payload)))
  }

  method VerifyExecutionReceipt(
      w: World, a: ReceiptAttempt, index: RX.InMemoryReceiptIndex) returns (result: ReceiptResult)
    requires WorldValid(w) && PolicyValid(a.policy) && index.Valid()
    modifies index
    ensures index.Valid()
    ensures result == ReceiptVerdict(w, a, old(index.log), index.capacity)
    ensures result.reasons == [ReceiptAppended] ==>
      AdmitReceipt(w, a).ReceiptAdmitted?
      && index.log == old(index.log) + [CallFor(AdmitReceipt(w, a).statement, AdmitReceipt(w, a).payload)]
    ensures result.reasons != [ReceiptAppended] ==>
            index.Contents() == old(index.Contents()) && index.log == old(index.log)
  {
    hide AdmitReceipt;
    var admission := AdmitReceipt(w, a);
    if admission.ReceiptRefused? { return admission.result; }
    var status := index.AppendOnce(CallFor(admission.statement, admission.payload));
    result := SettleReceipt(admission, status);
  }

  /******* Closed results *******/

  function NamedObservers(admission: ReceiptAdmission): seq<Id> {
    if admission.ReceiptRefused? then admission.result.observerRoots else admission.observerRoots
  }

  /** Each observer is named once, there are at most 16, and an admitted receipt has one. */
  ghost predicate NamesFit(admission: ReceiptAdmission) {
    && Distinct(NamedObservers(admission)) && |NamedObservers(admission)| <= MAX_RESULT_ROOTS
    && (admission.ReceiptAdmitted? ==> NamedObservers(admission) != [])
  }

  lemma ObserversFit(w: World, a: ReceiptAttempt, e: Envelope, s: ReceiptStatement, parties: Parties)
    requires WorldValid(w) && PolicyValid(a.policy) && ReceiptValid(s)
    ensures var (finding, ids) := Observing(w, a, e, s, parties);
            finding.Fits() && Distinct(ids) && |ids| <= MAX_RESULT_ROOTS && (finding.Clear? ==> ids != [])
  {
    var roots, eligible := VerifiedRoots(w, e, a.policy.roots), EligibleObserver(w, s.claim, a.policy, parties, a.now);
    DeclaredSignersAreFew(w, roots, eligible, s.claim.observers);
    SortedIdsAreNoMore(w, Chosen(w, roots, eligible));
  }

  lemma ConclusionNamesTheObservers(
      s: ReceiptStatement, payload: Digest, digest: Digest, finding: Finding, ids: seq<Id>)
    requires finding.Fits() && Distinct(ids) && |ids| <= MAX_RESULT_ROOTS && (finding.Clear? ==> ids != [])
    ensures NamesFit(Conclude(s, payload, digest, finding, ids))
  {
  }

  lemma ReceiptNamesFit(w: World, a: ReceiptAttempt)
    requires WorldValid(w) && PolicyValid(a.policy)
    ensures NamesFit(AdmitReceipt(w, a))
  {
    hide Observing, BindingFinding, PartiesOf, Conclude, ReceiptValid;
    match ReadReceipt(w, a)
    case Unread(reason, payload) =>
    case Read(e, s) =>
      var payload, digest, binding := w.sha256(e.payload), w.sha256(a.envelope), BindingFinding(w, a, s);
      ConclusionNamesTheObservers(s, payload, digest, Refusal(Unknown, CertificateAuthorityUnknown), []);
      if binding.Refusal? { ConclusionNamesTheObservers(s, payload, digest, binding, []); }
      else if PartiesOf(w, a, s).Some? {
        var observing := Observing(w, a, e, s, PartiesOf(w, a, s).value);
        ObserversFit(w, a, e, s, PartiesOf(w, a, s).value);
        ConclusionNamesTheObservers(s, payload, digest, observing.0, observing.1);
      }
  }

  lemma RefusalIsClosed(r: ReceiptResult)
    requires |r.reasons| == 1 && FitsReceiptRefusal(r.status, r.reasons[0]) && !r.recorded && r.ClaimsNothing()
    requires Distinct(r.observerRoots) && |r.observerRoots| <= MAX_RESULT_ROOTS
    ensures ReceiptResultClosed(r)
  {
  }

  lemma SettledReceiptIsClosed(a: ReceiptAdmission, status: RX.Status)
    requires a.ReceiptAdmitted? && NamesFit(a)
    ensures ReceiptResultClosed(SettleReceipt(a, status))
  {
  }

  /** Every verdict is one the result model's validator accepts, whatever the index holds. */
  lemma EveryReceiptVerdictIsClosed(w: World, a: ReceiptAttempt, log: seq<RX.Call>, capacity: int)
    requires WorldValid(w) && PolicyValid(a.policy)
    ensures ReceiptResultClosed(ReceiptVerdict(w, a, log, capacity))
  {
    hide AdmitReceipt, SettleReceipt, ReceiptResultClosed;
    ReceiptNamesFit(w, a);
    var admission := AdmitReceipt(w, a);
    if admission.ReceiptRefused? {
      RefusalIsClosed(admission.result);
    } else {
      SettledReceiptIsClosed(admission, RX.Answer(log, capacity, CallFor(admission.statement, admission.payload)));
    }
  }
}
