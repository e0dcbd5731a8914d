/**
 The signed statements, the operator's trust policy and the verification results, with
 the validators of the source's wire models as predicates. `World` gathers what the
 verifiers call but do not define: hashing, signature checking, parsing and sorting.
 */
module Attestations {
  import opened Basics
  import opened Decimal
  import opened LogIndex

  const MAX_ENVELOPE_BYTES := 256 * 1024
  const MAX_PAYLOAD_BYTES := 128 * 1024
  const MAX_SIGNATURES := 16
  const MAX_RESULT_ROOTS := 16
  const MAX_EFFECT_ATTEMPTS := 128
  const MAX_UNRESOLVED_EFFECTS := 128
  const MAX_ARTIFACTS := 128
  const SECOND: Time := 1_000_000

  type Key(==, !new, 0)
  type Sig(==, !new, 0)

  /******* Trust policy *******/

  datatype Purpose = ActionIssuer | HumanApproval | ExecutionObserver | OutcomeObserver

  datatype PredicateType = ActionCertificateV01 | ExecutionReceiptV01 | OutcomeClosureV01

  datatype ExecutionScope =
    | RuntimeExecution | ArtifactIo | ProtocolExchange | TraceExport
    | InferenceResponse | EffectAttempts | Metrics

  const ALL_EXECUTION_SCOPES: set<ExecutionScope> :=
    {RuntimeExecution, ArtifactIo, ProtocolExchange, TraceExport, InferenceResponse, EffectAttempts, Metrics}

  datatype OutcomeScope =
    | AuthorizationBinding | ExecutionReceiptBinding | EffectReconciling | BusinessState

  const ALL_OUTCOME_SCOPES: set<OutcomeScope> :=
    {AuthorizationBinding, ExecutionReceiptBinding, EffectReconciling, BusinessState}

  datatype SourceKind = LocalBytes

  datatype TrustRoot = TrustRoot(
    id: Id, keyidHints: seq<Id>, purpose: Purpose, key: Key, tenant: Id, principal: Id,
    audiences: seq<Id>, predicateTypes: seq<PredicateType>,
    executionScopes: set<ExecutionScope>, outcomeScopes: set<OutcomeScope>,
    sourceKinds: set<SourceKind>, sourcePrincipals: seq<Id>,
    notBefore: Time, notAfter: Time, revokedAt: Option<Time>)

  datatype TrustPolicy = TrustPolicy(
    tenants: seq<Id>, humans: seq<Id>, workloads: seq<Id>,
    issuers: seq<Id>, approvers: seq<Id>, executionObservers: seq<Id>, outcomeObservers: seq<Id>,
    sourceKinds: set<SourceKind>, sourcePrincipals: seq<Id>,
    audiences: seq<Id>, predicateTypes: seq<PredicateType>, approvalRequired: bool,
    issuerThreshold: int, approvalThreshold: int,
    executionObserverThreshold: int, outcomeObserverThreshold: int,
    maxLifetime: int, skew: int, roots: seq<TrustRoot>)

  function RootId(r: TrustRoot): Id { r.id }

  predicate Bounded<T(==)>(s: seq<T>, low: nat, high: nat) { low <= |s| <= high && Distinct(s) }

  /** Each purpose has its own scopes, and only outcome observers are bound to evidence sources. */
  predicate RootValid(r: TrustRoot) {
    && Bounded(r.keyidHints, 0, 8) && Bounded(r.audiences, 1, 16) && Bounded(r.predicateTypes, 1, 4)
    && Bounded(r.sourcePrincipals, 0, 16) && r.notBefore < r.notAfter
    && r.executionScopes == (if r.purpose == ExecutionObserver then ALL_EXECUTION_SCOPES else {})
    && r.outcomeScopes == (if r.purpose == OutcomeObserver then ALL_OUTCOME_SCOPES else {})
    && if r.purpose == OutcomeObserver then r.sourceKinds != {} && r.sourcePrincipals != []
       else r.sourceKinds == {} && r.sourcePrincipals == []
  }

  predicate AllowlistsValid(p: TrustPolicy) {
    && Bounded(p.tenants, 1, 64) && Bounded(p.humans, 1, 128) && Bounded(p.workloads, 1, 128)
    && Bounded(p.issuers, 1, 64) && Bounded(p.approvers, 0, 64) && Bounded(p.executionObservers, 0, 64)
    && Bounded(p.outcomeObservers, 0, 64) && Bounded(p.sourcePrincipals, 0, 64)
    && Bounded(p.audiences, 1, 32) && Bounded(p.predicateTypes, 1, 4)
  }

  /** What the policy's field bounds and its validator leave possible. */
  ghost predicate PolicyValid(p: TrustPolicy) {
    && 1 <= p.issuerThreshold <= 16 && 1 <= p.approvalThreshold <= 16
    && 1 <= p.executionObserverThreshold <= 16 && 1 <= p.outcomeObserverThreshold <= 16
    && SECOND <= p.maxLifetime <= 86_400 * SECOND && 0 <= p.skew <= 300 * SECOND
    && 1 <= |p.roots| <= 64
    && KeysDistinct(p.roots, RootId)
    && (p.approvalRequired ==> p.approvers != [])
    && AllowlistsValid(p) && forall r :: r in p.roots ==> RootValid(r)
  }

  /** Inside its window, and not revoked, even when the clock is off by the allowed skew. */
  predicate IsCurrent(root: TrustRoot, now: Time, skew: int) {
    && now + skew >= root.notBefore
    && now - skew < root.notAfter
    && (root.revokedAt.None? || now + skew < root.revokedAt.value)
  }

  /******* Envelopes *******/

  datatype Signature = Signature(keyid: Option<Id>, value: Sig)

  /** An envelope after its payload has been decoded from base64. */
  datatype Envelope = Envelope(payload: Bytes, signatures: seq<Signature>)

  /** A signed statement that could be read, or the reason why it could not. */
  datatype Reading<R, S> = Unread(reason: R, payload: Option<Digest>) | Read(envelope: Envelope, statement: S)

  ghost predicate EnvelopeValid(e: Envelope) {
    1 <= |e.payload| <= MAX_PAYLOAD_BYTES && 1 <= |e.signatures| <= MAX_SIGNATURES
  }

  /******* Action certificates *******/

  datatype Principal = Principal(id: Id, issuer: Id)
  datatype Hop = Hop(delegator: Id, delegatee: Id, scope: Digest)
  datatype Subject = Subject(name: Id, digest: Digest)
  datatype SubjectBinding = SubjectBinding(subjectType: Id, subjectId: Id, attributes: Digest)
  datatype ActionBinding = ActionBinding(name: Id, parameters: Digest)
  datatype ResourceBinding = ResourceBinding(resourceType: Id, resourceId: Id, attributes: Digest)
  datatype ContextBinding = ContextBinding(requestId: Id, traceId: Id, environment: Id, attributes: Digest)
  datatype PolicyBinding = PolicyBinding(id: Id, revision: Id, digest: Digest, evaluatedAt: Time, expiresAt: Time)
  datatype ApprovalBinding = ApprovalBinding(
    required: bool, approvalId: Option<Id>, scope: Option<Digest>, approvers: seq<Id>, expiresAt: Option<Time>)
  datatype EffectBinding = EffectBinding(effectType: Id, target: Id, request: Digest, idempotencyKey: Id)
  datatype Classification = PublicSynthetic | Internal | Restricted

  datatype CertificatePredicate = CertificatePredicate(
    certificateId: Id, tenant: Id, human: Principal, workload: Principal, audience: Id,
    delegation: seq<Hop>, subject: SubjectBinding, action: ActionBinding, resource: ResourceBinding,
    context: ContextBinding, classification: Classification, policy: PolicyBinding,
    approval: ApprovalBinding, effect: EffectBinding, nonce: Id,
    issuedAt: Time, notBefore: Time, expiresAt: Time)

  datatype CertificateStatement = CertificateStatement(subjects: seq<Subject>, claim: CertificatePredicate)

  ghost predicate ApprovalShapeValid(a: ApprovalBinding) {
    && Bounded(a.approvers, 0, 16)
    && if a.required then a.approvalId.Some? && a.scope.Some? && a.approvers != [] && a.expiresAt.Some?
    else a == ApprovalBinding(false, None, None, [], None)
  }

  /** The chain of hops leads from the human principal to the workload principal. */
  ghost predicate DelegationValid(p: CertificatePredicate) {
    && Bounded(p.delegation, 0, 16)
    && (forall i :: 0 <= i < |p.delegation| ==> p.delegation[i].delegator != p.delegation[i].delegatee)
    && if p.delegation == [] then p.human.id == p.workload.id
       else
         && p.delegation[0].delegator == p.human.id
         && (forall i :: 0 < i < |p.delegation| ==> p.delegation[i - 1].delegatee == p.delegation[i].delegator)
         && p.delegation[|p.delegation| - 1].delegatee == p.workload.id
  }

  function SubjectName(s: Subject): Id { s.name }
  function SubjectDigest(s: Subject): Digest { s.digest }

  /** The subjects of a statement, between `low` and 64 of them, under different names. */
  ghost predicate SubjectsValid(subjects: seq<Subject>, low: nat) {
    low <= |subjects| <= 64 && KeysDistinct(subjects, SubjectName)
  }

  ghost predicate CertificateValid(s: CertificateStatement) {
    var p := s.claim;
    && SubjectsValid(s.subjects, 1)
    && ApprovalShapeValid(p.approval) && DelegationValid(p)
    && p.policy.evaluatedAt < p.policy.expiresAt
    && p.issuedAt <= p.notBefore < p.expiresAt
    && p.policy.evaluatedAt <= p.issuedAt
    && p.expiresAt <= p.policy.expiresAt
    && (p.approval.expiresAt.Some? ==> p.expiresAt <= p.approval.expiresAt.value)
  }

  /** The part of a certificate that the caller has to know independently. */
  datatype ExpectedBinding = ExpectedBinding(
    certificateId: Id, tenant: Id, human: Principal, workload: Principal, audience: Id,
    delegation: seq<Hop>, statementSubjects: seq<Subject>, subject: SubjectBinding, action: ActionBinding,
    resource: ResourceBinding, context: ContextBinding, classification: Classification,
    policy: PolicyBinding, approval: ApprovalBinding, effect: EffectBinding, nonce: Id)

  ghost predicate ExpectedBindingValid(b: ExpectedBinding) {
    && Bounded(b.delegation, 0, 16) && 1 <= |b.statementSubjects| <= 64
    && ApprovalShapeValid(b.approval) && b.policy.evaluatedAt < b.policy.expiresAt
    && forall i :: 0 <= i < |b.delegation| ==> b.delegation[i].delegator != b.delegation[i].delegatee
  }

  function ExpectedBindingFor(s: CertificateStatement): ExpectedBinding {
    var p := s.claim;
    ExpectedBinding(
      p.certificateId, p.tenant, p.human, p.workload, p.audience, p.delegation, s.subjects, p.subject,
      p.action, p.resource, p.context, p.classification, p.policy, p.approval, p.effect, p.nonce)
  }

  /** What an approver approves. */
  datatype ApprovalScope = ApprovalScope(
    tenant: Id, human: Principal, workload: Principal, audience: Id, delegation: seq<Hop>,
    statementSubjects: seq<Subject>, subject: SubjectBinding, action: ActionBinding,
    resource: ResourceBinding, context: ContextBinding, classification: Classification,
    policy: PolicyBinding, effect: EffectBinding)

  function ScopeOf(s: CertificateStatement): ApprovalScope {
    var p := s.claim;
    ApprovalScope(
      p.tenant, p.human, p.workload, p.audience, p.delegation, s.subjects, p.subject,
      p.action, p.resource, p.context, p.classification, p.policy, p.effect)
  }

  datatype VerificationStatus = Accept | Reject | Unknown

  datatype CertificateReason =
    | Accepted
    | EnvelopeInvalid | EnvelopeTooLarge | PayloadInvalid | PayloadTooLarge | SignatureInvalid
    | ActionIssuerThresholdNotMet | HumanApprovalThresholdNotMet
    | TrustPolicyMismatch | ExpectedBindingMismatch | CertificateTimeInvalid
    | RootTimeOrRevocationInvalid | ApprovalScopeMismatch | ApprovalExpired | ApprovalRevoked
    | SelfApproval | ReplayDetected | IdempotencyConflict
    | ApprovalRevocationUnknown | ApprovalRevocationUnavailable | ReplayLedgerUnavailable

  predicate IsUnknownReason(r: CertificateReason) {
    r in {ApprovalRevocationUnknown, ApprovalRevocationUnavailable, ReplayLedgerUnavailable}
  }

  datatype CertificateResult = CertificateResult(
    status: VerificationStatus, reasons: seq<CertificateReason>,
    certificateId: Option<Id>, payload: Option<Digest>,
    issuerRoots: seq<Id>, approvalRoots: seq<Id>, reserved: bool)

  /** What the result model's validator and field bounds insist on. */
  ghost predicate CertificateResultClosed(r: CertificateResult) {
    && 1 <= |r.reasons| <= 16 && Distinct(r.reasons)
    && |r.issuerRoots| <= MAX_RESULT_ROOTS && |r.approvalRoots| <= MAX_RESULT_ROOTS
    && match r.status
       case Accept => r.reasons == [Accepted] && r.reserved
       case Reject => !r.reserved && forall x :: x in r.reasons ==> x != Accepted && !IsUnknownReason(x)
       case Unknown => !r.reserved && forall x :: x in r.reasons ==> IsUnknownReason(x)
  }

  /******* Execution receipts *******/

  datatype CertificateReference = CertificateReference(
    certificateId: Id, payload: Digest, envelope: Digest, verificationResult: Digest, intent: Digest,
    verificationAt: Time, reservedAt: Time)

  datatype ObservationState = Observed | NotObserved

  datatype AttemptStatus = Completed | AttemptFailed | Cancelled | AttemptUnknown

  datatype AttemptObservation = AttemptObservation(
    attemptId: Id, number: int, startedAt: Time, endedAt: Time, status: AttemptStatus)

  datatype Artifact = Artifact(id: Id, digest: Digest, mediaType: Id)

  datatype Operation = Operation(name: Id, request: Digest, response: Digest, details: Digest)

  datatype EffectObservation = EffectObservation(
    effectType: Id, target: Id, intent: Digest, idempotencyKey: Id, status: ObservationState, evidence: Digest)

  datatype ReceiptPredicate = ReceiptPredicate(
    receiptId: Id, executionId: Id, taskId: Id, issuedAt: Time, certificateRef: CertificateReference,
    tenant: Id, caseId: Id, observers: seq<Id>, attempt: AttemptObservation, executor: Principal,
    runtime: Digest, protocol: Digest, traceId: Id, traceDetails: Digest,
    inputs: seq<Artifact>, outputs: seq<Artifact>, operation: Operation,
    inference: ObservationState, usage: ObservationState, effect: EffectObservation,
    cost: ObservationState, duration: ObservationState)

  datatype ReceiptStatement = ReceiptStatement(subjects: seq<Subject>, claim: ReceiptPredicate)

  function ArtifactId(a: Artifact): Id { a.id }
  function ArtifactDigest(a: Artifact): Digest { a.digest }

  predicate ReferenceValid(ref: CertificateReference) { ref.verificationAt <= ref.reservedAt }

  /** No artifact occurs twice, neither in one direction nor in both. */
  ghost predicate ArtifactsValid(inputs: seq<Artifact>, outputs: seq<Artifact>) {
    && 1 <= |inputs| <= MAX_ARTIFACTS && |outputs| <= MAX_ARTIFACTS
    && KeysDistinct(inputs, ArtifactId) && KeysDistinct(outputs, ArtifactId)
    && forall i, j :: 0 <= i < |inputs| && 0 <= j < |outputs| ==> inputs[i].id != outputs[j].id
  }

  ghost predicate ReceiptValid(s: ReceiptStatement) {
    var p := s.claim;
    && SubjectsValid(s.subjects, 0) && ArtifactsValid(p.inputs, p.outputs)
    && IndexOf(s.subjects, SubjectName, SubjectDigest) == IndexOf(p.outputs, ArtifactId, ArtifactDigest)
    && Bounded(p.observers, 1, 16) && ReferenceValid(p.certificateRef)
    && 1 <= p.attempt.number <= 1_000_000 && p.attempt.startedAt <= p.attempt.endedAt <= p.issuedAt
    && (p.attempt.status == Completed ==> p.outputs != [])
    && p.certificateRef.intent == p.effect.intent
  }

  datatype ExpectedExecution = ExpectedExecution(
    certificateRef: CertificateReference, tenant: Id, caseId: Id, executionId: Id, taskId: Id,
    attemptId: Id, attemptNumber: int, human: Principal, executor: Principal,
    executorKeys: seq<Digest>, humanKeys: seq<Digest>, runtime: Digest, protocol: Digest,
    traceId: Id, traceDetails: Digest, inputs: seq<Artifact>, outputs: seq<Artifact>, operation: Operation,
    effectType: Id, effectTarget: Id, effectIntent: Digest, idempotencyKey: Id)

  ghost predicate ExpectedExecutionValid(x: ExpectedExecution) {
    && ReferenceValid(x.certificateRef) && 1 <= x.attemptNumber <= 1_000_000
    && Bounded(x.executorKeys, 1, 16) && Bounded(x.humanKeys, 1, 16)
    && ArtifactsValid(x.inputs, x.outputs)
  }

  function ExpectedExecutionFor(
      s: ReceiptStatement, human: Principal, executorKeys: seq<Digest>, humanKeys: seq<Digest>): ExpectedExecution
  {
    var p := s.claim;
    ExpectedExecution(
      p.certificateRef, p.tenant, p.caseId, p.executionId, p.taskId, p.attempt.attemptId, p.attempt.number,
      human, p.executor, executorKeys, humanKeys, p.runtime, p.protocol, p.traceId, p.traceDetails,
      p.inputs, p.outputs, p.operation, p.effect.effectType, p.effect.target, p.effect.intent,
      p.effect.idempotencyKey)
  }

  datatype ReceiptReason =
    | ReceiptAppended | ReceiptAlreadyPresent
    | ReceiptEnvelopeInvalid | ReceiptEnvelopeTooLarge | ReceiptPayloadInvalid | ReceiptPayloadTooLarge
    | ReceiptSignatureInvalid | ReceiptPolicyMismatch | ReceiptBindingMismatch | ReceiptTimeInvalid
    | CertificateReferenceMismatch | CertificateNotAccepted | CertificateReservationOrderInvalid
    | CertificateExecutionWindowMismatch | CertificateAcceptanceUnknown | CertificateAuthorityUnknown
    | ExecutionObserverThresholdNotMet | ReceiptRootTimeOrRevocationInvalid | ReceiptSignerMismatch
    | ReceiptSelfObservation | ReceiptIdConflict | ReceiptAttemptConflict | ReceiptIdempotencyConflict
    | ReceiptIndexUnavailable

  predicate IsUnknownReceiptReason(r: ReceiptReason) {
    r in {CertificateAcceptanceUnknown, CertificateAuthorityUnknown, ExecutionObserverThresholdNotMet,
          ReceiptIndexUnavailable}
  }

  predicate IsRejectReceiptReason(r: ReceiptReason) {
    !IsUnknownReceiptReason(r) && r != ReceiptAppended && r != ReceiptAlreadyPresent
  }

  datatype ReceiptResult = ReceiptResult(
    status: VerificationStatus, reasons: seq<ReceiptReason>, receiptId: Option<Id>, payload: Option<Digest>,
    envelope: Digest, observerRoots: seq<Id>, recorded: bool,
    inference: ObservationState, usage: ObservationState, effect: ObservationState,
    cost: ObservationState, duration: ObservationState)
  {
    predicate ClaimsNothing() {
      inference == usage == effect == cost == duration == NotObserved
    }
  }

  ghost predicate ReceiptResultClosed(r: ReceiptResult) {
    && 1 <= |r.reasons| <= 16 && Distinct(r.reasons) && Distinct(r.observerRoots)
    && |r.observerRoots| <= MAX_RESULT_ROOTS
    && match r.status
       case Accept =>
         && (r.reasons == [ReceiptAppended] || r.reasons == [ReceiptAlreadyPresent])
         && r.recorded && r.receiptId.Some? && r.payload.Some? && r.observerRoots != []
       case Reject => !r.recorded && r.ClaimsNothing() && forall x :: x in r.reasons ==> IsRejectReceiptReason(x)
       case Unknown => !r.recorded && r.ClaimsNothing() && forall x :: x in r.reasons ==> IsUnknownReceiptReason(x)
  }

  /******* Outcome closures *******/

  datatype ReceiptReference = ReceiptReference(receiptId: Id, payload: Digest, envelope: Digest,
                                               verificationResult: Digest)

  datatype EvidenceSource = EvidenceSource(
    kind: SourceKind, principal: Id, observedAt: Time, validUntil: Time, sourceEvent: Digest)

  datatype EffectStatus = Succeeded | Failed

  datatype TerminalResult = Committed | Rejected | NotApplied

  datatype EffectAttempt = EffectAttempt(
    effectId: Id, attemptId: Id, effectType: Id, target: Id, intent: Digest, idempotencyKey: Id,
    status: EffectStatus, terminal: TerminalResult, providerOperation: Option<Id>,
    beforeState: Digest, afterState: Digest, providerEvent: Digest, observerEvidence: Digest)

  datatype UnresolvedReason = QueryUnavailable | Pending | Conflicting | MissingEvidence

  datatype Unresolved = Unresolved(effectId: Id, reason: UnresolvedReason, observerEvidence: Option<Digest>)

  datatype Reconciliation = Reconciliation(
    effectType: Id, target: Id, intent: Digest, idempotencyKey: Id, expectedCount: int,
    attempts: seq<EffectAttempt>, unresolved: seq<Unresolved>)

  ghost predicate AttemptValid(a: EffectAttempt) {
    if a.status == Succeeded then a.terminal == Committed && a.providerOperation.Some?
    else a.terminal != Committed
  }

  ghost predicate UnresolvedValid(u: Unresolved) {
    u.reason == MissingEvidence <==> u.observerEvidence.None?
  }

  ghost predicate ReconciliationValid(r: Reconciliation) {
    && 1 <= r.expectedCount <= 16
    && |r.attempts| <= MAX_EFFECT_ATTEMPTS && |r.unresolved| <= MAX_UNRESOLVED_EFFECTS
    && |r.unresolved| <= r.expectedCount
    && (forall a :: a in r.attempts ==> AttemptValid(a))
    && (forall u :: u in r.unresolved ==> UnresolvedValid(u))
    && (forall i, j :: 0 <= i < j < |r.attempts| ==>
          && r.attempts[i].attemptId != r.attempts[j].attemptId
          && r.attempts[i].effectId != r.attempts[j].effectId
          && (r.attempts[i].providerOperation.Some? ==>
                r.attempts[i].providerOperation != r.attempts[j].providerOperation))
    && (forall i, j :: 0 <= i < j < |r.unresolved| ==> r.unresolved[i].effectId != r.unresolved[j].effectId)
    && (forall a, u :: a in r.attempts && u in r.unresolved ==> a.effectId != u.effectId)
    && (forall a :: a in r.attempts ==>
          && a.effectType == r.effectType && a.target == r.target
          && a.intent == r.intent && a.idempotencyKey == r.idempotencyKey)
  }

  datatype ClaimedOutcome = ClaimedPass | ClaimedFail | ClaimedUnknown

  datatype ClosurePredicate = ClosurePredicate(
    closureId: Id, executionId: Id, taskId: Id, attemptId: Id, sequence: int, previous: Option<Digest>,
    tenant: Id, caseId: Id, issuedAt: Time, certificateRef: CertificateReference, receiptRef: ReceiptReference,
    source: EvidenceSource, observers: seq<Id>, reconciliation: Reconciliation, claimed: ClaimedOutcome)

  datatype ClosureStatement = ClosureStatement(subjects: seq<Subject>, claim: ClosurePredicate)

  ghost predicate ClosureValid(s: ClosureStatement) {
    && SubjectsValid(s.subjects, 0) && ReferenceValid(s.claim.certificateRef)
    && 1 <= s.claim.sequence <= 1_000_000
    && s.claim.source.observedAt <= s.claim.source.validUntil
    && Bounded(s.claim.observers, 1, 16)
    && ReconciliationValid(s.claim.reconciliation)
  }

  datatype ExpectedOutcome = ExpectedOutcome(
    tenant: Id, caseId: Id, executionId: Id, taskId: Id, attemptId: Id, sequence: int,
    previous: Option<Digest>, certificateRef: CertificateReference, receiptRef: ReceiptReference,
    source: EvidenceSource, humanKeys: seq<Digest>, executorKeys: seq<Digest>,
    effectType: Id, effectTarget: Id, effectIntent: Digest, idempotencyKey: Id, expectedCount: int)

  ghost predicate ExpectedOutcomeValid(x: ExpectedOutcome) {
    && 1 <= x.sequence <= 1_000_000 && 1 <= x.expectedCount <= 16 && ReferenceValid(x.certificateRef)
    && x.source.observedAt <= x.source.validUntil
    && Bounded(x.humanKeys, 1, 16) && Bounded(x.executorKeys, 1, 16)
  }

  function ExpectedOutcomeFor(s: ClosureStatement, humanKeys: seq<Digest>, executorKeys: seq<Digest>): ExpectedOutcome {
    var p := s.claim;
    var r := p.reconciliation;
    ExpectedOutcome(
      p.tenant, p.caseId, p.executionId, p.taskId, p.attemptId, p.sequence, p.previous, p.certificateRef,
      p.receiptRef, p.source, humanKeys, executorKeys, r.effectType, r.target, r.intent, r.idempotencyKey,
      r.expectedCount)
  }

  datatype Verdict = Pass | Fail | Undecided | UnsafeSuccess

  datatype ClosureReason =
    | PassVerified | FailVerified | PassAlreadyPresent | FailAlreadyPresent
    | ClosureEnvelopeInvalid | ClosureEnvelopeTooLarge | ClosurePayloadInvalid | ClosurePayloadTooLarge
    | ClosureSignatureInvalid | ClosurePolicyMismatch | ClosureBindingMismatch | ClosureTimeInvalid
    | ActionAcceptanceUnknown | ActionHandoffUntrusted | ReceiptAcceptanceUnknown | ReceiptHandoffUntrusted
    | ActionUnsafe | ReceiptUnsafe | AuthorizationBindingMismatch | ReceiptLinkMismatch
    | EffectBindingUnknown | EffectBindingMismatch | EffectCountMismatch | EffectReconciliationUnresolved
    | UnsafeUnresolvedEffect | DuplicateEffectSuccess | DuplicateProviderOperationId
    | OutcomeObserverThresholdNotMet | ClosureRootTimeOrRevocationInvalid | ClosureSignerMismatch
    | ClosureSelfObservation | ClosureIdConflict | AttemptSequenceConflict | PreviousDigestConflict
    | ClosureIdempotencyConflict | OutcomeIndexUnavailable | EvidenceSourceInvalid
    | EvidenceBytesUnavailable | EvidenceDigestMismatch | EffectCoverageIncomplete | EffectTerminalInvalid
    | OutcomeWindowUnsafe | OutcomeObserverSod

  predicate IsPassReason(r: ClosureReason) { r == PassVerified || r == PassAlreadyPresent }

  predicate IsFailReason(r: ClosureReason) { r == FailVerified || r == FailAlreadyPresent }

  predicate IsUnsafeReason(r: ClosureReason) {
    r in {ActionUnsafe, ReceiptUnsafe, AuthorizationBindingMismatch, ReceiptLinkMismatch, EffectBindingMismatch,
          DuplicateEffectSuccess, DuplicateProviderOperationId, EffectCountMismatch, UnsafeUnresolvedEffect,
          OutcomeWindowUnsafe, OutcomeObserverSod}
  }

  /** Every reason that is not a pass, a fail or an unsafe one. */
  predicate IsUnknownReasonOfClosure(r: ClosureReason) {
    !IsPassReason(r) && !IsFailReason(r) && !IsUnsafeReason(r)
  }

  datatype ClosureResult = ClosureResult(
    status: Verdict, reasons: seq<ClosureReason>, closureId: Option<Id>, payload: Option<Digest>,
    envelope: Digest, observerRoots: seq<Id>, recorded: bool, attemptId: Option<Id>,
    sequence: Option<int>, previous: Option<Digest>,
    expectedCount: Option<int>, successCount: Option<int>, unresolvedCount: Option<int>)
  {
    predicate Bound() {
      && recorded && closureId.Some? && payload.Some? && observerRoots != []
      && expectedCount.Some? && successCount.Some? && unresolvedCount.Some?
      && attemptId.Some? && sequence.Some?
    }
  }

  predicate InRange(value: Option<int>, low: int, high: int) {
    value.Some? ==> low <= value.value <= high
  }

  predicate ClosureResultClosed(r: ClosureResult) {
    && 1 <= |r.reasons| <= 16 && Distinct(r.reasons) && Distinct(r.observerRoots)
    && |r.observerRoots| <= MAX_RESULT_ROOTS
    && InRange(r.sequence, 1, 1_000_000) && InRange(r.expectedCount, 1, 16)
    && InRange(r.successCount, 0, MAX_EFFECT_ATTEMPTS)
    && InRange(r.unresolvedCount, 0, MAX_UNRESOLVED_EFFECTS)
    && match r.status
       case Pass => |r.reasons| == 1 && IsPassReason(r.reasons[0]) && r.Bound()
       case Fail => |r.reasons| == 1 && IsFailReason(r.reasons[0]) && r.Bound()
       case Undecided => !r.recorded && forall x :: x in r.reasons ==> IsUnknownReasonOfClosure(x)
       case UnsafeSuccess => !r.recorded && forall x :: x in r.reasons ==> IsUnsafeReason(x)
  }

  /******* What the verifiers call *******/

  datatype World = World(
    verifies: (Key, Sig, Bytes) -> bool,
    fingerprint: Key -> Digest,
    sha256: Bytes -> Digest,
    parseEnvelope: Bytes -> Option<Envelope>,
    parseCertificate: Bytes -> Option<CertificateStatement>,
    parseReceipt: Bytes -> Option<ReceiptStatement>,
    parseClosure: Bytes -> Option<ClosureStatement>,
    scopeDigest: ApprovalScope -> Digest,
    certificateResultDigest: CertificateResult -> Digest,
    receiptResultDigest: ReceiptResult -> Digest,
    sortedIds: set<Id> -> seq<Id>,
    sortedDigests: set<Digest> -> seq<Digest>,
    receiptAudience: Id,
    closureAudience: Id,
    artifactResource: Id)

  /** The sequence lists the set, each element once. */
  ghost predicate Lists<T(!new)>(s: seq<T>, elements: set<T>) {
    Distinct(s) && forall x :: x in s <==> x in elements
  }

  /** Parsers return validated values, and sorting lists what it is given. */
  ghost predicate WorldValid(w: World) {
    && (forall b :: w.parseEnvelope(b).Some? ==> EnvelopeValid(w.parseEnvelope(b).value))
    && (forall b :: w.parseCertificate(b).Some? ==> CertificateValid(w.parseCertificate(b).value))
    && (forall b :: w.parseReceipt(b).Some? ==> ReceiptValid(w.parseReceipt(b).value))
    && (forall b :: w.parseClosure(b).Some? ==> ClosureValid(w.parseClosure(b).value))
    && (forall s :: Lists(w.sortedIds(s), s))
    && (forall s :: Lists(w.sortedDigests(s), s))
  }
}
