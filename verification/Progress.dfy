/**
 The three verifiers one after the other: when the closure of an accepted and executed
 action is judged on its effects, and what is then recorded.
 */
module Progress {
  import opened Basics
  import opened Decimal
  import opened LogIndex
  import opened AppendOnlyRuns
  import opened Attestations
  import opened Signers
  import opened ActionCertificate
  import opened ExecutionReceipt
  import opened Handoff
  import OC = OutcomeClosure
  import OX = OutcomeIndex

  /** One action: its certificate, the receipt of its execution, and the closure of its outcome. */
  datatype Course = Course(
    certificate: Attempt, receipt: ReceiptAttempt, receiptIsNew: bool, closure: OC.ClosureAttempt)

  /** The first two verifiers accepted, and their bytes and results are what the next ones are given. */
  ghost predicate HandedOn(w: World, x: Course)
    requires WorldValid(w)
  {
    && PolicyValid(x.closure.policy) && x.certificate.policy == x.closure.policy == x.receipt.policy
    && Admit(w, x.certificate).Admitted? && AdmitReceipt(w, x.receipt).ReceiptAdmitted?
    && x.receipt.certificateEnvelope == x.closure.certificateEnvelope == x.certificate.envelope
    && x.receipt.certificateResult == x.closure.certificateResult == AcceptedCertificate(w, x.certificate)
    && x.closure.receiptEnvelope == x.receipt.envelope
    && x.closure.receiptResult == AcceptedReceipt(w, x.receipt, x.receiptIsNew)
  }

  /** The closure names the certificate and the receipt it closes. */
  ghost predicate Closes(w: World, x: Course, claim: ClosurePredicate)
    requires WorldValid(w) && HandedOn(w, x)
  {
    && RefersToCertificate(w, x.certificate, claim.certificateRef)
    && RefersToReceipt(w, x.receipt, x.closure.receiptResult, claim.receiptRef)
  }

  ghost function ActionOf(w: World, x: Course): CertificatePredicate
    requires WorldValid(w) && HandedOn(w, x)
  {
    AdmittedWasRead(w, x.certificate);
    Found(w, x.certificate).1.claim
  }

  ghost function ReportOf(w: World, x: Course): ReceiptStatement
    requires WorldValid(w) && HandedOn(w, x)
  {
    AdmittedReceiptIsObserved(w, x.receipt);
    ReadReceipt(w, x.receipt).statement
  }

  /** Everyone who signed for the action or its receipt. */
  ghost predicate SignedFor(w: World, x: Course, r: TrustRoot)
    requires WorldValid(w) && HandedOn(w, x)
  {
    AdmittedWasRead(w, x.certificate);
    AdmittedReceiptIsObserved(w, x.receipt);
    var (_, _, issuers, approvers) := Found(w, x.certificate);
    var reading := ReadReceipt(w, x.receipt);
    r in issuers || r in approvers || r in Observers(w, x.receipt, reading.envelope, reading.statement)
  }

  /** The closure speaks of the execution the receipt reports. */
  predicate Repeats(claim: ClosurePredicate, receipt: ReceiptPredicate) {
    var r := claim.reconciliation;
    && claim.tenant == receipt.tenant && claim.caseId == receipt.caseId
    && claim.executionId == receipt.executionId && claim.taskId == receipt.taskId
    && claim.attemptId == receipt.attempt.attemptId && claim.certificateRef == receipt.certificateRef
    && r.effectType == receipt.effect.effectType && r.target == receipt.effect.target
    && r.intent == receipt.effect.intent && r.idempotencyKey == receipt.effect.idempotencyKey
  }

  /** Certified in its window, reported, observed and closed in this order, before the certificate expires. */
  predicate InTime(claim: ClosurePredicate, action: CertificatePredicate, receipt: ReceiptPredicate, now: Time) {
    && action.notBefore <= claim.certificateRef.verificationAt <= claim.certificateRef.reservedAt
    && receipt.attempt.startedAt <= receipt.issuedAt <= claim.source.observedAt <= claim.issuedAt <= now
    && claim.issuedAt < action.expiresAt
  }

  /** What a closure has to be, besides being about an accepted certificate and an accepted receipt. */
  ghost predicate Sound(w: World, x: Course, e: Envelope, s: ClosureStatement)
    requires WorldValid(w) && HandedOn(w, x)
  {
    var claim, action, report := s.claim, ActionOf(w, x), ReportOf(w, x);
    && action.human.id != action.workload.id
    && (forall r :: SignedFor(w, x, r) ==> IsCurrent(r, x.closure.now, x.closure.policy.skew))
    && OC.EvidenceObjection(w, claim, x.closure.resolver, x.closure.now).None?
    && ExpectedOutcomeFor(s, x.closure.expected.humanKeys, x.closure.expected.executorKeys) == x.closure.expected
    && OC.OutcomeObservers(w, VerifiedRoots(w, e, x.closure.policy.roots), claim, x.closure.policy,
                           OC.InvolvedIn(w, x.closure, claim, None, None), x.closure.now).1.None?
    && !(exists p :: p in claim.observers && p in OC.LaterParties(action, report))
    && Repeats(claim, report.claim) && InTime(claim, action, report.claim, x.closure.now)
  }

  /******* What an admitted receipt says about the certified action *******/

  lemma ReceiptReportsTheAction(w: World, x: Course)
    requires WorldValid(w) && HandedOn(w, x)
    ensures w.parseEnvelope(x.certificate.envelope).Some?
    ensures w.parseCertificate(w.parseEnvelope(x.certificate.envelope).value.payload).Some?
    ensures var s, claim := Found(w, x.certificate).1, ReportOf(w, x).claim;
            && ReportsTheAction(w, claim, s, x.receipt.expected.human)
            && claim.certificateRef.intent == w.scopeDigest(ScopeOf(s))
            && claim.certificateRef.reservedAt <= claim.attempt.startedAt
            && CertificateValid(s)
  {
    hide VerifiedRoots, ReportsTheAction, OutsideCertificateWindow, PolicyAllowsReceipt, Chosen, PartiesOf, Observing;
    hide CertificateValid, StatementObjection;
    AdmittedWasRead(w, x.certificate);
    AdmittedReceiptIsObserved(w, x.receipt);
  }

  lemma LinksAgreeIff(w: World, x: Course, claim: ClosurePredicate)
    requires WorldValid(w) && HandedOn(w, x)
    ensures OC.LinksAgree(claim, ActionOf(w, x), ReportOf(w, x).claim) <==> Repeats(claim, ReportOf(w, x).claim)
  {
    hide HandedOn, ReadReceipt, Found, CertificateValid;
    ReceiptReportsTheAction(w, x);
  }

  lemma WindowHoldsIff(w: World, x: Course, s: ClosureStatement)
    requires WorldValid(w) && HandedOn(w, x) && ClosureValid(s)
    requires Repeats(s.claim, ReportOf(w, x).claim)
    requires OC.EvidenceObjection(w, s.claim, x.closure.resolver, x.closure.now).None?
    ensures OC.WindowHolds(s.claim, ActionOf(w, x), ReportOf(w, x).claim, x.closure.now)
            <==> InTime(s.claim, ActionOf(w, x), ReportOf(w, x).claim, x.closure.now)
  {
    hide HandedOn, ReadReceipt, Found, ReportsTheAction, OC.FirstProblem, ReconciliationValid, DelegationValid;
    ReceiptReportsTheAction(w, x);
  }

  /******* When the closure is judged *******/

  lemma HandoffsAreTrustedIff(w: World, x: Course, claim: ClosurePredicate)
    requires WorldValid(w) && HandedOn(w, x) && Closes(w, x, claim)
    ensures var certificate, receipt := OC.CertificateOf(w, x.closure, claim), OC.ReceiptOf(w, x.closure, claim);
            && (certificate.Trusted? && receipt.Trusted? <==>
                  && ActionOf(w, x).human.id != ActionOf(w, x).workload.id
                  && forall r :: SignedFor(w, x, r) ==> IsCurrent(r, x.closure.now, x.closure.policy.skew))
            && (certificate.Trusted? ==> certificate.value == ActionOf(w, x))
            && (receipt.Trusted? ==> receipt.value == ReportOf(w, x))
  {
    hide Admit, AdmitReceipt, OC.CertificateHandoff, OC.ReceiptHandoff, Found, Observers, ReadReceipt, IsCurrent;
    AdmittedWasRead(w, x.certificate);
    AdmittedReceiptIsObserved(w, x.receipt);
    CertificateIsTakenOverIff(w, x.certificate, claim.certificateRef, x.closure.now);
    ReceiptIsTakenOverIff(w, x.receipt, x.receiptIsNew, claim.receiptRef, x.closure.now);
  }

  /**
   The closure of an accepted and reported action is judged on its effects exactly when human
   and workload differ, every earlier signer's root is still current, the evidence is backed,
   the caller expects this closure, its declared observers qualify and had no part in the
   action, and it repeats the reported execution in time.
   */
  lemma ClosureIsJudgedIff(w: World, x: Course, e: Envelope, s: ClosureStatement)
    requires WorldValid(w) && HandedOn(w, x) && Closes(w, x, s.claim)
    requires OC.ReadClosure(w, x.closure) == Read(e, s)
    ensures OC.GuardsPass(w, x.closure, e, s) <==> Sound(w, x, e, s)
  {
    hide HandedOn, ActionOf, ReportOf, SignedFor, OC.CertificateOf, OC.ReceiptOf, OC.EvidenceObjection, OC.LinksAgree;
    hide OC.WindowHolds, OC.InvolvedIn, OC.OutcomeObservers, Repeats, InTime, OC.ReadClosure, VerifiedRoots, IsCurrent;
    hide OC.LaterParties;
    SamePolicy(w, x);
    ReadClosuresAreValid(w, x.closure);
    HandoffsAreTrustedIff(w, x, s.claim);
    var roots := VerifiedRoots(w, e, x.closure.policy.roots);
    if OC.OutcomeObservers(w, roots, s.claim, x.closure.policy,
                           OC.InvolvedIn(w, x.closure, s.claim, None, None), x.closure.now).1.None? {
      OC.SecondPassConfirmsTheFirst(w, x.closure, roots, s.claim, ActionOf(w, x), ReportOf(w, x));
    }
    LinksAgreeIff(w, x, s.claim);
    if Repeats(s.claim, ReportOf(w, x).claim)
       && OC.EvidenceObjection(w, s.claim, x.closure.resolver, x.closure.now).None? {
      WindowHoldsIff(w, x, s);
    }
  }

  lemma SamePolicy(w: World, x: Course)
    requires WorldValid(w) && HandedOn(w, x)
    ensures PolicyValid(x.closure.policy)
  {
  }

  lemma ReadClosuresAreValid(w: World, a: OC.ClosureAttempt)
    requires WorldValid(w) && PolicyValid(a.policy) && OC.ReadClosure(w, a).Read?
    ensures ClosureValid(OC.ReadClosure(w, a).statement)
  {
  }

  /******* What is recorded *******/

  /** All expected effects were attempted and nothing is unresolved. */
  predicate Complete(r: Reconciliation) { r.unresolved == [] && |r.attempts| == r.expectedCount }

  /**
   A sound closure all of whose effects succeeded is ready to be recorded as PASS, one all of
   whose effects failed as FAIL, and no other closure of this action is ready at all.
   */
  lemma SoundClosuresAreReady(w: World, x: Course, e: Envelope, s: ClosureStatement)
    requires WorldValid(w) && HandedOn(w, x) && Closes(w, x, s.claim)
    requires OC.ReadClosure(w, x.closure) == Read(e, s)
    ensures var r := s.claim.reconciliation;
            var admission := OC.AdmitClosure(w, x.closure);
            && (admission.Ready? <==>
                  && Sound(w, x, e, s) && Complete(r)
                  && (OC.Successes(r.attempts) == r.expectedCount || OC.Successes(r.attempts) == 0))
            && (admission.Ready? ==>
                  && admission.statement == s && admission.payload == w.sha256(e.payload)
                  && admission.verdict == if OC.Successes(r.attempts) == 0 then Fail else Pass)
  {
    hide HandedOn, Sound, Closes, OC.GuardsPass, OC.Examine, OC.Judge, OC.ReadClosure, ReconciliationValid;
    SamePolicy(w, x);
    ReadClosuresAreValid(w, x.closure);
    ClosureIsJudgedIff(w, x, e, s);
    OC.GuardsLeadToTheVerdict(w, x.closure, e, s);
    OC.VerdictIsExact(s.claim.reconciliation);
    ValidCount(s.claim.reconciliation);
  }

  lemma ValidCount(r: Reconciliation)
    requires ReconciliationValid(r)
    ensures r.expectedCount >= 1
  {
  }

  /**
   An accepted action, executed and reported, whose effects all succeeded is recorded as PASS
   when a sound closure of it is next in the index.
   */
  lemma AcceptedActionsEndInPass(
      w: World, x: Course, e: Envelope, s: ClosureStatement, log: seq<OX.Call>, capacity: int)
    requires WorldValid(w) && HandedOn(w, x) && Closes(w, x, s.claim)
    requires OC.ReadClosure(w, x.closure) == Read(e, s) && Sound(w, x, e, s)
    requires Complete(s.claim.reconciliation)
    requires OC.Successes(s.claim.reconciliation.attempts) == s.claim.reconciliation.expectedCount
    requires OX.Answer(log, capacity, OC.CallFor(s, w.sha256(e.payload))) == OX.Appended
    ensures PolicyValid(x.closure.policy)
    ensures var result := OC.Assembled(w, x.closure, log, capacity);
            result.status == Pass && result.recorded && result.reasons == [PassVerified]
  {
    hide HandedOn, Sound, Closes, OC.ReadClosure, OC.AdmitClosure, ReconciliationValid, OX.Answer;
    SamePolicy(w, x);
    ReadClosuresAreValid(w, x.closure);
    SoundClosuresAreReady(w, x, e, s);
    ValidCount(s.claim.reconciliation);
  }

  /** In an empty index exactly the first step of an attempt is next. */
  lemma FirstStepIsNext(c: OX.Call, capacity: int)
    ensures OX.Answer([], capacity, c) == OX.Appended <==> c.sequence == 1 && c.previous == None && capacity >= 1
  {
    assert OX.ChainOf([], OX.LatestKey(c)) == [];
  }
}
