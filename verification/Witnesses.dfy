/**
 One action from its certificate to its closure, written out: the premises of the theorems
 about whole courses can be met, and so can those of the two that say what goes wrong.
 */
module Witnesses {
  import opened Basics
  import opened Decimal
  import opened LogIndex
  import opened Attestations
  import opened Selection
  import opened Signers
  import opened ActionCertificate
  import opened ExecutionReceipt
  import opened Handoff
  import opened Progress
  import OC = OutcomeClosure
  import OX = OutcomeIndex

  /** Who signs for what, under which root and key. */
  datatype Signer = Signer(principal: Id, root: Id, key: Key, signature: Sig)

  /**
   Everyone involved, what goes in and what comes out, the keys of the human and the workload,
   and the digests and sort orders of the world they act in.
   */
  datatype Cast = Cast(
    base: World, human: Id, workload: Id, source: Id, issuer: Signer, reporter: Signer, judge: Signer,
    it: Id, product: Id, humanKey: Digest, workloadKey: Digest)

  predicate Differ(base: World, a: Signer, b: Signer) {
    && a.principal != b.principal && a.root != b.root && a.signature != b.signature
    && base.fingerprint(a.key) != base.fingerprint(b.key)
  }

  ghost predicate CastValid(c: Cast) {
    && (forall s :: Lists(c.base.sortedIds(s), s)) && (forall s :: Lists(c.base.sortedDigests(s), s))
    && Differ(c.base, c.issuer, c.reporter) && Differ(c.base, c.issuer, c.judge) && Differ(c.base, c.reporter, c.judge)
    && c.reporter.principal !in {c.human, c.workload}
    && c.judge.principal !in {c.human, c.workload, c.source}
    && c.base.fingerprint(c.reporter.key) !in {c.humanKey, c.workloadKey}
    && c.base.fingerprint(c.judge.key) !in {c.humanKey, c.workloadKey}
    && c.it !in {c.product, c.base.receiptAudience, c.base.closureAudience}
    && c.base.receiptAudience != c.base.closureAudience
  }

  function Mark(c: Cast): Digest { c.base.sha256([]) }

  function RootOf(c: Cast, s: Signer, purpose: Purpose, audience: Id, predicateType: PredicateType): TrustRoot {
    var observes, judges := purpose == ExecutionObserver, purpose == OutcomeObserver;
    TrustRoot(
      s.root, [], purpose, s.key, c.it, s.principal, [audience], [predicateType],
      if observes then ALL_EXECUTION_SCOPES else {}, if judges then ALL_OUTCOME_SCOPES else {},
      if judges then {LocalBytes} else {}, if judges then [c.source] else [], 0, 100, None)
  }

  function IssuerRoot(c: Cast): TrustRoot { RootOf(c, c.issuer, ActionIssuer, c.it, ActionCertificateV01) }

  function ReporterRoot(c: Cast): TrustRoot {
    RootOf(c, c.reporter, ExecutionObserver, c.base.receiptAudience, ExecutionReceiptV01)
  }

  function JudgeRoot(c: Cast): TrustRoot {
    RootOf(c, c.judge, OutcomeObserver, c.base.closureAudience, OutcomeClosureV01)
  }

  function PolicyOf(c: Cast): TrustPolicy {
    TrustPolicy(
      [c.it], [c.human], [c.workload], [c.issuer.principal], [], [c.reporter.principal], [c.judge.principal],
      {LocalBytes}, [c.source], [c.it, c.base.receiptAudience, c.base.closureAudience],
      [ActionCertificateV01, ExecutionReceiptV01, OutcomeClosureV01], false, 1, 1, 1, 1, SECOND, 0,
      [IssuerRoot(c), ReporterRoot(c), JudgeRoot(c)])
  }

  /******* The three statements *******/

  function Certificate(c: Cast): CertificateStatement {
    CertificateStatement(
      [Subject(c.it, Mark(c))],
      CertificatePredicate(
        c.it, c.it, Principal(c.human, c.it), Principal(c.workload, c.it), c.it,
        if c.human == c.workload then [] else [Hop(c.human, c.workload, Mark(c))],
        SubjectBinding(c.it, c.it, Mark(c)), ActionBinding(c.it, Mark(c)), ResourceBinding(c.it, c.product, Mark(c)),
        ContextBinding(c.it, c.it, c.it, Mark(c)), Internal, PolicyBinding(c.it, c.it, Mark(c), 0, 10),
        ApprovalBinding(false, None, None, [], None), EffectBinding(c.it, c.it, Mark(c), c.it), c.it, 0, 0, 10))
  }

  function Intended(c: Cast): Digest { c.base.scopeDigest(ScopeOf(Certificate(c))) }

  function ResultOfCertificate(c: Cast): CertificateResult {
    CertificateResult(Accept, [Accepted], Some(c.it), Some(c.base.sha256([1])), [c.issuer.root], [], true)
  }

  function CertificateRef(c: Cast): CertificateReference {
    CertificateReference(c.it, c.base.sha256([1]), c.base.sha256([1]),
                         c.base.certificateResultDigest(ResultOfCertificate(c)), Intended(c), 1, 1)
  }

  function Receipt(c: Cast): ReceiptStatement {
    ReceiptStatement(
      [Subject(c.product, Mark(c))],
      ReceiptPredicate(
        c.it, c.it, c.it, 1, CertificateRef(c), c.it, c.it, [c.reporter.principal],
        AttemptObservation(c.it, 1, 1, 1, Completed), Principal(c.workload, c.it), Mark(c), Mark(c), c.it, Mark(c),
        [Artifact(c.it, Mark(c), c.it)], [Artifact(c.product, Mark(c), c.it)],
        Operation(c.it, Mark(c), Mark(c), Mark(c)),
        NotObserved, NotObserved, EffectObservation(c.it, c.it, Intended(c), c.it, Observed, Mark(c)),
        NotObserved, NotObserved))
  }

  function ResultOfReceipt(c: Cast): ReceiptResult {
    ReceiptResult(
      Accept, [ReceiptAppended], Some(c.it), Some(c.base.sha256([2])), c.base.sha256([2]), [c.reporter.root], true,
      NotObserved, NotObserved, Observed, NotObserved, NotObserved)
  }

  function ReceiptRef(c: Cast): ReceiptReference {
    ReceiptReference(c.it, c.base.sha256([2]), c.base.sha256([2]), c.base.receiptResultDigest(ResultOfReceipt(c)))
  }

  function Closure(c: Cast, r: Reconciliation): ClosureStatement {
    ClosureStatement(
      [Subject(c.it, Mark(c))],
      ClosurePredicate(
        c.it, c.it, c.it, c.it, 1, None, c.it, c.it, 1, CertificateRef(c), ReceiptRef(c),
        EvidenceSource(LocalBytes, c.source, 1, 10, Mark(c)), [c.judge.principal], r, ClaimedUnknown))
  }

  /** What the effects of this action have to be about, and the evidence that backs them. */
  ghost predicate Fitting(c: Cast, r: Reconciliation) {
    && ReconciliationValid(r)
    && r.effectType == c.it && r.target == c.it && r.intent == Intended(c) && r.idempotencyKey == c.it
    && forall d :: d in OC.EvidenceDigests(Closure(c, r).claim) ==> d == Mark(c)
  }

  /******* The world and the course *******/

  function Signed(payload: Bytes, s: Signer): Envelope { Envelope(payload, [Signature(None, s.signature)]) }

  function EnvelopeIn(c: Cast, bytes: Bytes): Option<Envelope> {
    if bytes == [1] then Some(Signed([1], c.issuer))
    else if bytes == [2] then Some(Signed([2], c.reporter))
    else if bytes == [3] then Some(Signed([3], c.judge))
    else None
  }

  predicate SignsWith(c: Cast, key: Key, signature: Sig) {
    || (key == c.issuer.key && signature == c.issuer.signature)
    || (key == c.reporter.key && signature == c.reporter.signature)
    || (key == c.judge.key && signature == c.judge.signature)
  }

  function Scene(c: Cast, r: Reconciliation): World {
    c.base.(
      verifies := (key: Key, signature: Sig, message: Bytes) => SignsWith(c, key, signature),
      parseEnvelope := (b: Bytes) => EnvelopeIn(c, b),
      parseCertificate := (b: Bytes) => if b == [1] then Some(Certificate(c)) else None,
      parseReceipt := (b: Bytes) => if b == [2] then Some(Receipt(c)) else None,
      parseClosure := (b: Bytes) => if b == [3] then Some(Closure(c, r)) else None)
  }

  function CertificateAttempt(c: Cast): Attempt {
    Attempt([1], PolicyOf(c), ExpectedBindingFor(Certificate(c)), NoResolver, 1)
  }

  function AttemptedReceipt(c: Cast): ReceiptAttempt {
    ReceiptAttempt([2], PolicyOf(c),
                   ExpectedExecutionFor(Receipt(c), Principal(c.human, c.it), [c.workloadKey], [c.humanKey]),
                   [1], ResultOfCertificate(c), 1)
  }

  /** The evidence is the empty byte string, under its own digest. */
  function Evidence(c: Cast): OC.EvidenceResolver {
    OC.EvidenceFrom((d: Digest, s: EvidenceSource, t: Time) => if d == Mark(c) then Some([]) else None)
  }

  function AttemptedClosure(c: Cast, r: Reconciliation): OC.ClosureAttempt {
    OC.ClosureAttempt([3], PolicyOf(c), ExpectedOutcomeFor(Closure(c, r), [c.humanKey], [c.workloadKey]), [1],
                      ResultOfCertificate(c), [2], ResultOfReceipt(c), Evidence(c), 1)
  }

  function CourseOf(c: Cast, r: Reconciliation): Course {
    Course(CertificateAttempt(c), AttemptedReceipt(c), true, AttemptedClosure(c, r))
  }

  /******* Everything is well formed *******/

  lemma CertificateIsValid(c: Cast)
    ensures CertificateValid(Certificate(c))
  {
  }

  lemma ReceiptIsValid(c: Cast)
    requires c.it != c.product
    ensures ReceiptValid(Receipt(c))
  {
    var subjects, outputs := Receipt(c).subjects, Receipt(c).claim.outputs;
    assert subjects[..0] == [] && outputs[..0] == [];
    assert IndexOf(subjects, SubjectName, SubjectDigest) == map[c.product := Mark(c)];
    assert IndexOf(outputs, ArtifactId, ArtifactDigest) == map[c.product := Mark(c)];
  }

  lemma ClosureIsValid(c: Cast, r: Reconciliation)
    requires ReconciliationValid(r)
    ensures ClosureValid(Closure(c, r))
  {
  }

  lemma PolicyIsValid(c: Cast)
    requires CastValid(c)
    ensures PolicyValid(PolicyOf(c))
  {
  }

  /** The operator's bindings are ones their own validators accept. */
  ghost predicate BindingsValid(x: Course) {
    && ExpectedBindingValid(x.certificate.expected) && ExpectedExecutionValid(x.receipt.expected)
    && ExpectedOutcomeValid(x.closure.expected)
  }

  lemma BindingsAreValid(c: Cast, r: Reconciliation)
    requires CastValid(c) && ReconciliationValid(r)
    ensures BindingsValid(CourseOf(c, r))
  {
    CertificateIsValid(c);
    ReceiptIsValid(c);
  }

  lemma SceneIsValid(c: Cast, r: Reconciliation)
    requires CastValid(c) && ReconciliationValid(r)
    ensures WorldValid(Scene(c, r)) && PolicyValid(PolicyOf(c))
  {
    hide ReconciliationValid, CertificateValid, ReceiptValid, ClosureValid, Certificate, Closure, Receipt, PolicyValid;
    CertificateIsValid(c);
    ReceiptIsValid(c);
    ClosureIsValid(c, r);
    PolicyIsValid(c);
  }

  lemma EachSignsAlone(c: Cast, r: Reconciliation, bytes: Bytes, root: TrustRoot)
    requires CastValid(c) && ReconciliationValid(r)
    requires || (bytes == [1] && root == IssuerRoot(c)) || (bytes == [2] && root == ReporterRoot(c))
             || (bytes == [3] && root == JudgeRoot(c))
    ensures var w, e := Scene(c, r), EnvelopeIn(c, bytes);
            e.Some? && root in PolicyOf(c).roots
            && forall x :: x in PolicyOf(c).roots ==> (SignedBy(w, e.value, x) <==> x == root)
  {
    var w, e := Scene(c, r), EnvelopeIn(c, bytes).value;
    assert forall x :: SignedBy(w, e, x) <==> Checks(w, e, 0, x);
  }

  lemma OneIsListed(base: World, id: Id)
    requires forall s :: Lists(base.sortedIds(s), s)
    ensures base.sortedIds({id}) == [id] && base.sortedIds({}) == []
  {
    var none: set<Id> := {};
    assert Lists(base.sortedIds({id}), {id}) && Lists(base.sortedIds(none), none);
    ListedOnce(base.sortedIds({id}), {id});
    ListedOnce(base.sortedIds(none), none);
    assert base.sortedIds({id})[0] in base.sortedIds({id});
  }

  /** The only signer of an envelope is found, chosen if eligible, and named by its root. */
  lemma SignerIsFound(c: Cast, r: Reconciliation, bytes: Bytes, root: TrustRoot, eligible: TrustRoot -> bool)
    requires CastValid(c) && ReconciliationValid(r) && WorldValid(Scene(c, r)) && PolicyValid(PolicyOf(c))
    requires || (bytes == [1] && root == IssuerRoot(c)) || (bytes == [2] && root == ReporterRoot(c))
             || (bytes == [3] && root == JudgeRoot(c))
    ensures var w, e := Scene(c, r), EnvelopeIn(c, bytes);
            && e.Some? && VerifiedRoots(w, e.value, PolicyOf(c).roots) == [root]
            && Chosen(w, [root], eligible) == (if eligible(root) then [root] else [])
            && SortedIds(w, [root]) == [root.id] && SortedIds(w, []) == []
            && Principals([root]) == {root.principal}
  {
    hide WorldValid, PolicyOf, RootOf;
    EachSignsAlone(c, r, bytes, root);
    assert KeysDistinct(PolicyOf(c).roots, RootId) by { RootsDiffer(c); }
    OnlySigner(Scene(c, r), EnvelopeIn(c, bytes).value, PolicyOf(c).roots, root, eligible);
    OneIsListed(c.base, root.id);
    assert Ids([root]) == {root.id} && Ids([]) == {};
  }

  lemma RootsDiffer(c: Cast)
    requires CastValid(c)
    ensures KeysDistinct(PolicyOf(c).roots, RootId)
  {
  }

  /******* The certificate *******/

  lemma IssuerIsEligible(c: Cast)
    ensures Certifiers(ActionIssuer, Certificate(c).claim, PolicyOf(c), 1, None)(IssuerRoot(c))
    ensures PolicyAllows(PolicyOf(c), ExpectedBindingFor(Certificate(c)))
    ensures TimeIsValid(Certificate(c).claim, PolicyOf(c), 1) && !Certificate(c).claim.approval.required
    ensures PolicyOf(c).issuerThreshold == 1
  {
  }

  /** The certificate is accepted, also when human and workload are one principal. */
  lemma CertificateIsAdmitted(c: Cast, r: Reconciliation)
    requires CastValid(c) && ReconciliationValid(r)
    ensures WorldValid(Scene(c, r)) && PolicyValid(PolicyOf(c))
    ensures var w, a := Scene(c, r), CertificateAttempt(c);
            && Admit(w, a).Admitted? && AcceptedCertificate(w, a) == ResultOfCertificate(c)
            && RefersToCertificate(w, a, CertificateRef(c))
            && w.parseEnvelope(a.envelope) == Some(Signed([1], c.issuer))
            && w.parseCertificate([1]) == Some(Certificate(c))
  {
    hide WorldValid, PolicyValid, VerifiedRoots, Chosen, SortedIds, ReconciliationValid, Certifiers, PolicyAllows;
    hide TimeIsValid, PolicyOf, ExpectedBindingFor;
    SceneIsValid(c, r);
    IssuerIsEligible(c);
    var w, a, s := Scene(c, r), CertificateAttempt(c), Certificate(c);
    SignerIsFound(c, r, [1], IssuerRoot(c), Certifiers(ActionIssuer, s.claim, a.policy, a.now, None));
  }

  /******* The receipt *******/

  lemma ReceiptReportsIt(c: Cast, r: Reconciliation)
    ensures ReportsTheAction(Scene(c, r), Receipt(c).claim, Certificate(c), Principal(c.human, c.it))
  {
    var subjects, inputs := Certificate(c).subjects, Receipt(c).claim.inputs;
    IndexOfAppend([], SubjectName, SubjectDigest, subjects[0]);
    IndexOfAppend([], ArtifactId, ArtifactDigest, inputs[0]);
    assert [] + [subjects[0]] == subjects && [] + [inputs[0]] == inputs;
    assert IndexOf(subjects, SubjectName, SubjectDigest) == map[c.it := Mark(c)];
    assert IndexOf(inputs, ArtifactId, ArtifactDigest) == map[c.it := Mark(c)];
    assert Receipt(c).claim.outputs[0].id == c.product;
  }

  lemma BindingIsClear(c: Cast, r: Reconciliation)
    requires CastValid(c) && ReconciliationValid(r)
    ensures WorldValid(Scene(c, r)) && PolicyValid(PolicyOf(c))
    ensures var w, a := Scene(c, r), AttemptedReceipt(c);
            && BindingFinding(w, a, Receipt(c)) == Clear
            && CertificateContext(w, [1], ResultOfCertificate(c), CertificateRef(c)) == Usable(Certificate(c))
  {
    hide WorldValid, Admit, CertificateContext, ReconciliationValid, ReportsTheAction;
    CertificateIsAdmitted(c, r);
    ReceiptReportsIt(c, r);
    AcceptedCertificateIsUsable(Scene(c, r), CertificateAttempt(c), CertificateRef(c));
  }

  lemma IssuersAreFound(c: Cast, r: Reconciliation)
    requires CastValid(c) && ReconciliationValid(r)
    ensures WorldValid(Scene(c, r)) && PolicyValid(PolicyOf(c))
    ensures var w, a := Scene(c, r), CertificateAttempt(c);
            && w.parseEnvelope([1]).Some? && w.parseCertificate(w.parseEnvelope([1]).value.payload).Some?
            && Found(w, a) == (Signed([1], c.issuer), Certificate(c), [IssuerRoot(c)], [])
  {
    hide WorldValid, VerifiedRoots, Chosen, SortedIds, ReconciliationValid;
    SceneIsValid(c, r);
    var a, s := CertificateAttempt(c), Certificate(c);
    SignerIsFound(c, r, [1], IssuerRoot(c), Certifiers(ActionIssuer, s.claim, a.policy, a.now, None));
  }

  lemma PartiesAreKnown(c: Cast, r: Reconciliation)
    requires CastValid(c) && ReconciliationValid(r)
    ensures WorldValid(Scene(c, r)) && PolicyValid(PolicyOf(c))
    ensures var parties := PartiesOf(Scene(c, r), AttemptedReceipt(c), Receipt(c));
            && parties.Some? && parties.value.human == c.human && parties.value.keys == [c.workloadKey, c.humanKey]
            && forall x :: x in parties.value.authority <==> x == IssuerRoot(c)
  {
    hide WorldValid, Admit, CertificateContext, AuthorityRoots, ReconciliationValid, Found;
    CertificateIsAdmitted(c, r);
    IssuersAreFound(c, r);
    BindingIsClear(c, r);
    AuthorityIsEstablishedAgain(Scene(c, r), CertificateAttempt(c));
  }

  lemma ReporterIsEligible(c: Cast, r: Reconciliation, parties: Parties)
    requires CastValid(c) && parties.human == c.human && parties.keys == [c.workloadKey, c.humanKey]
    requires forall x :: x in parties.authority <==> x == IssuerRoot(c)
    ensures MayObserve(Scene(c, r), ReporterRoot(c), Receipt(c).claim, PolicyOf(c))
    ensures ObserverStanding(Scene(c, r), Receipt(c).claim, PolicyOf(c), parties, 1)(ReporterRoot(c)) == Eligible
  {
  }

  lemma ReceiptIsRead(c: Cast, r: Reconciliation)
    requires CastValid(c) && ReconciliationValid(r)
    ensures WorldValid(Scene(c, r)) && PolicyValid(PolicyOf(c))
    ensures ReadReceipt(Scene(c, r), AttemptedReceipt(c)) == Read(Signed([2], c.reporter), Receipt(c))
  {
    hide WorldValid, PolicyValid, VerifiedRoots, Chosen, SortedIds, ReconciliationValid, PolicyOf, CastValid, Receipt;
    SceneIsValid(c, r);
    SignerIsFound(c, r, [2], ReporterRoot(c), x => true);
    var w := Scene(c, r);
    assert w.parseEnvelope([2]) == Some(Signed([2], c.reporter)) && w.parseReceipt([2]) == Some(Receipt(c));
  }

  lemma ReporterQualifies(c: Cast, r: Reconciliation, parties: Parties)
    requires CastValid(c) && ReconciliationValid(r)
    requires parties.human == c.human && parties.keys == [c.workloadKey, c.humanKey]
    requires forall x :: x in parties.authority <==> x == IssuerRoot(c)
    ensures WorldValid(Scene(c, r)) && PolicyValid(PolicyOf(c))
    ensures Observing(Scene(c, r), AttemptedReceipt(c), Signed([2], c.reporter), Receipt(c), parties)
         == (Clear, [c.reporter.root])
  {
    hide WorldValid, PolicyValid, VerifiedRoots, Chosen, SortedIds, ReconciliationValid, MayObserve, ObserverStanding;
    hide PolicyOf, CastValid;
    SceneIsValid(c, r);
    ReporterIsEligible(c, r, parties);
    ThresholdsAreOne(c);
    var w, a := Scene(c, r), AttemptedReceipt(c);
    SignerIsFound(c, r, [2], ReporterRoot(c), EligibleObserver(w, Receipt(c).claim, a.policy, parties, a.now));
    assert [ReporterRoot(c)][0] == ReporterRoot(c);
    assert (set p | p in Receipt(c).claim.observers) == {c.reporter.principal};
  }

  lemma ReceiptIsAdmitted(c: Cast, r: Reconciliation)
    requires CastValid(c) && ReconciliationValid(r)
    ensures WorldValid(Scene(c, r)) && PolicyValid(PolicyOf(c))
    ensures var w, a := Scene(c, r), AttemptedReceipt(c);
            && ReadReceipt(w, a) == Read(Signed([2], c.reporter), Receipt(c))
            && AdmitReceipt(w, a).ReceiptAdmitted? && AcceptedReceipt(w, a, true) == ResultOfReceipt(c)
            && RefersToReceipt(w, a, ResultOfReceipt(c), ReceiptRef(c))
  {
    hide WorldValid, PolicyValid, ReconciliationValid, BindingFinding, PartiesOf, Observing, ReadReceipt, PolicyOf;
    hide CastValid;
    BindingIsClear(c, r);
    PartiesAreKnown(c, r);
    ReceiptIsRead(c, r);
    ReporterQualifies(c, r, PartiesOf(Scene(c, r), AttemptedReceipt(c), Receipt(c)).value);
  }

  lemma ThresholdsAreOne(c: Cast)
    ensures PolicyOf(c).executionObserverThreshold == PolicyOf(c).outcomeObserverThreshold == 1
  {
  }

  /******* The closure *******/

  lemma JudgeMayClose(c: Cast, r: Reconciliation)
    ensures OC.MayClose(Scene(c, r), JudgeRoot(c), Closure(c, r).claim, PolicyOf(c))
    ensures CurrentThroughout(JudgeRoot(c), 1, 1, 0) && PolicyOf(c).skew == 0
  {
  }

  /** The issuer and the reporter are the only roots named in the results. */
  lemma NamedAreOthers(c: Cast, root: TrustRoot)
    requires CastValid(c) && root in PolicyOf(c).roots && root.id in {c.issuer.root, c.reporter.root}
    ensures root.principal != c.judge.principal && root.key in {c.issuer.key, c.reporter.key}
  {
  }

  lemma JudgeIsUninvolved(c: Cast, r: Reconciliation)
    requires CastValid(c)
    ensures var w, a, claim := Scene(c, r), AttemptedClosure(c, r), Closure(c, r).claim;
            !OC.IsInvolved(w, JudgeRoot(c), OC.InvolvedIn(w, a, claim, None, None))
  {
    hide PolicyOf;
    forall root | root in PolicyOf(c).roots && root.id in {c.issuer.root, c.reporter.root}
      ensures root.principal != c.judge.principal && root.key in {c.issuer.key, c.reporter.key}
    {
      NamedAreOthers(c, root);
    }
  }

  lemma JudgeIsEligible(c: Cast, r: Reconciliation)
    requires CastValid(c)
    ensures var w, a, claim := Scene(c, r), AttemptedClosure(c, r), Closure(c, r).claim;
            OC.JudgeStanding(w, claim, a.policy, OC.InvolvedIn(w, a, claim, None, None), 1)(JudgeRoot(c)) == Eligible
  {
    hide OC.MayClose, OC.IsInvolved, OC.InvolvedIn, PolicyOf, CurrentThroughout, CastValid;
    JudgeMayClose(c, r);
    JudgeIsUninvolved(c, r);
  }

  lemma JudgeQualifies(c: Cast, r: Reconciliation)
    requires CastValid(c) && ReconciliationValid(r)
    ensures WorldValid(Scene(c, r)) && PolicyValid(PolicyOf(c))
    ensures var w, a, s := Scene(c, r), AttemptedClosure(c, r), Closure(c, r);
            && OC.ReadClosure(w, a) == Read(Signed([3], c.judge), s)
            && OC.OutcomeObservers(w, VerifiedRoots(w, Signed([3], c.judge), a.policy.roots), s.claim, a.policy,
                                   OC.InvolvedIn(w, a, s.claim, None, None), a.now) == ([c.judge.root], None)
  {
    hide WorldValid, VerifiedRoots, Chosen, SortedIds, ReconciliationValid, PolicyOf, OC.JudgeStanding, OC.InvolvedIn;
    SceneIsValid(c, r);
    JudgeIsEligible(c, r);
    ThresholdsAreOne(c);
    var w, a, claim := Scene(c, r), AttemptedClosure(c, r), Closure(c, r).claim;
    SignerIsFound(c, r, [3], JudgeRoot(c),
                  OC.Judges(w, claim, a.policy, OC.InvolvedIn(w, a, claim, None, None), a.now));
    assert w.parseEnvelope([3]) == Some(Signed([3], c.judge)) && w.parseClosure([3]) == Some(Closure(c, r));
    assert [JudgeRoot(c)][0] == JudgeRoot(c);
    assert (set p | p in claim.observers) == {c.judge.principal};
  }

  lemma EvidenceIsBacked(c: Cast, r: Reconciliation)
    requires Fitting(c, r)
    ensures var a := AttemptedClosure(c, r);
            OC.EvidenceObjection(Scene(c, r), Closure(c, r).claim, a.resolver, a.now).None?
  {
    hide ReconciliationValid, OC.EvidenceDigests;
    var w, a, claim := Scene(c, r), AttemptedClosure(c, r), Closure(c, r).claim;
    OC.EvidenceBacksEveryDigest(w, claim, a.resolver, OC.EvidenceDigests(claim), a.now);
  }

  lemma CourseIsHandedOn(c: Cast, r: Reconciliation)
    requires CastValid(c) && ReconciliationValid(r)
    ensures WorldValid(Scene(c, r)) && HandedOn(Scene(c, r), CourseOf(c, r))
    ensures Closes(Scene(c, r), CourseOf(c, r), Closure(c, r).claim)
    ensures ActionOf(Scene(c, r), CourseOf(c, r)) == Certificate(c).claim
    ensures ReportOf(Scene(c, r), CourseOf(c, r)) == Receipt(c)
  {
    hide WorldValid, Admit, AdmitReceipt, AcceptedCertificate, AcceptedReceipt, PolicyValid, ReconciliationValid;
    hide Certificate, Receipt, Closure, RefersToCertificate, RefersToReceipt, ReadReceipt;
    CertificateIsAdmitted(c, r);
    ReceiptIsAdmitted(c, r);
    ClosureRefers(c, r);
  }

  lemma ClosureRefers(c: Cast, r: Reconciliation)
    ensures Closure(c, r).claim.certificateRef == CertificateRef(c) && Closure(c, r).claim.receiptRef == ReceiptRef(c)
  {
  }

  lemma RootsStayCurrent(c: Cast)
    ensures forall x :: x in PolicyOf(c).roots ==> IsCurrent(x, 1, PolicyOf(c).skew)
  {
  }

  lemma SignersAreConfigured(w: World, x: Course, r: TrustRoot)
    requires WorldValid(w) && HandedOn(w, x) && SignedFor(w, x, r)
    ensures r in x.closure.policy.roots
  {
    hide Admit, AdmitReceipt, ReadReceipt;
    AdmittedWasRead(w, x.certificate);
    AdmittedReceiptIsObserved(w, x.receipt);
    var (e, s, _, _) := Found(w, x.certificate);
    var now, policy := x.certificate.now, x.closure.policy;
    SelectionIsIndependent(RootLabels(w), VerifiedRoots(w, e, policy.roots),
                           Certifiers(ActionIssuer, s.claim, policy, now, None));
    SelectionIsIndependent(RootLabels(w), VerifiedRoots(w, e, policy.roots),
                           Certifiers(HumanApproval, s.claim, policy, now, Some(s.claim.approval.approvers)));
    var reading := ReadReceipt(w, x.receipt);
    var parties := PartiesOf(w, x.receipt, reading.statement).value;
    SelectionIsIndependent(RootLabels(w), VerifiedRoots(w, reading.envelope, policy.roots),
                           EligibleObserver(w, reading.statement.claim, policy, parties, x.receipt.now));
  }

  lemma ClosureRepeatsTheReceipt(c: Cast, r: Reconciliation)
    requires Fitting(c, r)
    ensures Repeats(Closure(c, r).claim, Receipt(c).claim)
    ensures InTime(Closure(c, r).claim, Certificate(c).claim, Receipt(c).claim, 1)
    ensures CastValid(c) ==>
      !(exists p :: p in Closure(c, r).claim.observers && p in OC.LaterParties(Certificate(c).claim, Receipt(c)))
  {
    hide ReconciliationValid;
  }

  /** Of two different principals' action, any effects that fit it can be closed soundly. */
  lemma ClosureIsSound(c: Cast, r: Reconciliation)
    requires CastValid(c) && Fitting(c, r) && c.human != c.workload
    ensures WorldValid(Scene(c, r)) && HandedOn(Scene(c, r), CourseOf(c, r))
    ensures Closes(Scene(c, r), CourseOf(c, r), Closure(c, r).claim)
    ensures OC.ReadClosure(Scene(c, r), AttemptedClosure(c, r)) == Read(Signed([3], c.judge), Closure(c, r))
    ensures Sound(Scene(c, r), CourseOf(c, r), Signed([3], c.judge), Closure(c, r))
  {
    hide WorldValid, HandedOn, Closes, ActionOf, ReportOf, SignedFor, IsCurrent, Repeats, InTime, Closure, Receipt;
    hide ReconciliationValid, OC.OutcomeObservers, OC.EvidenceObjection, OC.InvolvedIn, PolicyOf, OC.LaterParties,
        Scene;
    CourseIsHandedOn(c, r);
    JudgeQualifies(c, r);
    EvidenceIsBacked(c, r);
    ClosureRepeatsTheReceipt(c, r);
    RootsStayCurrent(c);
    var w, x := Scene(c, r), CourseOf(c, r);
    forall root | SignedFor(w, x, root)
      ensures IsCurrent(root, 1, PolicyOf(c).skew)
    {
      SignersAreConfigured(w, x, root);
    }
    assert Certificate(c).claim.human.id == c.human && Certificate(c).claim.workload.id == c.workload;
  }

  /******* What the courses show *******/

  /**
   Whether or not human and workload are one principal, the certificate is accepted; a closure takes it over
   only if not.
   */
  lemma OnePrincipalIsCertified(c: Cast, r: Reconciliation)
    requires CastValid(c) && ReconciliationValid(r) && c.human == c.workload
    ensures WorldValid(Scene(c, r)) && PolicyValid(PolicyOf(c)) && BindingsValid(CourseOf(c, r))
    ensures var w, a := Scene(c, r), CertificateAttempt(c);
            && Admit(w, a).Admitted? && a.expected.human.id == a.expected.workload.id
            && OC.CertificateHandoff(w, a.envelope, AcceptedCertificate(w, a), CertificateRef(c), a.policy, a.now)
               == OC.Untrusted(ActionHandoffUntrusted)
  {
    hide WorldValid, Admit, AcceptedCertificate, OC.CertificateHandoff, ReconciliationValid, RefersToCertificate;
    hide BindingsValid;
    BindingsAreValid(c, r);
    CertificateIsAdmitted(c, r);
    IssuersAreFound(c, r);
    CertificateIsTakenOverIff(Scene(c, r), CertificateAttempt(c), CertificateRef(c), 1);
  }

  lemma {:induction false} AttemptsCarry(attempts: seq<EffectAttempt>, d: Digest)
    requires forall i :: 0 <= i < |attempts| ==> forall x :: x in OC.AttemptDigests(attempts[i]) ==> x == d
    ensures forall x :: x in OC.DigestsOfAttempts(attempts) ==> x == d
  {
    if attempts != [] { AttemptsCarry(attempts[..|attempts| - 1], d); }
  }

  lemma OneOfTwoFits(c: Cast, other: Id)
    requires other != c.it
    ensures Fitting(c, OC.OneOfTwo(c.it, other, Intended(c), Mark(c)))
  {
    var r := OC.OneOfTwo(c.it, other, Intended(c), Mark(c));
    OC.OneOfTwoSucceeded(c.it, other, Intended(c), Mark(c));
    AttemptsCarry(r.attempts, Mark(c));
    assert OC.DigestsOfUnresolved(r.unresolved) == [];
  }

  /**
   An action one of whose two effects failed: every verifier before accepts, every guard passes, and no
   result can be built.
   */
  lemma MixedOutcomeRaises(c: Cast, other: Id, log: seq<OX.Call>, capacity: int)
    requires CastValid(c) && c.human != c.workload && other != c.it
    ensures var r := OC.OneOfTwo(c.it, other, Intended(c), Mark(c));
            var w, a := Scene(c, r), AttemptedClosure(c, r);
            && WorldValid(w) && PolicyValid(a.policy)
            && HandedOn(w, CourseOf(c, r)) && BindingsValid(CourseOf(c, r))
            && OC.Built(OC.Assembled(w, a, log, capacity)) == OC.ValidationRaised
  {
    hide WorldValid, PolicyValid, OC.Assembled, Sound, HandedOn, Closes, OC.GuardsPass, OC.ReadClosure, Scene,
        OC.CoveredMix;
    hide Fitting, OC.Judge, ReconciliationValid, Closure, OC.Examine;
    var r := OC.OneOfTwo(c.it, other, Intended(c), Mark(c));
    OneOfTwoFits(c, other);
    OC.OneOfTwoSucceeded(c.it, other, Intended(c), Mark(c));
    ClosureIsSound(c, r);
    SamePolicy(Scene(c, r), CourseOf(c, r));
    ClosureIsJudgedIff(Scene(c, r), CourseOf(c, r), Signed([3], c.judge), Closure(c, r));
    OC.TotalExceptCoveredMix(Scene(c, r), AttemptedClosure(c, r), log, capacity);
    BindingsAreValid(c, r);
    assert Closure(c, r).claim.reconciliation == r by { ClosureIsAbout(c, r); }
  }

  lemma ClosureIsAbout(c: Cast, r: Reconciliation)
    ensures var claim := Closure(c, r).claim;
            claim.reconciliation == r && claim.sequence == 1 && claim.previous == None
  {
  }

  function OneEffect(c: Cast): Reconciliation {
    var d := Mark(c);
    Reconciliation(
      c.it, c.it, Intended(c), c.it, 1,
      [EffectAttempt(c.it, c.it, c.it, c.it, Intended(c), c.it, Succeeded, Committed, Some(c.it), d, d, d, d)], [])
  }

  lemma OneEffectFits(c: Cast)
    ensures Fitting(c, OneEffect(c)) && Complete(OneEffect(c)) && OC.Successes(OneEffect(c).attempts) == 1
  {
    var r := OneEffect(c);
    AttemptsCarry(r.attempts, Mark(c));
    assert OC.DigestsOfUnresolved(r.unresolved) == [];
    assert r.attempts[..0] == [];
  }

  /** An action whose only effect succeeded is recorded as PASS in an empty index. */
  lemma OneEffectPasses(c: Cast, capacity: int)
    requires CastValid(c) && c.human != c.workload && capacity >= 1
    ensures var w, a := Scene(c, OneEffect(c)), AttemptedClosure(c, OneEffect(c));
            && WorldValid(w) && PolicyValid(a.policy)
            && HandedOn(w, CourseOf(c, OneEffect(c))) && BindingsValid(CourseOf(c, OneEffect(c)))
            && var result := OC.Assembled(w, a, [], capacity);
               result.status == Pass && result.recorded && result.reasons == [PassVerified]
  {
    hide WorldValid, PolicyValid, OC.Assembled, Sound, HandedOn, Closes, OC.ReadClosure, Scene, Fitting, OX.Answer;
    hide ReconciliationValid, Closure, OneEffect, Complete, OC.Successes;
    var r := OneEffect(c);
    hide BindingsValid;
    OneEffectFits(c);
    FittingIsValid(c, r);
    BindingsAreValid(c, r);
    ClosureIsSound(c, r);
    ClosureIsAbout(c, r);
    OneIsExpected(c);
    var s, call := Closure(c, r), OC.CallFor(Closure(c, r), Scene(c, r).sha256([3]));
    FirstStepIsNext(call, capacity);
    AcceptedActionsEndInPass(Scene(c, r), CourseOf(c, r), Signed([3], c.judge), s, [], capacity);
  }

  lemma FittingIsValid(c: Cast, r: Reconciliation)
    requires Fitting(c, r)
    ensures ReconciliationValid(r)
  {
  }

  lemma OneIsExpected(c: Cast)
    ensures OneEffect(c).expectedCount == 1
  {
  }
}
