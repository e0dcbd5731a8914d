/** The three steps of a reference run: prepare, approve, package. */
module ReferenceRun {
  import opened Basics
  import opened Sequences
  import opened StateMachine
  import opened CaseTrace

  /** How long an approval request stays open: 24 hours in microseconds. */
  const APPROVAL_TTL: Time := 86_400_000_000

  datatype AuditReport = AuditReport(
    traceId: Id, tenantId: Id, caseId: Id, createdAt: Time, verdict: Audit, reference: Id, isSealed: bool)

  datatype ApprovalRequest = ApprovalRequest(
    requestId: Id, tenantId: Id, caseId: Id, traceId: Id, subjectOf: Id, artifactHash: Digest,
    auditReference: Id, requiredRole: Role, createdAt: Time, expiresAt: Time)

  /** `conforms` stands for the fixed classification, schema version and approval method. */
  datatype ApprovalRecord = ApprovalRecord(
    artifactId: Id, tenantId: Id, caseId: Id, traceId: Id, createdAt: Time, producer: Identity,
    sources: (Id, Id, Id), conforms: bool, isSealed: bool,
    requestId: Id, decision: Decision, approver: Identity, approverRole: Role,
    approvedHash: Digest, decidedAt: Time, expiresAt: Time)

  datatype PackageRequest = PackageRequest(
    material: Id, audit: AuditReport, request: ApprovalRequest, record: ApprovalRecord, currentHash: Digest)

  datatype PackageManifest = PackageManifest(
    tenantId: Id, caseId: Id, traceId: Id, createdAt: Time, content: Id, isSealed: bool)

  /** A skill result as it is stored: a JSON object, or something else. */
  datatype Stored =
    | NotAnObject
    | Object(input: Option<Digest>, output: Option<Digest>, status: Option<Status>, value: Option<Id>)

  /** What an approver approves. `material` is the content of every artifact but the audit report. */
  datatype Subject = Subject(
    c: CaseRecord, material: Id, audit: AuditReport, results: seq<Stored>, trace: seq<TraceEvent>)

  /** The digests and the identifiers made from them, and the rendering of a package. */
  datatype Hashing = Hashing(
    ofCase: CaseRecord -> Digest,
    ofSubject: Subject -> Digest,
    ofValue: Option<Id> -> Option<Digest>,
    ofApproval: (ApprovalRequest, Digest) -> Digest,
    ofRecord: ApprovalRecord -> Digest,
    ofPackageRequest: PackageRequest -> Digest,
    ofPackage: PackageManifest -> Digest,
    requestId: (Id, Digest) -> Id,
    approvalId: (Id, Decision, Identity, Digest) -> Id,
    rendered: PackageRequest -> Id)

  datatype RunState = RunState(
    traceId: Id, c: CaseRecord, subjectHash: Digest, requestId: Id, createdAt: Time, updatedAt: Time)

  /** Everything a run directory holds. */
  datatype Run = Run(
    state: RunState,
    documents: nat,
    material: Id,
    calculationSealed: bool,
    audit: AuditReport,
    results: seq<Stored>,
    trace: seq<TraceEvent>,
    request: ApprovalRequest,
    record: Option<ApprovalRecord>,
    package: Option<PackageManifest>)

  function TargetOf(decision: Decision): CaseState {
    match decision
    case Approve => Approved
    case Reject => Rejected
    case Revise => RevisionRequired
  }

  /******* The subject of an approval *******/

  function ApprovalPrefix(trace: seq<TraceEvent>): (prefix: seq<TraceEvent>)
    ensures prefix <= trace
  {
    if trace == [] || IsApproval(trace[0]) then [] else [trace[0]] + ApprovalPrefix(trace[1..])
  }

  /** The subject, rebuilt from whatever the run has become since. */
  function CurrentSubject(run: Run): Subject {
    var prefix := ApprovalPrefix(run.trace);
    var c := run.state.c.(state := AwaitingApproval, stateVersion := |Filter(prefix, IsTransition)|);
    Subject(c, run.material, run.audit, run.results, prefix)
  }

  function ExpectedRequest(h: Hashing, audit: AuditReport, subjectHash: Digest): ApprovalRequest {
    ApprovalRequest(
      h.requestId(audit.traceId, subjectHash), audit.tenantId, audit.caseId, audit.traceId, audit.traceId,
      subjectHash, audit.reference, LegalReviewer, audit.createdAt, audit.createdAt + APPROVAL_TTL)
  }

  predicate RequestBinds(state: RunState, request: ApprovalRequest, expected: ApprovalRequest) {
    && state.subjectHash == expected.artifactHash && state.requestId == expected.requestId
    && state.traceId == expected.traceId
    && state.c.tenantId == expected.tenantId && state.c.caseId == expected.caseId
    && state.createdAt == expected.createdAt && request == expected
  }

  predicate RecordBinds(h: Hashing, record: ApprovalRecord, expected: ApprovalRequest) {
    && record.artifactId
       == h.approvalId(expected.requestId, record.decision, record.approver, expected.artifactHash)
    && record.requestId == expected.requestId && record.approverRole == expected.requiredRole
    && record.approvedHash == expected.artifactHash && record.expiresAt == expected.expiresAt
    && expected.createdAt <= record.decidedAt <= expected.expiresAt
    && record.createdAt == record.decidedAt
    && record.tenantId == expected.tenantId && record.caseId == expected.caseId
    && record.traceId == expected.traceId
    && record.sources == (expected.requestId, expected.subjectOf, expected.auditReference)
    && record.producer == record.approver && record.conforms
  }

  /******* Prepare *******/

  datatype SkillResult = SkillResult(
    status: Status, value: Option<Id>, input: Digest, output: Option<Digest>, issues: seq<Id>)

  predicate Succeeded(r: SkillResult) { r.status.Success? && r.value.Some? }

  /** What every skill keeps to: a success has no issues and carries the digest of its value. */
  ghost predicate Honest(h: Hashing, r: SkillResult) {
    Succeeded(r) ==> r.issues == [] && r.output.Some? && r.output == h.ofValue(r.value)
  }

  datatype SkillCall = SkillCall(eventType: EventType, agent: nat, result: SkillResult)

  function StoredForm(k: SkillCall): Stored {
    Object(Some(k.result.input), k.result.output, Some(k.result.status), k.result.value)
  }

  function SkillEvent(k: SkillCall, sequence: int, traceId: Id, c: CaseRecord, now: Time): TraceEvent {
    TraceEvent(sequence, traceId, c.tenantId, c.caseId, PfA(k.agent), Agent, k.eventType,
               Some(k.result.input), k.result.output, k.result.status, now,
               if k.result.issues == [] then None else Some(k.result.issues[0]))
  }

  /** What the skills return, in call order, and what is read off their outputs. */
  datatype Skills = Skills(
    ingest: seq<SkillResult>,
    timeline: SkillResult,
    rules: SkillResult,
    calculation: SkillResult,
    proposals: SkillResult,
    conflicts: SkillResult,
    audit: SkillResult,
    evidenceFound: bool,
    rulesFound: bool,
    calculationSealed: bool,
    proposalsFound: bool,
    verdict: Audit,
    reportReference: Id,
    material: Id)

  datatype Manifest = Manifest(tenantId: Id, caseId: Id, hash: Digest, details: Id)

  function InitialCase(m: Manifest): CaseRecord {
    CaseRecord(m.caseId, m.tenantId, Received, 0, m.hash, m.details)
  }

  function IngestCall(r: SkillResult): SkillCall { SkillCall(EvidenceIngest, 2, r) }

  /** One stage of the preparation: the calls, then the transition with its context. */
  datatype Work = Work(calls: seq<SkillCall>, target: CaseState, context: Context)

  function WorkPlan(s: Skills): seq<Work> {
    [ Work([], Ingesting, NO_CONTEXT.(manifestValid := true, inputHashesMatch := true)),
      Work(Map(s.ingest, IngestCall) + [SkillCall(TimelineBuild, 2, s.timeline)], FactsReady,
           NO_CONTEXT.(evidenceComplete := s.evidenceFound)),
      Work([SkillCall(RuleRetrieve, 3, s.rules)], RulesReady, NO_CONTEXT.(rulesValid := s.rulesFound)),
      Work([SkillCall(DeterministicCalculate, 4, s.calculation)], CalcReady,
           NO_CONTEXT.(calculationComplete := s.calculationSealed)),
      Work([SkillCall(ProposalGenerate, 5, s.proposals)], ProposalReady,
           NO_CONTEXT.(proposalComplete := s.proposalsFound)),
      Work([SkillCall(ConflictDetect, 6, s.conflicts), SkillCall(DecisionAudit, 6, s.audit)], AwaitingApproval,
           NO_CONTEXT.(audit := Some(s.verdict))) ]
  }

  function CallEntry(k: SkillCall, now: Time): Entry {
    Entry(Call(k.eventType, Some(k.result.input), k.result.output), PfA(k.agent), Agent, now)
  }

  function CallEntries(calls: seq<SkillCall>, now: Time): (r: seq<Entry>)
    ensures |r| == |calls| && forall i :: 0 <= i < |calls| ==> r[i] == CallEntry(calls[i], now)
  {
    if calls == [] then []
    else CallEntries(calls[..|calls| - 1], now) + [CallEntry(calls[|calls| - 1], now)]
  }

  function StageOf(w: Work, now: Time): Stage {
    Stage(CallEntries(w.calls, now), Entry(Transit(w.target), PfA(1), Agent, now))
  }

  function StagesOf(work: seq<Work>, now: Time): (r: seq<Stage>)
    ensures |r| == |work| && forall i :: 0 <= i < |work| ==> r[i] == StageOf(work[i], now)
  {
    if work == [] then [] else StagesOf(work[..|work| - 1], now) + [StageOf(work[|work| - 1], now)]
  }

  function ResultsOf(work: seq<Work>): seq<Stored> {
    if work == [] then [] else ResultsOf(work[..|work| - 1]) + Map(work[|work| - 1].calls, StoredForm)
  }

  ghost predicate AllHonest(h: Hashing, calls: seq<SkillCall>) {
    forall i :: 0 <= i < |calls| ==> Honest(h, calls[i].result)
  }

  predicate AllSucceeded(calls: seq<SkillCall>) { forall i :: 0 <= i < |calls| ==> Succeeded(calls[i].result) }

  ghost predicate HonestSkills(h: Hashing, s: Skills) {
    forall i :: 0 <= i < |WorkPlan(s)| ==> AllHonest(h, WorkPlan(s)[i].calls)
  }

  /** The preparation as far as it has come: the local variables of the source. */
  datatype Draft = Draft(c: CaseRecord, trace: seq<TraceEvent>, results: seq<Stored>)

  function DraftOf(c: CaseRecord, traceId: Id, work: seq<Work>, now: Time, digest: CaseRecord -> Digest): Draft {
    var entries := EntriesOf(StagesOf(work, now));
    Draft(CaseAfter(c, entries), TraceOf(c, traceId, entries, digest), ResultsOf(work))
  }

  /** Calls the skills of one stage and moves the case; stops at the first result that is no success. */
  method RunStage(
      h: Hashing, draft: Draft, traceId: Id, w: Work, now: Time, ghost c0: CaseRecord, ghost done: seq<Work>)
    returns (r: Option<Draft>)
    requires AllHonest(h, w.calls)
    requires draft == DraftOf(c0, traceId, done, now, h.ofCase)
    ensures r.Some? <==> AllSucceeded(w.calls) && w.target in Allowed(draft.c.state)
                         && Guard(draft.c.state, w.target, Agent, w.context)
    ensures r.Some? ==> r.value == DraftOf(c0, traceId, done + [w], now, h.ofCase)
    ensures r.Some? ==> r.value.c.state == w.target
  {
    hide CaseAfter, TraceOf, EntriesOf, StagesOf, ResultsOf, Guard, Map, CallEntries;
    var c, trace, results := draft.c, draft.trace, draft.results;
    ghost var entries := EntriesOf(StagesOf(done, now));
    assert entries + CallEntries(w.calls[..0], now) == entries;
    assert results + Map(w.calls[..0], StoredForm) == results;
    for i := 0 to |w.calls|
      invariant c == CaseAfter(c0, entries + CallEntries(w.calls[..i], now))
      invariant trace == TraceOf(c0, traceId, entries + CallEntries(w.calls[..i], now), h.ofCase)
      invariant results == draft.results + Map(w.calls[..i], StoredForm)
      invariant forall j :: 0 <= j < i ==> Succeeded(w.calls[j].result)
    {
      var k := w.calls[i];
      results := results + [StoredForm(k)];
      trace := trace + [SkillEvent(k, |trace| + 1, traceId, c, now)];
      if !Succeeded(k.result) { return None; }
      assert w.calls[..i + 1] == w.calls[..i] + [k];
      CallAppended(h, c0, traceId, entries, w.calls[..i], k, now);
      assert results == draft.results + (Map(w.calls[..i], StoredForm) + [StoredForm(k)]);
    }
    assert w.calls[..|w.calls|] == w.calls;
    var moved := TransitionCase(
      c, StateMachine.Request(w.target, c.stateVersion, PfA(1), Agent, traceId, |trace| + 1, now, w.context), h.ofCase);
    if moved.None? { return None; }
    r := Some(Draft(moved.value.0, trace + [moved.value.1], results));
    StageAppended(h, c0, traceId, done, w, now);
  }

  lemma CallAppended(
      h: Hashing, c0: CaseRecord, traceId: Id, entries: seq<Entry>, calls: seq<SkillCall>, k: SkillCall,
      now: Time)
    requires Honest(h, k.result) && Succeeded(k.result)
    ensures var before, after := entries + CallEntries(calls, now), entries + CallEntries(calls + [k], now);
            && CaseAfter(c0, after) == CaseAfter(c0, before)
            && TraceOf(c0, traceId, after, h.ofCase)
               == TraceOf(c0, traceId, before, h.ofCase)
                  + [SkillEvent(k, |before| + 1, traceId, CaseAfter(c0, before), now)]
    ensures Map(calls + [k], StoredForm) == Map(calls, StoredForm) + [StoredForm(k)]
  {
    var before, after := entries + CallEntries(calls, now), entries + CallEntries(calls + [k], now);
    assert (calls + [k])[..|calls|] == calls;
    assert after == before + [CallEntry(k, now)];
    assert after[..|after| - 1] == before;
  }

  lemma StageAppended(h: Hashing, c0: CaseRecord, traceId: Id, done: seq<Work>, w: Work, now: Time)
    ensures var before := EntriesOf(StagesOf(done, now)) + CallEntries(w.calls, now);
            var after := EntriesOf(StagesOf(done + [w], now));
            var last := Entry(Transit(w.target), PfA(1), Agent, now);
            && after == before + [last]
            && CaseAfter(c0, after) == Moved(CaseAfter(c0, before), w.target)
            && TraceOf(c0, traceId, after, h.ofCase)
               == TraceOf(c0, traceId, before, h.ofCase)
                  + [EventOf(last, traceId, CaseAfter(c0, before), |before| + 1, h.ofCase)]
    ensures ResultsOf(done + [w]) == ResultsOf(done) + Map(w.calls, StoredForm)
  {
    assert (done + [w])[..|done|] == done;
    var stages := StagesOf(done + [w], now);
    assert stages[..|stages| - 1] == StagesOf(done, now);
    var before := EntriesOf(StagesOf(done, now)) + CallEntries(w.calls, now);
    var after := EntriesOf(stages);
    assert after[..|after| - 1] == before;
  }

  function StateBefore(work: seq<Work>, i: nat): CaseState
    requires i <= |work|
  {
    if i == 0 then Received else work[i - 1].target
  }

  predicate StageReady(work: seq<Work>, i: nat)
    requires i < |work|
  {
    && AllSucceeded(work[i].calls) && work[i].target in Allowed(StateBefore(work, i))
    && Guard(StateBefore(work, i), work[i].target, Agent, work[i].context)
  }

  function PreparedRun(h: Hashing, m: Manifest, traceId: Id, s: Skills, now: Time): Run {
    var draft := DraftOf(InitialCase(m), traceId, WorkPlan(s), now, h.ofCase);
    SealedRun(h, draft, |s.ingest|, s, traceId, now)
  }

  /** What the preparation stores; the digest of the subject is taken here. */
  function SealedRun(h: Hashing, draft: Draft, documents: nat, s: Skills, traceId: Id, now: Time): Run {
    var audit := AuditReport(traceId, draft.c.tenantId, draft.c.caseId, now, s.verdict, s.reportReference, true);
    var subjectHash := h.ofSubject(Subject(draft.c, s.material, audit, draft.results, draft.trace));
    var request := ExpectedRequest(h, audit, subjectHash);
    Run(RunState(traceId, draft.c, subjectHash, request.requestId, now, now),
        documents, s.material, s.calculationSealed, audit, draft.results, draft.trace, request, None, None)
  }

  /** Prepares a run up to AWAITING_APPROVAL, or gives up at the first stage that is not ready. */
  method PrepareRun(h: Hashing, m: Manifest, traceId: Id, s: Skills, now: Time) returns (r: Option<Run>)
    requires HonestSkills(h, s)
    ensures r.Some? <==> forall i :: 0 <= i < |WorkPlan(s)| ==> StageReady(WorkPlan(s), i)
    ensures r.Some? ==> r.value == PreparedRun(h, m, traceId, s, now)
  {
    hide WorkPlan, Guard, Allowed, CaseAfter, TraceOf, EntriesOf, StagesOf;
    var work := WorkPlan(s);
    var draft := Draft(InitialCase(m), [], []);
    EmptyDraft(h, InitialCase(m), traceId, now);
    assert work[..0] == [];
    for i := 0 to |work|
      invariant draft == DraftOf(InitialCase(m), traceId, work[..i], now, h.ofCase)
      invariant draft.c.state == StateBefore(work, i)
      invariant forall j :: 0 <= j < i ==> StageReady(work, j)
    {
      var next := RunStage(h, draft, traceId, work[i], now, InitialCase(m), work[..i]);
      if next.None? {
        assert !StageReady(work, i);
        return None;
      }
      assert work[..i + 1] == work[..i] + [work[i]];
      draft := next.value;
    }
    assert work[..|work|] == work;
    r := Some(SealedRun(h, draft, |s.ingest|, s, traceId, now));
  }

  lemma EmptyDraft(h: Hashing, c: CaseRecord, traceId: Id, now: Time)
    ensures DraftOf(c, traceId, [], now, h.ofCase) == Draft(c, [], [])
  {
    assert StagesOf([], now) == [] && EntriesOf([]) == [];
  }

  /** A preparation succeeds exactly when every skill does and nothing is missing. */
  lemma ReadyMeans(s: Skills)
    ensures (forall i :: 0 <= i < |WorkPlan(s)| ==> StageReady(WorkPlan(s), i))
            <==> (forall i :: 0 <= i < |s.ingest| ==> Succeeded(s.ingest[i]))
                 && Succeeded(s.timeline) && Succeeded(s.rules) && Succeeded(s.calculation)
                 && Succeeded(s.proposals) && Succeeded(s.conflicts) && Succeeded(s.audit)
                 && s.evidenceFound && s.rulesFound && s.calculationSealed && s.proposalsFound
                 && s.verdict == AuditPass
  {
    hide StageReady;
    var work := WorkPlan(s);
    FirstReady(s);
    IngestReady(s);
    SingleReady(s);
    AuditReady(s);
    assert |work| == 6;
    assert (forall i :: 0 <= i < |work| ==> StageReady(work, i))
      <==> StageReady(work, 0) && StageReady(work, 1) && StageReady(work, 2) && StageReady(work, 3)
           && StageReady(work, 4) && StageReady(work, 5);
  }

  lemma FirstReady(s: Skills)
    ensures StageReady(WorkPlan(s), 0)
  {
  }

  lemma SingleReady(s: Skills)
    ensures var work := WorkPlan(s);
            && (StageReady(work, 2) <==> Succeeded(s.rules) && s.rulesFound)
            && (StageReady(work, 3) <==> Succeeded(s.calculation) && s.calculationSealed)
            && (StageReady(work, 4) <==> Succeeded(s.proposals) && s.proposalsFound)
  {
    var work := WorkPlan(s);
    assert work[1].target == FactsReady && work[2].target == RulesReady;
    assert work[3].target == CalcReady && work[4].target == ProposalReady;
    assert work[2].calls[0].result == s.rules && work[3].calls[0].result == s.calculation;
    assert work[4].calls[0].result == s.proposals;
  }

  lemma AuditReady(s: Skills)
    ensures StageReady(WorkPlan(s), 5) <==> Succeeded(s.conflicts) && Succeeded(s.audit) && s.verdict == AuditPass
  {
    var work := WorkPlan(s);
    assert work[4].target == ProposalReady && work[5].target == AwaitingApproval;
    assert work[5].calls[0].result == s.conflicts && work[5].calls[1].result == s.audit;
  }

  lemma IngestReady(s: Skills)
    ensures StageReady(WorkPlan(s), 1)
            <==> (forall i :: 0 <= i < |s.ingest| ==> Succeeded(s.ingest[i])) && Succeeded(s.timeline)
                 && s.evidenceFound
  {
    var calls := WorkPlan(s)[1].calls;
    assert WorkPlan(s)[0].target == Ingesting;
    assert calls[|s.ingest|].result == s.timeline;
    assert forall i :: 0 <= i < |s.ingest| ==> calls[i].result == s.ingest[i];
  }

  /******* Approve *******/

  /** The approval skill: a record of the decision, or a refusal. */
  function DecideApproval(
      h: Hashing, state: RunState, request: ApprovalRequest, current: Digest,
      approver: Identity, role: Role, decision: Decision, now: Time): Option<ApprovalRecord>
  {
    if request.tenantId != state.c.tenantId || request.caseId != state.c.caseId || request.traceId != state.traceId
    then None
    else if role != request.requiredRole then None
    else if now < request.createdAt || now > request.expiresAt then None
    else if current != request.artifactHash then None
    else
      Some(ApprovalRecord(
        h.approvalId(request.requestId, decision, approver, request.artifactHash),
        state.c.tenantId, state.c.caseId, state.traceId, now, approver,
        (request.requestId, request.subjectOf, request.auditReference), true, true,
        request.requestId, decision, approver, role, request.artifactHash, now, request.expiresAt))
  }

  function ApprovalEvent(h: Hashing, run: Run, record: ApprovalRecord, current: Digest, now: Time): TraceEvent {
    TraceEvent(
      |run.trace| + 1, run.state.traceId, run.state.c.tenantId, run.state.c.caseId, record.approver, Human,
      HumanApproval, Some(h.ofApproval(run.request, current)), Some(h.ofRecord(record)), Success, now, None)
  }

  /** Records a human decision on a prepared run; None where the source raises. */
  function ApproveRun(
      h: Hashing, run: Run, approver: Identity, role: Role, decision: Decision, now: Time): Option<Run>
  {
    if now < run.state.updatedAt || run.state.c.state != AwaitingApproval then None
    else
      var current := h.ofSubject(CurrentSubject(run));
      var expected := ExpectedRequest(h, run.audit, run.state.subjectHash);
      if !run.audit.isSealed || !RequestBinds(run.state, run.request, expected) then None
      else
        var record := DecideApproval(h, run.state, run.request, current, approver, role, decision, now);
        if record.None? || !RecordBinds(h, record.value, expected) then None
        else
          var context := NO_CONTEXT.(
            decision := Some(decision), approvalValid := current == run.request.artifactHash,
            actorRole := Some(role), requiredRole := Some(run.request.requiredRole));
          var moved := TransitionCase(
            run.state.c,
            StateMachine.Request(TargetOf(decision), run.state.c.stateVersion, approver, Human, run.state.traceId,
                                 |run.trace| + 2, now, context),
            h.ofCase);
          if moved.None? then None
          else
            Some(run.(
              state := run.state.(c := moved.value.0, updatedAt := now),
              trace := run.trace + [ApprovalEvent(h, run, record.value, current, now), moved.value.1],
              record := record))
  }
}
