/**
 The run verifier: what a valid report says about a run, and that every run made by
 prepare, approve and package gets one.
 */
module RunVerification {
  import opened Basics
  import opened Sequences
  import opened StateMachine
  import opened CaseTrace
  import opened ReferenceRun
  import opened TraceCheck

  /******* Package and verify *******/

  /** The packaging skill, regenerated by the verifier from the same request and time. */
  function RenderPackage(h: Hashing, run: Run, request: PackageRequest, now: Time): Option<PackageManifest> {
    var record := request.record;
    if request.audit.verdict != AuditPass || !request.audit.isSealed then None
    else if record.decision != Approve || !record.isSealed then None
    else if record.requestId != request.request.requestId || record.approverRole != request.request.requiredRole
         || record.approvedHash != request.request.artifactHash || record.expiresAt != request.request.expiresAt
    then None
    else if request.currentHash != record.approvedHash then None
    else if now < record.decidedAt || now > record.expiresAt then None
    else if !run.calculationSealed then None
    else
      Some(PackageManifest(run.state.c.tenantId, run.state.c.caseId, run.state.traceId, now, h.rendered(request), true))
  }

  function Current(h: Hashing, run: Run): Digest { h.ofSubject(CurrentSubject(run)) }

  function Expected(h: Hashing, run: Run): ApprovalRequest { ExpectedRequest(h, run.audit, run.state.subjectHash) }

  function RequestFor(h: Hashing, run: Run, record: ApprovalRecord): PackageRequest {
    PackageRequest(run.material, run.audit, Expected(h, run), record, Current(h, run))
  }

  /** Packages an approved run; None where the source raises. */
  method PackageRun(h: Hashing, run: Run, now: Time) returns (r: Option<Run>)
    ensures r == PackagedRun(h, run, now)
  {
    hide Clean;
    if !MayPackage(h, run, now) { return None; }
    var errors := TraceIntegrityErrors(h, run.(package := None), Expected(h, run), Current(h, run), None, None);
    if errors != [] { return None; }
    r := Finished(h, run, now);
  }

  predicate MayPackage(h: Hashing, run: Run, now: Time) {
    && run.state.updatedAt <= now && run.state.c.state == Approved
    && run.audit.isSealed && RequestBinds(run.state, run.request, Expected(h, run))
    && run.record.Some? && RecordBinds(h, run.record.value, Expected(h, run))
  }

  ghost function PackagedRun(h: Hashing, run: Run, now: Time): Option<Run> {
    if !MayPackage(h, run, now) || !Clean(h, run.(package := None), Expected(h, run), Current(h, run), None, None)
    then None
    else Finished(h, run, now)
  }

  function Finished(h: Hashing, run: Run, now: Time): Option<Run>
    requires MayPackage(h, run, now)
  {
    var record := run.record.value;
    var request := RequestFor(h, run, record);
    var manifest := RenderPackage(h, run, request, now);
    if manifest.None? then None
    else
      var event := TraceEvent(
        |run.trace| + 1, run.state.traceId, run.state.c.tenantId, run.state.c.caseId, PfA(1), Agent, DocumentPackage,
        Some(h.ofPackageRequest(request)), Some(h.ofPackage(manifest.value)), Success, now, None);
      var context := NO_CONTEXT.(
        approvalValid := Current(h, run) == record.approvedHash, audit := Some(run.audit.verdict),
        packageValid := manifest.value.isSealed);
      var moved := TransitionCase(
        run.state.c,
        StateMachine.Request(Packaged, run.state.c.stateVersion, PfA(1), Agent, run.state.traceId,
                             |run.trace| + 2, now, context),
        h.ofCase);
      if moved.None? then None
      else
        Some(run.(
          state := run.state.(c := moved.value.0, updatedAt := now),
          trace := run.trace + [event, moved.value.1],
          package := manifest))
  }

  predicate StageFits(run: Run) {
    match run.state.c.state
    case AwaitingApproval => run.record.None?
    case Approved => run.record.Some? && run.record.value.decision == Approve
    case Packaged => run.record.Some? && run.record.value.decision == Approve
    case Rejected => run.record.Some? && run.record.value.decision == Reject
    case RevisionRequired => run.record.Some? && run.record.value.decision == Revise
    case _ => false
  }

  predicate RecordFits(h: Hashing, run: Run) {
    run.record.Some? ==>
      && run.record.value.isSealed && RecordBinds(h, run.record.value, Expected(h, run))
      && run.record.value.approvedHash == Current(h, run)
  }

  predicate ManifestFits(h: Hashing, run: Run) {
    if run.package.None? then run.state.c.state != Packaged
    else
      && run.state.c.state == Packaged && run.package.value.isSealed
      && run.package.value.tenantId == run.state.c.tenantId && run.package.value.caseId == run.state.c.caseId
      && run.package.value.traceId == run.state.traceId
      && run.record.Some? && run.record.value.decision == Approve
      && RenderPackage(h, run, RequestFor(h, run, run.record.value), run.package.value.createdAt) == run.package
  }

  function PackageInput(h: Hashing, run: Run): Option<Digest> {
    if run.package.None? || run.record.None? then None
    else Some(h.ofPackageRequest(RequestFor(h, run, run.record.value)))
  }

  function PackageOutput(h: Hashing, run: Run): Option<Digest> {
    if run.package.None? || run.record.None? then None
    else
      var manifest := RenderPackage(h, run, RequestFor(h, run, run.record.value), run.package.value.createdAt);
      if manifest.None? then None else Some(h.ofPackage(manifest.value))
  }

  /** No check of the verifier finds an error. */
  ghost predicate Valid(h: Hashing, run: Run) {
    && run.state.createdAt <= run.state.updatedAt && StageFits(run)
    && Current(h, run) == run.state.subjectHash && RequestBinds(run.state, run.request, Expected(h, run))
    && RecordFits(h, run) && ManifestFits(h, run)
    && Clean(h, run, Expected(h, run), Current(h, run), PackageInput(h, run), PackageOutput(h, run))
  }

  method VerifyRun(h: Hashing, run: Run) returns (valid: bool)
    ensures valid <==> Valid(h, run)
  {
    hide Clean;
    valid := run.state.createdAt <= run.state.updatedAt && StageFits(run);
    if Current(h, run) != run.state.subjectHash { valid := false; }
    if !RequestBinds(run.state, run.request, Expected(h, run)) { valid := false; }
    if !RecordFits(h, run) { valid := false; }
    if !ManifestFits(h, run) { valid := false; }
    var errors := TraceIntegrityErrors(
      h, run, Expected(h, run), Current(h, run), PackageInput(h, run), PackageOutput(h, run));
    if errors != [] { valid := false; }
  }

  /******* What a valid report says *******/

  /** The entries a checked trace stands for, given the targets of its transitions. */
  function Recover(trace: seq<TraceEvent>, targets: seq<CaseState>): seq<Entry> {
    if trace == [] then []
    else
      var n, e := |trace| - 1, trace[|trace| - 1];
      if IsTransition(e) && targets != [] then
        Recover(trace[..n], targets[..|targets| - 1])
        + [Entry(Transit(targets[|targets| - 1]), e.actor, e.kind, e.at)]
      else
        Recover(trace[..n], targets) + [Entry(Call(e.eventType, e.input, e.output), e.actor, e.kind, e.at)]
  }

  ghost predicate Plain(e: TraceEvent, traceId: Id, c: CaseRecord) {
    e.status.Success? && e.error.None? && e.traceId == traceId && e.tenantId == c.tenantId && e.caseId == c.caseId
  }

  lemma {:induction false} CaseKeepsScope(c: CaseRecord, entries: seq<Entry>)
    ensures CaseAfter(c, entries).tenantId == c.tenantId && CaseAfter(c, entries).caseId == c.caseId
  {
    if entries != [] { CaseKeepsScope(c, entries[..|entries| - 1]); }
  }

  /** The entries replay the trace through the targets. */
  ghost predicate Explains(
      entries: seq<Entry>, trace: seq<TraceEvent>, c: CaseRecord, traceId: Id, targets: seq<CaseState>,
      digest: CaseRecord -> Digest)
  {
    && TraceOf(c, traceId, entries, digest) == trace && Targets(entries) == targets
    && CallsApart(entries) && Map(entries, EntryKind) == Map(trace, EventKind)
  }

  lemma ExplainsOneMore(
      before: seq<Entry>, e: Entry, trace: seq<TraceEvent>, event: TraceEvent, c: CaseRecord, traceId: Id,
      targets: seq<CaseState>, digest: CaseRecord -> Digest)
    requires Explains(before, trace, c, traceId, targets, digest)
    requires e.act.Call? ==> e.act.eventType != StateTransition
    requires event == EventOf(e, traceId, CaseAfter(c, before), |trace| + 1, digest)
    ensures Explains(before + [e], trace + [event], c, traceId,
                     targets + if e.act.Transit? then [e.act.target] else [], digest)
  {
    hide CaseAfter;
    var entries := before + [e];
    assert entries[..|entries| - 1] == before;
    MapJoin(before, [e], EntryKind);
    MapJoin(trace, [event], EventKind);
    assert Map([e], EntryKind) == [EntryKind(e)] && Map([event], EventKind) == [EventKind(event)];
    assert CallsApart(entries);
  }

  /** A trace that passes is the trace of a run through the planned targets, event by event. */
  lemma {:induction false} TraceIsAReplay(
      trace: seq<TraceEvent>, c: CaseRecord, traceId: Id, targets: seq<CaseState>, digest: CaseRecord -> Digest)
    requires Replays(Filter(trace, IsTransition), c, targets, digest)
    requires forall i :: 0 <= i < |trace| ==> trace[i].sequence == i + 1 && Plain(trace[i], traceId, c)
    ensures Explains(Recover(trace, targets), trace, c, traceId, targets, digest)
  {
    hide Reached, Explains, EventOf, CaseAfter, TraceOf, Targets, Filter;
    if trace == [] {
      EmptyIsExplained(c, traceId, digest);
      assert Filter(trace, IsTransition) == [] by { NothingToFilter(); }
    } else {
      var n, e := |trace| - 1, trace[|trace| - 1];
      var moves := Filter(trace, IsTransition);
      assert trace == trace[..n] + [e];
      LastOfFilter(trace, IsTransition);
      if IsTransition(e) {
        var m := |targets| - 1;
        assert moves[..m] == Filter(trace[..n], IsTransition);
        TraceIsAReplay(trace[..n], c, traceId, targets[..m], digest);
        var before := Recover(trace[..n], targets[..m]);
        assert targets == targets[..m] + [targets[m]];
        MoveIsRecovered(before, trace[..n], e, c, traceId, targets, digest);
        ExplainsOneMore(before, Entry(Transit(targets[m]), e.actor, e.kind, e.at), trace[..n], e, c, traceId,
                        targets[..m], digest);
      } else {
        assert moves == Filter(trace[..n], IsTransition);
        TraceIsAReplay(trace[..n], c, traceId, targets, digest);
        var before := Recover(trace[..n], targets);
        assert targets + [] == targets;
        CallIsRecovered(before, trace[..n], e, c, traceId, digest);
        ExplainsOneMore(before, Entry(Call(e.eventType, e.input, e.output), e.actor, e.kind, e.at), trace[..n], e, c,
                        traceId, targets, digest);
      }
    }
  }

  lemma NothingToFilter()
    ensures Filter([], IsTransition) == []
  {
  }

  lemma LastOfFilter(trace: seq<TraceEvent>, keep: TraceEvent -> bool)
    requires trace != []
    ensures var n := |trace| - 1;
            Filter(trace, keep) == Filter(trace[..n], keep) + if keep(trace[n]) then [trace[n]] else []
  {
  }

  lemma EmptyIsExplained(c: CaseRecord, traceId: Id, digest: CaseRecord -> Digest)
    ensures Explains([], [], c, traceId, [], digest)
  {
  }

  lemma MoveIsRecovered(
      before: seq<Entry>, trace: seq<TraceEvent>, e: TraceEvent, c: CaseRecord, traceId: Id,
      targets: seq<CaseState>, digest: CaseRecord -> Digest)
    requires targets != [] && IsTransition(e) && Plain(e, traceId, c) && e.sequence == |trace| + 1
    requires Explains(before, trace, c, traceId, targets[..|targets| - 1], digest)
    requires e.input == Some(digest(Reached(c, targets[..|targets| - 1])))
    requires e.output == Some(digest(Reached(c, targets)))
    ensures e == EventOf(Entry(Transit(targets[|targets| - 1]), e.actor, e.kind, e.at),
                         traceId, CaseAfter(c, before), |trace| + 1, digest)
  {
    CaseIsReached(c, before);
    CaseKeepsScope(c, before);
    assert Reached(c, targets) == Moved(CaseAfter(c, before), targets[|targets| - 1]);
  }

  lemma CallIsRecovered(
      before: seq<Entry>, trace: seq<TraceEvent>, e: TraceEvent, c: CaseRecord, traceId: Id,
      digest: CaseRecord -> Digest)
    requires !IsTransition(e) && Plain(e, traceId, c) && e.sequence == |trace| + 1
    ensures e == EventOf(Entry(Call(e.eventType, e.input, e.output), e.actor, e.kind, e.at),
                         traceId, CaseAfter(c, before), |trace| + 1, digest)
  {
    CaseKeepsScope(c, before);
  }

  ghost predicate Injective(digest: CaseRecord -> Digest) { forall a, b :: digest(a) == digest(b) ==> a == b }

  /** Under an injective digest, a trace with a transition in it has one starting case and one reading. */
  lemma {:induction false} OnlyOneReplay(
      c: CaseRecord, entries: seq<Entry>, d: CaseRecord, others: seq<Entry>, traceId: Id, digest: CaseRecord -> Digest)
    requires Injective(digest) && CallsApart(entries) && CallsApart(others)
    requires TraceOf(c, traceId, entries, digest) == TraceOf(d, traceId, others, digest)
    ensures entries == others && (Targets(entries) != [] ==> c == d)
  {
    hide Reached;
    if entries != [] {
      var n := |entries| - 1;
      assert |others| == |TraceOf(d, traceId, others, digest)| == |entries|;
      assert TraceOf(c, traceId, entries[..n], digest) == TraceOf(c, traceId, entries, digest)[..n];
      assert TraceOf(d, traceId, others[..n], digest) == TraceOf(d, traceId, others, digest)[..n];
      OnlyOneReplay(c, entries[..n], d, others[..n], traceId, digest);
      var e := TraceOf(c, traceId, entries, digest)[n];
      LastEntryIsKnown(c, entries[..n], entries[n], d, others[n], traceId, digest);
      assert entries == entries[..n] + [entries[n]] && others == others[..n] + [others[n]];
      if Targets(entries[..n]) == [] {
        CaseIsReached(c, entries[..n]);
        CaseIsReached(d, others[..n]);
        assert Reached(c, []) == c && Reached(d, []) == d;
      }
    }
  }

  lemma LastEntryIsKnown(
      c: CaseRecord, before: seq<Entry>, e: Entry, d: CaseRecord, f: Entry, traceId: Id, digest: CaseRecord -> Digest)
    requires Injective(digest)
    requires e.act.Call? ==> e.act.eventType != StateTransition
    requires f.act.Call? ==> f.act.eventType != StateTransition
    requires EventOf(e, traceId, CaseAfter(c, before), |before| + 1, digest)
          == EventOf(f, traceId, CaseAfter(d, before), |before| + 1, digest)
    ensures e == f && (e.act.Transit? ==> CaseAfter(c, before) == CaseAfter(d, before))
  {
    hide CaseAfter;
    var x, y := CaseAfter(c, before), CaseAfter(d, before);
    assert TypeOf(e) == TypeOf(f);
    if e.act.Transit? {
      assert digest(x) == digest(y);
      assert digest(Moved(x, e.act.target)) == digest(Moved(y, f.act.target));
      assert Moved(x, e.act.target).state == Moved(y, f.act.target).state;
    }
  }

  /******* The plan *******/

  lemma {:induction false} PlanKindsJoin(a: seq<StagePlan>, b: seq<StagePlan>)
    ensures PlanKinds(a + b) == PlanKinds(a) + PlanKinds(b)
  {
    if b == [] {
      assert a + b == a && PlanKinds(a) + [] == PlanKinds(a);
    } else {
      var n := |b| - 1;
      PlanKindsJoin(a, b[..n]);
      assert (a + b)[..|a + b| - 1] == a + b[..n];
      assert (a + b)[|a + b| - 1] == b[n];
    }
  }

  lemma PlanKindsOfOne(p: StagePlan)
    ensures PlanKinds([p]) == p.calls + [Kind(StateTransition, p.actor, p.kind)]
  {
    assert [p][..0] == [] && PlanKinds([]) == [];
  }

  lemma PreparedPlanKinds(documents: nat)
    ensures PlanKinds(PreparedPlan(documents)) == ExpectedEvents(documents, None, false)
  {
    hide PlanKinds;
    var p := PreparedPlan(documents);
    var ingest := seq(documents, _ => Kind(EvidenceIngest, PfA(2), Agent));
    PlanKindsOfOne(p[0]);
    PlanKindsOfOne(p[1]);
    PlanKindsOfOne(p[2]);
    PlanKindsOfOne(p[3]);
    PlanKindsOfOne(p[4]);
    PlanKindsOfOne(p[5]);
    PlanKindsJoin([p[0]], [p[1]]);
    PlanKindsJoin([p[0]] + [p[1]], [p[2]]);
    PlanKindsJoin([p[0]] + [p[1]] + [p[2]], [p[3]]);
    PlanKindsJoin([p[0]] + [p[1]] + [p[2]] + [p[3]], [p[4]]);
    PlanKindsJoin([p[0]] + [p[1]] + [p[2]] + [p[3]] + [p[4]], [p[5]]);
    assert p == [p[0]] + [p[1]] + [p[2]] + [p[3]] + [p[4]] + [p[5]];
  }

  /** The checker's flat list of events is the plan of stages. */
  lemma PlanIsExpected(documents: nat, record: Option<ApprovalRecord>, packaged: bool)
    ensures PlanKinds(Plan(documents, record, packaged)) == ExpectedEvents(documents, record, packaged)
    ensures PlanTargets(Plan(documents, record, packaged)) == ExpectedTargets(record, packaged)
  {
    KindsAreExpected(documents, record, packaged);
    TargetsAreExpected(documents, record, packaged);
  }

  lemma KindsAreExpected(documents: nat, record: Option<ApprovalRecord>, packaged: bool)
    ensures PlanKinds(Plan(documents, record, packaged)) == ExpectedEvents(documents, record, packaged)
  {
    hide PreparedPlan, PlanKinds;
    PreparedPlanKinds(documents);
    var prepared, approval, package := PreparedPlan(documents), ApprovalPlan(record), PackagePlan(packaged);
    PlanKindsJoin(prepared, approval);
    PlanKindsJoin(prepared + approval, package);
    NoKinds();
    if record.Some? { PlanKindsOfOne(approval[0]); }
    if packaged { PlanKindsOfOne(package[0]); }
  }

  lemma NoKinds()
    ensures PlanKinds([]) == []
  {
  }

  lemma TargetsAreExpected(documents: nat, record: Option<ApprovalRecord>, packaged: bool)
    ensures PlanTargets(Plan(documents, record, packaged)) == ExpectedTargets(record, packaged)
  {
    hide Map;
    var prepared, approval, package := PreparedPlan(documents), ApprovalPlan(record), PackagePlan(packaged);
    MapJoin(prepared, approval, PlanTarget);
    MapJoin(prepared + approval, package, PlanTarget);
  }

  /** Each target is allowed after the one before it, the first after RECEIVED. */
  ghost predicate IsPath(targets: seq<CaseState>) {
    forall i :: 0 <= i < |targets| ==> targets[i] in Allowed(Preceding(targets, i))
  }

  function Preceding(targets: seq<CaseState>, i: nat): CaseState
    requires i < |targets|
  {
    if i == 0 then Received else targets[i - 1]
  }

  lemma PlannedPath(record: Option<ApprovalRecord>, packaged: bool)
    requires packaged ==> record.Some? && record.value.decision == Approve
    ensures IsPath(ExpectedTargets(record, packaged))
  {
    var targets := ExpectedTargets(record, packaged);
    assert targets[..6] == [Ingesting, FactsReady, RulesReady, CalcReady, ProposalReady, AwaitingApproval];
    forall i | 0 <= i < |targets|
      ensures targets[i] in Allowed(Preceding(targets, i))
    {
      if i == 6 {
        assert targets[5] == AwaitingApproval && targets[6] == TargetOf(record.value.decision);
      } else if i == 7 {
        assert targets[6] == Approved && targets[7] == Packaged;
      } else {
        assert targets[i] == targets[..6][i] && (i > 0 ==> targets[i - 1] == targets[..6][i - 1]);
      }
    }
  }

  /******* What a valid report says *******/

  /** The run as its trace tells it. */
  ghost predicate ToldBy(run: Run, entries: seq<Entry>, digest: CaseRecord -> Digest) {
    && run.trace == TraceOf(StartOf(run), run.state.traceId, entries, digest)
    && run.state.c == CaseAfter(StartOf(run), entries)
    && Targets(entries) == PlannedTargets(run) && IsPath(Targets(entries))
    && |Targets(entries)| == run.state.c.stateVersion
    && CallsApart(entries)
    && Map(entries, EntryKind) == PlanKinds(Plan(run.documents, run.record, run.package.Some?))
  }

  lemma ValidRunIsToldByItsTrace(h: Hashing, run: Run) returns (entries: seq<Entry>)
    requires Valid(h, run)
    ensures ToldBy(run, entries, h.ofCase)
  {
    hide ExpectedEvents, Plan, Reached, Filter, RenderPackage, RequestBinds, RecordBinds, ApprovalFits, PackageFits,
        ResultsFit;
    hide CurrentSubject;
    var targets := PlannedTargets(run);
    entries := Recover(run.trace, targets);
    TraceIsAReplay(run.trace, StartOf(run), run.state.traceId, targets, h.ofCase);
    CaseIsReached(StartOf(run), entries);
    PlanIsExpected(run.documents, run.record, run.package.Some?);
    PlannedPath(run.record, run.package.Some?);
  }

  /**
   A valid report leaves one reading of the trace: no other list of entries, from no other
   starting case, leaves it. The reading starts at RECEIVED in version 0, goes along allowed
   transitions, one per version, through the planned kinds of events, and ends at the stored case.
   */
  lemma ValidTraceHasOneReading(h: Hashing, run: Run, c: CaseRecord, others: seq<Entry>)
    requires Valid(h, run) && Injective(h.ofCase)
    requires CallsApart(others) && run.trace == TraceOf(c, run.state.traceId, others, h.ofCase)
    ensures c == StartOf(run) && ToldBy(run, others, h.ofCase)
  {
    hide Valid, Plan;
    var entries := ValidRunIsToldByItsTrace(h, run);
    assert Targets(entries) != [];
    OnlyOneReplay(StartOf(run), entries, c, others, run.state.traceId, h.ofCase);
  }

  /** The approval event of a packaged run: where it is, and whose. */
  lemma PackagedMeansApprovedByAHuman(h: Hashing, run: Run) returns (k: nat)
    requires Valid(h, run) && run.state.c.state == Packaged
    ensures run.record.Some? && run.record.value.decision == Approve
    ensures k < |run.trace| - 1 && run.trace[k].eventType == HumanApproval && run.trace[k].kind == Human
    ensures run.trace[k].actor == run.record.value.approver && run.trace[k].at == run.record.value.decidedAt
    ensures forall i :: 0 <= i < |run.trace| && run.trace[i].eventType == HumanApproval ==> i == k
    ensures run.trace[|run.trace| - 1].output == Some(h.ofCase(run.state.c))
  {
    var n := |run.trace|;
    var kinds := ExpectedEvents(run.documents, run.record, true);
    assert Map(run.trace, EventKind) == kinds;
    k := n - 4;
    assert EventKind(run.trace[k]) == kinds[k] && EventKind(run.trace[n - 1]) == kinds[n - 1];
    OneHumanApproval(run.documents, run.record, k);
    forall i | 0 <= i < n && run.trace[i].eventType == HumanApproval
      ensures i == k
    {
      assert EventKind(run.trace[i]) == kinds[i];
    }
    TheOnlyOne(run.trace, k);
    LastMoveIsLast(run.trace);
  }

  lemma OneHumanApproval(documents: nat, record: Option<ApprovalRecord>, k: nat)
    requires record.Some? && k == |ExpectedEvents(documents, record, true)| - 4
    ensures var kinds := ExpectedEvents(documents, record, true);
            && kinds[k] == Kind(HumanApproval, record.value.approver, Human)
            && kinds[|kinds| - 1].eventType == StateTransition
            && forall i :: 0 <= i < |kinds| && kinds[i].eventType == HumanApproval ==> i == k
  {
  }

  lemma {:induction false} TheOnlyOne(trace: seq<TraceEvent>, k: nat)
    requires k < |trace| && IsApproval(trace[k])
    requires forall i :: 0 <= i < |trace| && IsApproval(trace[i]) ==> i == k
    ensures Filter(trace, IsApproval) == [trace[k]]
  {
    var n := |trace| - 1;
    if k == n { FilterNone(trace[..n], IsApproval); } else { TheOnlyOne(trace[..n], k); }
  }

  lemma LastMoveIsLast(trace: seq<TraceEvent>)
    requires trace != [] && IsTransition(trace[|trace| - 1])
    ensures var moves := Filter(trace, IsTransition); moves != [] && moves[|moves| - 1] == trace[|trace| - 1]
  {
  }

  /**
   The record of a valid run is about this very run: its tenant, case and trace, the subject as
   it stands now, decided by a holder of the role within a day of the run's creation, and
   entered in the trace as the decision on this subject.
   */
  lemma ApprovalIsBoundToItsRun(h: Hashing, run: Run)
    requires Valid(h, run) && run.record.Some?
    ensures var r := run.record.value;
            && r.tenantId == run.state.c.tenantId && r.caseId == run.state.c.caseId && r.traceId == run.state.traceId
            && r.approverRole == LegalReviewer && r.producer == r.approver
            && r.approvedHash == run.state.subjectHash == h.ofSubject(CurrentSubject(run))
            && run.state.createdAt <= r.decidedAt <= run.state.createdAt + APPROVAL_TTL
            && run.state.createdAt == run.audit.createdAt
    ensures exists i :: 0 <= i < |run.trace| && IsApproval(run.trace[i])
              && run.trace[i].input == Some(h.ofApproval(run.request, run.state.subjectHash))
              && run.trace[i].output == Some(h.ofRecord(run.record.value))
  {
    hide ShapeFits, EventsFit, MovesFit, PackageFits, ResultsFit, StageFits, ManifestFits, CurrentSubject, Filter;
    var found := Filter(run.trace, IsApproval);
    assert found != [] && found[0] in found;
    FilterKeeps(run.trace, IsApproval, found[0]);
    var i :| 0 <= i < |run.trace| && run.trace[i] == found[0];
    assert IsApproval(run.trace[i]);
  }

  /**
   Two valid runs sealed under one subject digest hold the same artifacts and results, and the
   same trace up to the approval: what was approved is what is there.
   */
  lemma ApprovalPinsItsSubject(h: Hashing, run: Run, other: Run)
    requires Valid(h, run) && Valid(h, other) && run.state.subjectHash == other.state.subjectHash
    requires forall a, b :: h.ofSubject(a) == h.ofSubject(b) ==> a == b
    ensures run.material == other.material && run.audit == other.audit && run.results == other.results
    ensures ApprovalPrefix(run.trace) == ApprovalPrefix(other.trace)
    ensures run.request == other.request
  {
    hide Clean, StageFits, RecordFits, ManifestFits;
    assert h.ofSubject(CurrentSubject(run)) == h.ofSubject(CurrentSubject(other));
    assert CurrentSubject(run) == CurrentSubject(other);
  }
}
