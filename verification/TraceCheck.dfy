/**
 The trace checker: it replays a stored trace and compares it with the plan of a run. Its
 verdict is proved equal to a specification that is then shown to pin the trace down.
 */
module TraceCheck {
  import opened Basics
  import opened Sequences
  import opened StateMachine
  import opened CaseTrace
  import opened ReferenceRun

  /******* The plan *******/

  const MOVE := Kind(StateTransition, PfA(1), Agent)

  function PreparedPlan(documents: nat): seq<StagePlan> {
    [ StagePlan([], Ingesting, PfA(1), Agent),
      StagePlan(seq(documents, _ => Kind(EvidenceIngest, PfA(2), Agent)) + [Kind(TimelineBuild, PfA(2), Agent)],
                FactsReady, PfA(1), Agent),
      StagePlan([Kind(RuleRetrieve, PfA(3), Agent)], RulesReady, PfA(1), Agent),
      StagePlan([Kind(DeterministicCalculate, PfA(4), Agent)], CalcReady, PfA(1), Agent),
      StagePlan([Kind(ProposalGenerate, PfA(5), Agent)], ProposalReady, PfA(1), Agent),
      StagePlan([Kind(ConflictDetect, PfA(6), Agent), Kind(DecisionAudit, PfA(6), Agent)],
                AwaitingApproval, PfA(1), Agent) ]
  }

  function ApprovalPlan(record: Option<ApprovalRecord>): seq<StagePlan> {
    if record.None? then []
    else
      [ StagePlan([Kind(HumanApproval, record.value.approver, Human)],
                  TargetOf(record.value.decision), record.value.approver, Human) ]
  }

  function PackagePlan(packaged: bool): seq<StagePlan> {
    if !packaged then [] else [ StagePlan([Kind(DocumentPackage, PfA(1), Agent)], Packaged, PfA(1), Agent) ]
  }

  function Plan(documents: nat, record: Option<ApprovalRecord>, packaged: bool): seq<StagePlan> {
    PreparedPlan(documents) + ApprovalPlan(record) + PackagePlan(packaged)
  }

  /** The same plan as the checker writes it down, event by event. */
  function ExpectedEvents(documents: nat, record: Option<ApprovalRecord>, packaged: bool): seq<Kind> {
    [MOVE]
    + seq(documents, _ => Kind(EvidenceIngest, PfA(2), Agent))
    + [ Kind(TimelineBuild, PfA(2), Agent), MOVE, Kind(RuleRetrieve, PfA(3), Agent), MOVE,
        Kind(DeterministicCalculate, PfA(4), Agent), MOVE, Kind(ProposalGenerate, PfA(5), Agent), MOVE,
        Kind(ConflictDetect, PfA(6), Agent), Kind(DecisionAudit, PfA(6), Agent), MOVE ]
    + (if record.None? then []
       else [Kind(HumanApproval, record.value.approver, Human), Kind(StateTransition, record.value.approver, Human)])
    + (if packaged then [Kind(DocumentPackage, PfA(1), Agent), MOVE] else [])
  }

  function ExpectedTargets(record: Option<ApprovalRecord>, packaged: bool): seq<CaseState> {
    [Ingesting, FactsReady, RulesReady, CalcReady, ProposalReady, AwaitingApproval]
    + (if record.None? then [] else [TargetOf(record.value.decision)])
    + (if packaged then [Packaged] else [])
  }

  /******* What the checker accepts *******/

  function PlannedTargets(run: Run): seq<CaseState> { ExpectedTargets(run.record, run.package.Some?) }

  function StartOf(run: Run): CaseRecord { run.state.c.(state := Received, stateVersion := 0) }

  ghost predicate ShapeFits(run: Run) {
    var trace := run.trace;
    && Map(trace, EventKind) == ExpectedEvents(run.documents, run.record, run.package.Some?)
    && (forall i :: 0 <= i < |trace| ==> trace[i].sequence == i + 1)
    && (forall i :: 0 < i < |trace| ==> trace[i - 1].at <= trace[i].at)
    && trace != [] && trace[0].at == run.state.createdAt && trace[|trace| - 1].at == run.state.updatedAt
  }

  predicate EventFits(state: RunState, e: TraceEvent) {
    && e.status.Success? && e.error.None? && e.traceId == state.traceId
    && e.tenantId == state.c.tenantId && e.caseId == state.c.caseId
  }

  ghost predicate EventsFit(run: Run) {
    forall i :: 0 <= i < |run.trace| ==> EventFits(run.state, run.trace[i])
  }

  ghost predicate Linked(moves: seq<TraceEvent>) {
    forall i :: 0 < i < |moves| ==> moves[i - 1].output == moves[i].input
  }

  ghost predicate MovesFit(h: Hashing, run: Run) {
    var moves := Filter(run.trace, IsTransition);
    && |moves| == run.state.c.stateVersion && moves != []
    && moves[0].input == Some(h.ofCase(StartOf(run))) && Linked(moves)
    && moves[|moves| - 1].output == Some(h.ofCase(run.state.c))
    && Replays(moves, StartOf(run), PlannedTargets(run), h.ofCase)
    && Reached(StartOf(run), PlannedTargets(run)) == run.state.c
  }

  ghost predicate ApprovalFits(h: Hashing, run: Run, request: ApprovalRequest, current: Digest) {
    var found := Filter(run.trace, IsApproval);
    if run.record.None? then found == []
    else
      && |found| == 1 && found[0].kind == Human && found[0].actor == run.record.value.approver
      && found[0].status.Success? && found[0].error.None? && found[0].at == run.record.value.decidedAt
      && found[0].input == Some(h.ofApproval(request, current))
      && found[0].output == Some(h.ofRecord(run.record.value))
  }

  ghost predicate PackageFits(run: Run, input: Option<Digest>, output: Option<Digest>) {
    var found := Filter(run.trace, IsPackaging);
    if run.package.None? then found == []
    else
      && |found| == 1 && found[0].actor == PfA(1) && found[0].kind == Agent
      && found[0].status.Success? && found[0].error.None? && found[0].at == run.package.value.createdAt
      && input.Some? && found[0].input == input && output.Some? && found[0].output == output
  }

  predicate ResultFits(h: Hashing, e: TraceEvent, r: Stored) {
    && r.Object? && e.input == r.input && e.output == r.output && r.status == Some(e.status)
    && (r.output.Some? ==> h.ofValue(r.value) == r.output)
  }

  ghost predicate ResultsFit(h: Hashing, run: Run) {
    var calls := Filter(ApprovalPrefix(run.trace), IsCall);
    |calls| == |run.results| && forall i :: 0 <= i < |calls| ==> ResultFits(h, calls[i], run.results[i])
  }

  ghost predicate Clean(
      h: Hashing, run: Run, request: ApprovalRequest, current: Digest, input: Option<Digest>, output: Option<Digest>)
  {
    && ShapeFits(run) && EventsFit(run) && MovesFit(h, run)
    && ApprovalFits(h, run, request, current) && PackageFits(run, input, output) && ResultsFit(h, run)
  }

  /******* The checker *******/

  datatype TraceError =
    | EventSequence | NotContiguous | NotMonotonic | CreationTime | UpdateTime
    | NonSuccess | TraceIdMismatch | TenantMismatch | CaseMismatch
    | TransitionCount | WrongStart | BrokenChain | WrongEnd | PlanLength | PlanInput | PlanOutput | ReplayMismatch
    | ApprovalUnrecorded | ApprovalCount | ApprovalActorKind | ApprovalActor | ApprovalStatus | ApprovalTime
    | ApprovalInput | ApprovalOutput
    | PackageUnrecorded | PackageCount | PackageActor | PackageStatus | PackageTime | PackageInput | PackageOutput
    | ResultCount | ResultNotObject | ResultInput | ResultOutput | ResultStatus | ResultDigest

  method ShapeErrors(run: Run) returns (errors: seq<TraceError>)
    ensures errors == [] <==> ShapeFits(run)
  {
    hide ExpectedEvents, Map, If, EventKind;
    var trace := run.trace;
    errors := If(Map(trace, EventKind) != ExpectedEvents(run.documents, run.record, run.package.Some?), EventSequence);
    ghost var first := errors;
    for i := 0 to |trace|
      invariant errors == [] <==> first == [] && forall j :: 0 <= j < i ==> trace[j].sequence == j + 1
    {
      errors := errors + If(trace[i].sequence != i + 1, NotContiguous);
    }
    ghost var second := errors;
    for i := 0 to |trace|
      invariant errors == [] <==> second == [] && forall j :: 0 < j < i ==> trace[j - 1].at <= trace[j].at
    {
      if i > 0 { errors := errors + If(trace[i].at < trace[i - 1].at, NotMonotonic); }
    }
    errors := errors + If(trace == [] || trace[0].at != run.state.createdAt, CreationTime);
    errors := errors + If(trace == [] || trace[|trace| - 1].at != run.state.updatedAt, UpdateTime);
  }

  method EventErrors(run: Run) returns (errors: seq<TraceError>)
    ensures errors == [] <==> EventsFit(run)
  {
    errors := [];
    for i := 0 to |run.trace|
      invariant errors == [] <==> forall j :: 0 <= j < i ==> EventFits(run.state, run.trace[j])
    {
      var e := run.trace[i];
      errors := errors
        + If(!e.status.Success? || e.error.Some?, NonSuccess) + If(e.traceId != run.state.traceId, TraceIdMismatch)
        + If(e.tenantId != run.state.c.tenantId, TenantMismatch) + If(e.caseId != run.state.c.caseId, CaseMismatch);
    }
  }

  /** The replay of the plan, one expected case after the other. */
  method ReplayErrors(h: Hashing, run: Run, moves: seq<TraceEvent>) returns (errors: seq<TraceError>)
    ensures errors == []
            <==> Replays(moves, StartOf(run), PlannedTargets(run), h.ofCase)
                 && Reached(StartOf(run), PlannedTargets(run)) == run.state.c
  {
    hide If, PlannedTargets, StartOf;
    var targets := PlannedTargets(run);
    if |moves| != |targets| { return [PlanLength]; }
    errors := [];
    var expected := StartOf(run);
    for i := 0 to |moves|
      invariant expected == Reached(StartOf(run), targets[..i])
      invariant errors == [] <==> Replays(moves[..i], StartOf(run), targets[..i], h.ofCase)
    {
      assert moves[..i + 1][..i] == moves[..i] && targets[..i + 1][..i] == targets[..i];
      var next := expected.(state := targets[i], stateVersion := expected.stateVersion + 1);
      errors := errors
        + If(moves[i].input != Some(h.ofCase(expected)), PlanInput)
        + If(moves[i].output != Some(h.ofCase(next)), PlanOutput);
      expected := next;
    }
    assert moves[..|moves|] == moves && targets[..|moves|] == targets;
    errors := errors + If(expected != run.state.c, ReplayMismatch);
  }

  method MoveErrors(h: Hashing, run: Run) returns (errors: seq<TraceError>)
    ensures errors == [] <==> MovesFit(h, run)
  {
    hide Replays, Filter;
    var moves := Filter(run.trace, IsTransition);
    errors := If(|moves| != run.state.c.stateVersion, TransitionCount)
      + If(moves == [] || moves[0].input != Some(h.ofCase(StartOf(run))), WrongStart);
    ghost var first := errors;
    for i := 0 to |moves|
      invariant errors == [] <==> first == [] && forall j :: 0 < j < i ==> moves[j - 1].output == moves[j].input
    {
      if i > 0 { errors := errors + If(moves[i - 1].output != moves[i].input, BrokenChain); }
    }
    errors := errors + If(moves == [] || moves[|moves| - 1].output != Some(h.ofCase(run.state.c)), WrongEnd);
    var more := ReplayErrors(h, run, moves);
    errors := errors + more;
  }

  method ApprovalErrors(
      h: Hashing, run: Run, request: ApprovalRequest, current: Digest) returns (errors: seq<TraceError>)
    ensures errors == [] <==> ApprovalFits(h, run, request, current)
  {
    hide Filter;
    var found := Filter(run.trace, IsApproval);
    if run.record.None? { return If(found != [], ApprovalUnrecorded); }
    if |found| != 1 { return [ApprovalCount]; }
    var e := found[0];
    errors := If(e.kind != Human, ApprovalActorKind) + If(e.actor != run.record.value.approver, ApprovalActor)
      + If(!e.status.Success? || e.error.Some?, ApprovalStatus) + If(e.at != run.record.value.decidedAt, ApprovalTime)
      + If(e.input != Some(h.ofApproval(request, current)), ApprovalInput)
      + If(e.output != Some(h.ofRecord(run.record.value)), ApprovalOutput);
  }

  method PackageErrors(run: Run, input: Option<Digest>, output: Option<Digest>) returns (errors: seq<TraceError>)
    ensures errors == [] <==> PackageFits(run, input, output)
  {
    hide Filter;
    var found := Filter(run.trace, IsPackaging);
    if run.package.None? { return If(found != [], PackageUnrecorded); }
    if |found| != 1 { return [PackageCount]; }
    var e := found[0];
    errors := If(e.actor != PfA(1) || e.kind != Agent, PackageActor)
      + If(!e.status.Success? || e.error.Some?, PackageStatus) + If(e.at != run.package.value.createdAt, PackageTime)
      + If(input.None? || e.input != input, PackageInput) + If(output.None? || e.output != output, PackageOutput);
  }

  method ResultErrors(h: Hashing, run: Run) returns (errors: seq<TraceError>)
    ensures errors == [] <==> ResultsFit(h, run)
  {
    hide Filter, ApprovalPrefix;
    var calls := Filter(ApprovalPrefix(run.trace), IsCall);
    if |calls| != |run.results| { return [ResultCount]; }
    errors := [];
    for i := 0 to |calls|
      invariant errors == [] <==> forall j :: 0 <= j < i ==> ResultFits(h, calls[j], run.results[j])
    {
      var e, r := calls[i], run.results[i];
      if r.NotAnObject? {
        errors := errors + [ResultNotObject];
      } else {
        errors := errors + If(e.input != r.input, ResultInput) + If(e.output != r.output, ResultOutput)
          + If(r.status != Some(e.status), ResultStatus)
          + If(r.output.Some? && h.ofValue(r.value) != r.output, ResultDigest);
      }
    }
  }

  method TraceIntegrityErrors(
      h: Hashing, run: Run, request: ApprovalRequest, current: Digest, input: Option<Digest>, output: Option<Digest>)
    returns (errors: seq<TraceError>)
    ensures errors == [] <==> Clean(h, run, request, current, input, output)
  {
    hide ShapeFits, EventsFit, MovesFit, ApprovalFits, PackageFits, ResultsFit;
    var shape := ShapeErrors(run);
    var events := EventErrors(run);
    var moves := MoveErrors(h, run);
    var approval := ApprovalErrors(h, run, request, current);
    var package := PackageErrors(run, input, output);
    var results := ResultErrors(h, run);
    errors := shape + events + moves + approval + package + results;
  }
}
