/** Case states, the transitions between them and the guards in front of each. */
module StateMachine {
  import opened Basics

  datatype CaseState =
    | Received | Ingesting | NeedsEvidence | FactsReady | RulesReady | CalcReady | ProposalReady
    | AuditBlocked | AwaitingApproval | Approved | Rejected | RevisionRequired | Packaged | Closed

  datatype ActorKind = Agent | Human | System

  datatype Decision = Approve | Reject | Revise

  datatype Audit = AuditPass | AuditRevise | AuditBlock

  /** An agent of the system by its number, or any other actor. */
  datatype Identity = PfA(number: nat) | Named(name: Id)

  datatype Role = LegalReviewer | OtherRole(name: Id)

  datatype CaseRecord = CaseRecord(
    caseId: Id,
    tenantId: Id,
    state: CaseState,
    stateVersion: nat,
    manifestHash: Digest,
    details: Id)

  datatype EventType =
    | StateTransition | EvidenceIngest | TimelineBuild | RuleRetrieve | DeterministicCalculate
    | ProposalGenerate | ConflictDetect | DecisionAudit | HumanApproval | DocumentPackage | OtherType(name: Id)

  datatype Status = Success | OtherStatus(name: Id)

  datatype TraceEvent = TraceEvent(
    sequence: int,
    traceId: Id,
    tenantId: Id,
    caseId: Id,
    actor: Identity,
    kind: ActorKind,
    eventType: EventType,
    input: Option<Digest>,
    output: Option<Digest>,
    status: Status,
    at: Time,
    error: Option<Id>)

  function Allowed(state: CaseState): set<CaseState> {
    match state
    case Received => {Ingesting}
    case Ingesting => {NeedsEvidence, FactsReady}
    case NeedsEvidence => {Ingesting, Rejected}
    case FactsReady => {RulesReady, NeedsEvidence}
    case RulesReady => {CalcReady, NeedsEvidence}
    case CalcReady => {ProposalReady, NeedsEvidence}
    case ProposalReady => {AuditBlocked, AwaitingApproval}
    case AuditBlocked => {RevisionRequired}
    case AwaitingApproval => {Approved, Rejected, RevisionRequired}
    case Approved => {Packaged, RevisionRequired}
    case Rejected => {Closed}
    case RevisionRequired => {Ingesting, Closed}
    case Packaged => {Closed, RevisionRequired}
    case Closed => {}
  }

  datatype Context = Context(
    manifestValid: bool,
    inputHashesMatch: bool,
    evidenceComplete: bool,
    hasBlockingIssue: bool,
    rulesValid: bool,
    calculationComplete: bool,
    proposalComplete: bool,
    audit: Option<Audit>,
    decision: Option<Decision>,
    approvalValid: bool,
    packageValid: bool,
    closeConfirmed: bool,
    actorRole: Option<Role>,
    requiredRole: Option<Role>)

  const NO_CONTEXT :=
    Context(false, false, false, false, false, false, false, None, None, false, false, false, None, None)

  predicate Guard(current: CaseState, target: CaseState, kind: ActorKind, context: Context) {
    if target == Ingesting && current == Received then context.manifestValid && context.inputHashesMatch
    else if target == FactsReady then context.evidenceComplete && !context.hasBlockingIssue
    else if target == NeedsEvidence then context.hasBlockingIssue
    else if target == RulesReady then context.rulesValid && !context.hasBlockingIssue
    else if target == CalcReady then context.calculationComplete && !context.hasBlockingIssue
    else if target == ProposalReady then context.proposalComplete
    else if target == AuditBlocked then context.audit == Some(AuditBlock) || context.audit == Some(AuditRevise)
    else if target == AwaitingApproval then context.audit == Some(AuditPass) && !context.hasBlockingIssue
    else if current == AwaitingApproval then
      && kind == Human
      && context.actorRole.Some? && context.actorRole == context.requiredRole
      && (target == Approved ==> context.decision == Some(Approve) && context.approvalValid)
      && (target == Rejected ==> context.decision == Some(Reject))
      && (target == RevisionRequired ==> context.decision == Some(Revise) || !context.approvalValid)
    else if target == Packaged then
      context.approvalValid && context.audit == Some(AuditPass) && context.packageValid
    else if target == Closed then context.closeConfirmed
    else true
  }

  datatype Request = Request(
    target: CaseState,
    expectedVersion: int,
    actor: Identity,
    kind: ActorKind,
    traceId: Id,
    sequence: int,
    at: Time,
    context: Context)

  predicate Accepts(c: CaseRecord, r: Request) {
    && r.sequence >= 1 && r.expectedVersion == c.stateVersion
    && r.target in Allowed(c.state) && Guard(c.state, r.target, r.kind, r.context)
  }

  function Moved(c: CaseRecord, target: CaseState): CaseRecord {
    c.(state := target, stateVersion := c.stateVersion + 1)
  }

  /** The new case and the event that links its digest to the old one's; None where the source raises. */
  function TransitionCase(c: CaseRecord, r: Request, digest: CaseRecord -> Digest): Option<(CaseRecord, TraceEvent)> {
    if !Accepts(c, r) then None
    else
      var moved := Moved(c, r.target);
      Some((moved, TraceEvent(r.sequence, r.traceId, c.tenantId, c.caseId, r.actor, r.kind, StateTransition,
                              Some(digest(c)), Some(digest(moved)), Success, r.at, None)))
  }

  /******* Runs: any sequence of requests, refused ones in between *******/

  /** A request that was accepted, and the case it found. */
  datatype Move = Move(before: CaseRecord, request: Request)

  function After(c: CaseRecord, requests: seq<Request>): CaseRecord {
    if requests == [] then c
    else
      var before := After(c, requests[..|requests| - 1]);
      var last := requests[|requests| - 1];
      if Accepts(before, last) then Moved(before, last.target) else before
  }

  function Moves(c: CaseRecord, requests: seq<Request>): seq<Move> {
    if requests == [] then []
    else
      var before := After(c, requests[..|requests| - 1]);
      var last := requests[|requests| - 1];
      Moves(c, requests[..|requests| - 1]) + if Accepts(before, last) then [Move(before, last)] else []
  }

  /** The case the k-th accepted request has to find. */
  function Found(c: CaseRecord, moves: seq<Move>, k: nat): CaseRecord
    requires k <= |moves|
  {
    if k == 0 then c else Moved(moves[k - 1].before, moves[k - 1].request.target)
  }

  /** Every accepted request finds the case as the accepted request before it left it. */
  lemma {:induction false} MovesAreLinked(c: CaseRecord, requests: seq<Request>)
    ensures var moves := Moves(c, requests);
            && (forall k :: 0 <= k < |moves| ==>
                  Accepts(moves[k].before, moves[k].request) && moves[k].before == Found(c, moves, k))
            && After(c, requests) == Found(c, moves, |moves|)
  {
    hide Accepts, Moved;
    if requests != [] {
      var moves, earlier := Moves(c, requests), Moves(c, requests[..|requests| - 1]);
      MovesAreLinked(c, requests[..|requests| - 1]);
      assert forall k :: 0 <= k < |earlier| ==> moves[k] == earlier[k] && Found(c, moves, k) == Found(c, earlier, k);
    }
  }

  /** The version counts the accepted requests. */
  lemma {:induction false} VersionCountsMoves(c: CaseRecord, requests: seq<Request>)
    ensures After(c, requests).stateVersion == c.stateVersion + |Moves(c, requests)|
  {
    if requests != [] { VersionCountsMoves(c, requests[..|requests| - 1]); }
  }

  /** What has to come right before a move to PACKAGED in any run that starts at RECEIVED. */
  ghost predicate ProperlyPackaged(moves: seq<Move>, k: nat)
    requires k < |moves|
  {
    && k >= 2
    && moves[k].request.context.approvalValid && moves[k].request.context.audit == Some(AuditPass)
    && moves[k - 1].before.state == AwaitingApproval && moves[k - 1].request.target == Approved
    && moves[k - 1].request.kind == Human && moves[k - 1].request.context.decision == Some(Approve)
    && moves[k - 1].request.context.approvalValid
    && moves[k - 2].request.target == AwaitingApproval && moves[k - 2].request.context.audit == Some(AuditPass)
  }

  /**
   However requests and refusals interleave: a case is packaged only right after a human's valid
   APPROVE, given right after an audit that passed.
   */
  lemma PackagedOnlyAfterHumanApproval(c: CaseRecord, requests: seq<Request>, k: nat)
    requires c.state == Received
    requires k < |Moves(c, requests)| && Moves(c, requests)[k].request.target == Packaged
    ensures ProperlyPackaged(Moves(c, requests), k)
  {
    hide Guard;
    var moves := Moves(c, requests);
    MovesAreLinked(c, requests);
    MoveIntoPackaged(moves[k].before, moves[k].request);
    assert moves[k].before == Found(c, moves, k);
    MoveIntoApproved(moves[k - 1].before, moves[k - 1].request);
    assert moves[k - 1].before == Found(c, moves, k - 1);
    MoveIntoAwaitingApproval(moves[k - 2].before, moves[k - 2].request);
  }

  lemma MoveIntoPackaged(c: CaseRecord, r: Request)
    requires Accepts(c, r) && r.target == Packaged
    ensures c.state == Approved && r.context.approvalValid && r.context.audit == Some(AuditPass)
  {
  }

  lemma MoveIntoApproved(c: CaseRecord, r: Request)
    requires Accepts(c, r) && r.target == Approved
    ensures c.state == AwaitingApproval && r.kind == Human
    ensures r.context.decision == Some(Approve) && r.context.approvalValid
  {
  }

  lemma MoveIntoAwaitingApproval(c: CaseRecord, r: Request)
    requires Accepts(c, r) && r.target == AwaitingApproval
    ensures r.context.audit == Some(AuditPass)
  {
  }

  /** Of two requests made for one version, only the first can be accepted. */
  lemma OneMovePerVersion(c: CaseRecord, requests: seq<Request>, j: nat, k: nat)
    requires j < k < |Moves(c, requests)|
    ensures Moves(c, requests)[j].request.expectedVersion < Moves(c, requests)[k].request.expectedVersion
  {
    hide Guard, Moves;
    var moves := Moves(c, requests);
    MovesAreLinked(c, requests);
    VersionsRise(c, moves, j, k);
    assert Accepts(moves[j].before, moves[j].request) && Accepts(moves[k].before, moves[k].request);
  }

  lemma {:induction false} VersionsRise(c: CaseRecord, moves: seq<Move>, j: nat, k: nat)
    requires j < k < |moves|
    requires forall i :: 0 <= i < |moves| ==> moves[i].before == Found(c, moves, i)
    ensures moves[j].before.stateVersion < moves[k].before.stateVersion
    decreases k
  {
    assert moves[k].before == Found(c, moves, k);
    if j + 1 < k { VersionsRise(c, moves, j, k - 1); }
  }
}
