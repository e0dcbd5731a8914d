/** Every run that prepare, approve and package make is one the verifier calls valid. */
module RunCompleteness {
  import opened Basics
  import opened Sequences
  import opened StateMachine
  import opened CaseTrace
  import opened ReferenceRun
  import opened TraceCheck
  import opened RunVerification

  /******* Runs made stage by stage *******/

  ghost predicate InOrder(entries: seq<Entry>, first: Time, last: Time) {
    && entries != [] && entries[0].at == first && entries[|entries| - 1].at == last
    && forall i :: 0 < i < |entries| ==> entries[i - 1].at <= entries[i].at
  }

  ghost predicate Staged(h: Hashing, run: Run, stages: seq<Stage>) {
    && run.trace == TraceOf(StartOf(run), run.state.traceId, EntriesOf(stages), h.ofCase)
    && run.state.c == CaseAfter(StartOf(run), EntriesOf(stages))
    && AllFollow(stages, Plan(run.documents, run.record, run.package.Some?))
    && InOrder(EntriesOf(stages), run.state.createdAt, run.state.updatedAt)
  }

  lemma EventsOfEntries(c: CaseRecord, traceId: Id, entries: seq<Entry>, digest: CaseRecord -> Digest, i: nat)
    requires i < |entries|
    ensures var e := TraceOf(c, traceId, entries, digest)[i];
            && e.sequence == i + 1 && e.at == entries[i].at && EventKind(e) == EntryKind(entries[i])
            && Plain(e, traceId, c)
  {
    EventAt(c, traceId, entries, digest, i);
    CaseKeepsScope(c, entries[..i]);
  }

  lemma StagedShapeFits(h: Hashing, run: Run, stages: seq<Stage>)
    requires Staged(h, run, stages)
    ensures ShapeFits(run) && EventsFit(run)
  {
    hide TraceOf, EntriesOf, CaseAfter, Plan, ExpectedEvents, PlanKinds, Follows;
    var entries := EntriesOf(stages);
    forall i | 0 <= i < |entries|
      ensures var e := run.trace[i];
              && e.sequence == i + 1 && e.at == entries[i].at && EventKind(e) == EntryKind(entries[i])
              && EventFits(run.state, e)
    {
      EventsOfEntries(StartOf(run), run.state.traceId, entries, h.ofCase, i);
    }
    StagesHaveKinds(stages, Plan(run.documents, run.record, run.package.Some?));
    PlanIsExpected(run.documents, run.record, run.package.Some?);
    assert Map(run.trace, EventKind) == Map(entries, EntryKind);
  }

  lemma {:induction false} ReplayIsLinked(
      moves: seq<TraceEvent>, c: CaseRecord, targets: seq<CaseState>, digest: CaseRecord -> Digest)
    requires Replays(moves, c, targets, digest)
    ensures Linked(moves)
    ensures moves != [] ==>
            moves[0].input == Some(digest(c)) && moves[|moves| - 1].output == Some(digest(Reached(c, targets)))
  {
    if moves != [] {
      var n := |moves| - 1;
      ReplayIsLinked(moves[..n], c, targets[..n], digest);
      if n > 0 { assert moves[..n][n - 1] == moves[n - 1] && moves[..n][0] == moves[0]; }
      forall i | 0 < i < |moves|
        ensures moves[i - 1].output == moves[i].input
      {
        if i < n { assert moves[..n][i - 1].output == moves[..n][i].input; }
      }
    }
  }

  lemma StagedMovesFit(h: Hashing, run: Run, stages: seq<Stage>)
    requires Staged(h, run, stages)
    ensures MovesFit(h, run)
  {
    hide TraceOf, EntriesOf, Plan, Filter, Follows;
    var plan := Plan(run.documents, run.record, run.package.Some?);
    var entries := EntriesOf(stages);
    StagesKeepCallsApart(stages, plan);
    StagesHaveTargets(stages, plan);
    PlanIsExpected(run.documents, run.record, run.package.Some?);
    TransitionsReplay(StartOf(run), run.state.traceId, entries, h.ofCase);
    CaseIsReached(StartOf(run), entries);
    ReplayIsLinked(Filter(run.trace, IsTransition), StartOf(run), PlannedTargets(run), h.ofCase);
  }

  /** One more stage: a call and a transition, as approve and package append them. */
  lemma StagedGoesOn(h: Hashing, run: Run, stages: seq<Stage>, call: Entry, transit: Entry, next: Run)
    requires Staged(h, run, stages) && transit.act.Transit?
    requires StartOf(next) == StartOf(run) && next.state.traceId == run.state.traceId
    requires next.state.c == Moved(run.state.c, transit.act.target)
    requires call.act.Call?
    requires next.trace == run.trace
             + [EventOf(call, run.state.traceId, run.state.c, |run.trace| + 1, h.ofCase),
                EventOf(transit, run.state.traceId, run.state.c, |run.trace| + 2, h.ofCase)]
    requires next.state.createdAt == run.state.createdAt
    requires run.state.updatedAt <= call.at == transit.at == next.state.updatedAt
    requires AllFollow(stages + [Stage([call], transit)], Plan(next.documents, next.record, next.package.Some?))
    ensures Staged(h, next, stages + [Stage([call], transit)])
  {
    hide Plan, AllFollow, Moved;
    var more := stages + [Stage([call], transit)];
    assert more[..|more| - 1] == stages;
    var entries := EntriesOf(stages);
    assert EntriesOf(more) == entries + [call] + [transit];
    var one, two := entries + [call], entries + [call] + [transit];
    assert one[..|one| - 1] == entries && two[..|two| - 1] == one;
    var c, digest := StartOf(run), h.ofCase;
    assert TraceOf(c, run.state.traceId, two, digest)
      == TraceOf(c, run.state.traceId, entries, digest)
         + [EventOf(call, run.state.traceId, run.state.c, |entries| + 1, digest)]
         + [EventOf(transit, run.state.traceId, run.state.c, |entries| + 2, digest)];
    assert CaseAfter(c, two) == Moved(run.state.c, transit.act.target);
    assert InOrder(two, next.state.createdAt, next.state.updatedAt);
  }

  /******* What is in a prepared trace *******/

  lemma NothingApprovedYet(run: Run)
    requires ShapeFits(run) && run.record.None? && run.package.None?
    ensures forall i :: 0 <= i < |run.trace| ==> !IsApproval(run.trace[i]) && !IsPackaging(run.trace[i])
  {
    var kinds := ExpectedEvents(run.documents, None, false);
    forall i | 0 <= i < |run.trace|
      ensures !IsApproval(run.trace[i]) && !IsPackaging(run.trace[i])
    {
      assert EventKind(run.trace[i]) == kinds[i];
      PreparedKinds(run.documents, i);
    }
  }

  lemma PreparedKinds(documents: nat, i: nat)
    requires i < |ExpectedEvents(documents, None, false)|
    ensures var t := ExpectedEvents(documents, None, false)[i].eventType; t != HumanApproval && t != DocumentPackage
  {
  }

  lemma {:induction false} PrefixStops(a: seq<TraceEvent>, b: seq<TraceEvent>)
    requires forall i :: 0 <= i < |a| ==> !IsApproval(a[i])
    requires b == [] || IsApproval(b[0])
    ensures ApprovalPrefix(a + b) == a
  {
    if a == [] {
      assert a + b == b;
    } else {
      assert (a + b)[1..] == a[1..] + b;
      PrefixStops(a[1..], b);
    }
  }

  /******* Skill results *******/

  ghost predicate Match(h: Hashing, calls: seq<TraceEvent>, results: seq<Stored>) {
    |calls| == |results| && forall i :: 0 <= i < |calls| ==> ResultFits(h, calls[i], results[i])
  }

  ghost predicate Good(h: Hashing, calls: seq<SkillCall>) {
    forall i :: 0 <= i < |calls| ==>
      Honest(h, calls[i].result) && Succeeded(calls[i].result) && calls[i].eventType != StateTransition
  }

  lemma {:induction false} CallsMatch(
      h: Hashing, c: CaseRecord, traceId: Id, entries: seq<Entry>, calls: seq<SkillCall>, now: Time,
      results: seq<Stored>)
    requires Good(h, calls)
    requires Match(h, Filter(TraceOf(c, traceId, entries, h.ofCase), IsCall), results)
    ensures Match(h, Filter(TraceOf(c, traceId, entries + CallEntries(calls, now), h.ofCase), IsCall),
                  results + Map(calls, StoredForm))
    decreases |calls|
  {
    hide TraceOf, CaseAfter, Filter, ResultFits, SkillEvent, StoredForm, Map, CallEntries;
    if calls == [] {
      assert Map(calls, StoredForm) == [] && CallEntries(calls, now) == [];
      assert entries + CallEntries(calls, now) == entries && results + Map(calls, StoredForm) == results;
    } else {
      var n := |calls| - 1;
      var k := calls[n];
      CallsMatch(h, c, traceId, entries, calls[..n], now, results);
      assert calls == calls[..n] + [k];
      CallAppended(h, c, traceId, entries, calls[..n], k, now);
      var before := entries + CallEntries(calls[..n], now);
      var trace := TraceOf(c, traceId, before, h.ofCase);
      var e := SkillEvent(k, |before| + 1, traceId, CaseAfter(c, before), now);
      assert (trace + [e])[..|trace|] == trace;
      LastOfFilter(trace + [e], IsCall);
      CallFits(h, k, |before| + 1, traceId, CaseAfter(c, before), now);
      assert results + Map(calls, StoredForm) == results + Map(calls[..n], StoredForm) + [StoredForm(k)];
    }
  }

  lemma CallFits(h: Hashing, k: SkillCall, sequence: int, traceId: Id, c: CaseRecord, now: Time)
    requires Honest(h, k.result) && Succeeded(k.result) && k.eventType != StateTransition
    ensures var e := SkillEvent(k, sequence, traceId, c, now); IsCall(e) && ResultFits(h, e, StoredForm(k))
  {
  }

  lemma NoCalls()
    ensures Filter([], IsCall) == []
  {
  }

  lemma {:induction false} WorkMatches(h: Hashing, c: CaseRecord, traceId: Id, work: seq<Work>, now: Time)
    requires forall i :: 0 <= i < |work| ==> Good(h, work[i].calls)
    ensures Match(h, Filter(DraftOf(c, traceId, work, now, h.ofCase).trace, IsCall), ResultsOf(work))
  {
    hide TraceOf, CaseAfter, EntriesOf, StagesOf, Filter, ResultFits, Good;
    if work == [] {
      EmptyDraft(h, c, traceId, now);
      NoCalls();
    } else {
      var n := |work| - 1;
      var w := work[n];
      WorkMatches(h, c, traceId, work[..n], now);
      assert work == work[..n] + [w];
      var entries := EntriesOf(StagesOf(work[..n], now));
      CallsMatch(h, c, traceId, entries, w.calls, now, ResultsOf(work[..n]));
      StageAppended(h, c, traceId, work[..n], w, now);
      var trace := TraceOf(c, traceId, entries + CallEntries(w.calls, now), h.ofCase);
      var full := DraftOf(c, traceId, work, now, h.ofCase).trace;
      assert full[..|full| - 1] == trace;
      LastOfFilter(full, IsCall);
      assert Filter(trace, IsCall) + [] == Filter(trace, IsCall);
    }
  }

  /******* Prepared runs *******/

  /** The work of a stage is what the plan says. */
  ghost predicate Planned(w: Work, p: StagePlan) {
    && |w.calls| == |p.calls| && w.target == p.target && p.actor == PfA(1) && p.kind == Agent
    && forall j :: 0 <= j < |w.calls| ==>
         && p.calls[j] == Kind(w.calls[j].eventType, PfA(w.calls[j].agent), Agent)
         && w.calls[j].eventType != StateTransition
  }

  lemma PlannedWorkFollows(w: Work, p: StagePlan, now: Time)
    requires Planned(w, p)
    ensures Follows(StageOf(w, now), p)
  {
    var kinds := Map(CallEntries(w.calls, now), EntryKind);
    forall j | 0 <= j < |kinds|
      ensures kinds[j] == p.calls[j]
    {
      assert kinds[j] == EntryKind(CallEntry(w.calls[j], now));
    }
  }

  lemma PreparedFollowsPlan(s: Skills, now: Time)
    ensures AllFollow(StagesOf(WorkPlan(s), now), PreparedPlan(|s.ingest|))
  {
    hide StagesOf, Follows, StageOf, Planned;
    var stages, plan := StagesOf(WorkPlan(s), now), PreparedPlan(|s.ingest|);
    WorkIsPlanned(s);
    forall i | 0 <= i < |stages|
      ensures Follows(stages[i], plan[i])
    {
      PlannedWorkFollows(WorkPlan(s)[i], plan[i], now);
    }
  }

  lemma WorkIsPlanned(s: Skills)
    ensures |WorkPlan(s)| == |PreparedPlan(|s.ingest|)| == 6
    ensures forall i :: 0 <= i < 6 ==> Planned(WorkPlan(s)[i], PreparedPlan(|s.ingest|)[i])
  {
    hide Planned;
    EarlyWorkIsPlanned(s);
    LateWorkIsPlanned(s);
  }

  lemma EarlyWorkIsPlanned(s: Skills)
    ensures var work, plan := WorkPlan(s), PreparedPlan(|s.ingest|);
            Planned(work[0], plan[0]) && Planned(work[1], plan[1]) && Planned(work[2], plan[2])
  {
  }

  lemma LateWorkIsPlanned(s: Skills)
    ensures var work, plan := WorkPlan(s), PreparedPlan(|s.ingest|);
            Planned(work[3], plan[3]) && Planned(work[4], plan[4]) && Planned(work[5], plan[5])
  {
  }

  lemma {:induction false} AllAtOnce(work: seq<Work>, now: Time)
    ensures var entries := EntriesOf(StagesOf(work, now)); forall i :: 0 <= i < |entries| ==> entries[i].at == now
    ensures work != [] ==> EntriesOf(StagesOf(work, now)) != []
  {
    hide StagesOf, CallEntries;
    if work != [] {
      var n := |work| - 1;
      AllAtOnce(work[..n], now);
      var stages := StagesOf(work, now);
      assert stages[..n] == StagesOf(work[..n], now);
      var before, last := EntriesOf(StagesOf(work[..n], now)), StageOf(work[n], now);
      assert EntriesOf(stages) == before + last.calls + [last.transit];
    }
  }

  lemma PreparedIsStaged(h: Hashing, m: Manifest, traceId: Id, s: Skills, now: Time)
    ensures var run := PreparedRun(h, m, traceId, s, now);
            Staged(h, run, StagesOf(WorkPlan(s), now)) && run.state.c.state == AwaitingApproval
            && StartOf(run) == InitialCase(m)
  {
    hide EntriesOf, TraceOf, WorkPlan, PreparedPlan, Follows;
    var run, stages := PreparedRun(h, m, traceId, s, now), StagesOf(WorkPlan(s), now);
    PreparedFollowsPlan(s, now);
    StagesHaveTargets(stages, PreparedPlan(|s.ingest|));
    CaseIsReached(InitialCase(m), EntriesOf(stages));
    TargetsAreExpected(|s.ingest|, None, false);
    assert Plan(|s.ingest|, None, false) == PreparedPlan(|s.ingest|);
    WorkIsSomething(s);
    AllAtOnce(WorkPlan(s), now);
  }

  lemma WorkIsSomething(s: Skills)
    ensures WorkPlan(s) != []
  {
  }

  lemma PreparedWorkIsGood(h: Hashing, s: Skills)
    requires HonestSkills(h, s) && forall i :: 0 <= i < |WorkPlan(s)| ==> StageReady(WorkPlan(s), i)
    ensures forall i :: 0 <= i < |WorkPlan(s)| ==> Good(h, WorkPlan(s)[i].calls)
  {
    hide WorkPlan, Honest, Succeeded, PreparedPlan;
    WorkIsPlanned(s);
    forall i | 0 <= i < |WorkPlan(s)|
      ensures Good(h, WorkPlan(s)[i].calls)
    {
      assert StageReady(WorkPlan(s), i) && Planned(WorkPlan(s)[i], PreparedPlan(|s.ingest|)[i]);
    }
  }

  /** The subject recomputed from any later form of a run is the one its trace started with. */
  ghost predicate GrownFrom(root: Run, run: Run) {
    && run.material == root.material && run.audit == root.audit && run.results == root.results
    && run.request == root.request && run.documents == root.documents
    && run.calculationSealed == root.calculationSealed
    && run.state.traceId == root.state.traceId && run.state.subjectHash == root.state.subjectHash
    && run.state.requestId == root.state.requestId && run.state.createdAt == root.state.createdAt
    && StartOf(run) == StartOf(root)
    && |root.trace| <= |run.trace| && run.trace[..|root.trace|] == root.trace
    && (|root.trace| < |run.trace| ==> IsApproval(run.trace[|root.trace|]))
  }

  /** Cutting the trace at the approval and rewinding the case undoes every later step. */
  lemma SubjectIsStable(h: Hashing, root: Run, run: Run)
    requires MovesFit(h, root) && root.state.c.state == AwaitingApproval
    requires forall i :: 0 <= i < |root.trace| ==> !IsApproval(root.trace[i])
    requires GrownFrom(root, run)
    ensures CurrentSubject(run) == Subject(root.state.c, root.material, root.audit, root.results, root.trace)
    ensures ApprovalPrefix(run.trace) == root.trace
  {
    hide Filter, ApprovalPrefix, Replays, Reached;
    var more := run.trace[|root.trace|..];
    PrefixStops(root.trace, more);
    assert run.trace == root.trace + more;
    var c := run.state.c.(state := AwaitingApproval, stateVersion := |Filter(root.trace, IsTransition)|);
    assert c == StartOf(run).(state := AwaitingApproval, stateVersion := root.state.c.stateVersion);
    assert root.state.c == StartOf(root).(state := AwaitingApproval, stateVersion := root.state.c.stateVersion);
  }

  /** A prepared run is valid, and sealed under the subject that is recomputed from it. */
  lemma PreparedRunIsValid(h: Hashing, m: Manifest, traceId: Id, s: Skills, now: Time)
    requires HonestSkills(h, s) && forall i :: 0 <= i < |WorkPlan(s)| ==> StageReady(WorkPlan(s), i)
    ensures Valid(h, PreparedRun(h, m, traceId, s, now))
  {
    hide EntriesOf, TraceOf, WorkPlan, Staged, ShapeFits, MovesFit, EventsFit, StagesOf, Good, CurrentSubject;
    var run := PreparedRun(h, m, traceId, s, now);
    PreparedIsStaged(h, m, traceId, s, now);
    StagedShapeFits(h, run, StagesOf(WorkPlan(s), now));
    StagedMovesFit(h, run, StagesOf(WorkPlan(s), now));
    NothingApprovedYet(run);
    SubjectIsStable(h, run, run);
    FilterNone(run.trace, IsApproval);
    FilterNone(run.trace, IsPackaging);
    PreparedWorkIsGood(h, s);
    WorkMatches(h, InitialCase(m), traceId, WorkPlan(s), now);
  }

  /******* Approved and packaged runs *******/

  /** What later steps rely on in a run that waits for approval. */
  ghost predicate Waiting(h: Hashing, root: Run, stages: seq<Stage>) {
    && Staged(h, root, stages) && Valid(h, root)
    && root.state.c.state == AwaitingApproval && root.record.None? && root.package.None?
    && root.audit.isSealed && root.audit.verdict == AuditPass && root.calculationSealed
    && root.state.updatedAt == root.state.createdAt
  }

  lemma PreparedRunIsWaiting(h: Hashing, m: Manifest, traceId: Id, s: Skills, now: Time)
    requires HonestSkills(h, s) && forall i :: 0 <= i < |WorkPlan(s)| ==> StageReady(WorkPlan(s), i)
    ensures Waiting(h, PreparedRun(h, m, traceId, s, now), StagesOf(WorkPlan(s), now))
  {
    hide Staged, Valid, WorkPlan, DraftOf, StageReady;
    PreparedIsStaged(h, m, traceId, s, now);
    PreparedRunIsValid(h, m, traceId, s, now);
    ReadyMeans(s);
  }

  /** Nothing the later steps add changes what the verifier finds about the prepared part. */
  lemma GrownRunFits(h: Hashing, root: Run, stages: seq<Stage>, run: Run)
    requires Waiting(h, root, stages) && GrownFrom(root, run)
    ensures Current(h, run) == run.state.subjectHash && Expected(h, run) == run.request == root.request
    ensures RequestBinds(run.state, run.request, Expected(h, run)) && ResultsFit(h, run)
  {
    hide CurrentSubject, Staged, MovesFit, ApprovalPrefix, Filter;
    NothingApprovedYet(root);
    SubjectIsStable(h, root, run);
    SubjectIsStable(h, root, root);
    assert StartOf(run).tenantId == run.state.c.tenantId && StartOf(run).caseId == run.state.c.caseId;
    assert StartOf(root).tenantId == root.state.c.tenantId && StartOf(root).caseId == root.state.c.caseId;
  }

  lemma FilterOfTwo<T>(a: seq<T>, x: T, y: T, keep: T -> bool)
    ensures Filter(a + [x, y], keep) == Filter(a, keep) + (if keep(x) then [x] else []) + (if keep(y) then [y] else [])
  {
    var s := a + [x, y];
    assert s[..|s| - 1] == a + [x] && (a + [x])[..|a|] == a;
  }

  lemma FollowsOneMore(stages: seq<Stage>, plan: seq<StagePlan>, s: Stage, p: StagePlan)
    requires AllFollow(stages, plan) && Follows(s, p)
    ensures AllFollow(stages + [s], plan + [p])
  {
    hide Follows;
  }

  function ApprovalStage(h: Hashing, run: Run, record: ApprovalRecord, now: Time): Stage {
    Stage([Entry(Call(HumanApproval, Some(h.ofApproval(run.request, Current(h, run))), Some(h.ofRecord(record))),
                 record.approver, Human, now)],
          Entry(Transit(TargetOf(record.decision)), record.approver, Human, now))
  }

  /** What approving a waiting run leaves. */
  lemma ApprovedRunIsGrown(
      h: Hashing, root: Run, stages: seq<Stage>, approver: Identity, role: Role, decision: Decision, now: Time)
    requires Waiting(h, root, stages) && ApproveRun(h, root, approver, role, decision, now).Some?
    ensures var next := ApproveRun(h, root, approver, role, decision, now).value;
            && GrownFrom(root, next) && next.package.None? && next.record.Some?
            && next.record.value.decision == decision && next.record.value.approver == approver
            && next.record.value.isSealed && next.record.value.decidedAt == now == next.state.updatedAt
            && RecordBinds(h, next.record.value, root.request)
            && next.state.c == Moved(root.state.c, TargetOf(decision))
            && root.state.updatedAt <= now
            && |next.trace| == |root.trace| + 2
            && next.trace[|root.trace|] == ApprovalEvent(h, root, next.record.value, Current(h, root), now)
            && next.trace[|root.trace| + 1]
               == EventOf(ApprovalStage(h, root, next.record.value, now).transit, root.state.traceId, root.state.c,
                          |root.trace| + 2, h.ofCase)
            && next.trace == root.trace + next.trace[|root.trace|..]
  {
    hide CurrentSubject, Valid, Staged, Guard, RecordBinds;
  }

  lemma ApprovedRunIsStaged(
      h: Hashing, root: Run, stages: seq<Stage>, approver: Identity, role: Role, decision: Decision, now: Time)
    requires Waiting(h, root, stages) && ApproveRun(h, root, approver, role, decision, now).Some?
    ensures var next := ApproveRun(h, root, approver, role, decision, now).value;
            Staged(h, next, stages + [ApprovalStage(h, root, next.record.value, now)])
  {
    hide CurrentSubject, Valid, ApproveRun, RecordBinds, PreparedPlan, Waiting, Staged, AllFollow;
    WaitingIsStaged(h, root, stages);
    ApprovedRunIsGrown(h, root, stages, approver, role, decision, now);
    var next := ApproveRun(h, root, approver, role, decision, now).value;
    var stage := ApprovalStage(h, root, next.record.value, now);
    var plan := ApprovalPlan(next.record);
    assert Map(stage.calls, EntryKind) == plan[0].calls;
    assert Plan(root.documents, None, false) + plan == Plan(next.documents, next.record, false);
    FollowsOneMore(stages, Plan(root.documents, None, false), stage, plan[0]);
    StagedGoesOn(h, root, stages, stage.calls[0], stage.transit, next);
  }

  lemma WaitingIsStaged(h: Hashing, root: Run, stages: seq<Stage>)
    requires Waiting(h, root, stages)
    ensures Staged(h, root, stages) && root.package.None? && root.record.None?
    ensures AllFollow(stages, Plan(root.documents, root.record, root.package.Some?))
  {
  }

  /** Whatever the decision, an approved run is valid. */
  lemma ApprovedRunIsValid(
      h: Hashing, root: Run, stages: seq<Stage>, approver: Identity, role: Role, decision: Decision, now: Time)
    requires Waiting(h, root, stages) && ApproveRun(h, root, approver, role, decision, now).Some?
    ensures Valid(h, ApproveRun(h, root, approver, role, decision, now).value)
  {
    hide CurrentSubject, ApproveRun, RecordBinds, RequestBinds, Staged, ShapeFits, EventsFit, MovesFit, ResultsFit,
        Filter;
    hide Expected, Current;
    ApprovedRunIsGrown(h, root, stages, approver, role, decision, now);
    ApprovedRunIsStaged(h, root, stages, approver, role, decision, now);
    var next := ApproveRun(h, root, approver, role, decision, now).value;
    var more := stages + [ApprovalStage(h, root, next.record.value, now)];
    StagedShapeFits(h, next, more);
    StagedMovesFit(h, next, more);
    GrownRunFits(h, root, stages, next);
    GrownRunFits(h, root, stages, root);
    ApprovalIsInTheTrace(h, root, next);
    RecordNamesTheSubject(h, next);
  }

  lemma RecordNamesTheSubject(h: Hashing, run: Run)
    requires run.record.Some? && RecordBinds(h, run.record.value, Expected(h, run))
    ensures run.record.value.approvedHash == run.state.subjectHash
  {
  }

  lemma ApprovalIsInTheTrace(h: Hashing, root: Run, next: Run)
    requires ShapeFits(root) && root.record.None? && root.package.None?
    requires |next.trace| == |root.trace| + 2 && next.trace[..|root.trace|] == root.trace
    requires IsApproval(next.trace[|root.trace|]) && IsTransition(next.trace[|root.trace| + 1])
    ensures Filter(next.trace, IsApproval) == [next.trace[|root.trace|]]
    ensures Filter(next.trace, IsPackaging) == []
  {
    hide Filter;
    var x, y := next.trace[|root.trace|], next.trace[|root.trace| + 1];
    NothingApprovedYet(root);
    assert next.trace == root.trace + [x, y];
    FilterOfTwo(root.trace, x, y, IsApproval);
    FilterOfTwo(root.trace, x, y, IsPackaging);
    FilterNone(root.trace, IsApproval);
    FilterNone(root.trace, IsPackaging);
  }

  /** A waiting run can be decided by whoever holds the role while the request is open, and by no one else. */
  lemma ApprovalIsGrantedIff(
      h: Hashing, root: Run, stages: seq<Stage>, approver: Identity, role: Role, decision: Decision, now: Time)
    requires Waiting(h, root, stages)
    ensures ApproveRun(h, root, approver, role, decision, now).Some?
            <==> role == LegalReviewer && root.state.createdAt <= now <= root.state.createdAt + APPROVAL_TTL
  {
    hide CurrentSubject, Staged, Clean;
    hide Current;
    GrownRunFits(h, root, stages, root);
    assert Current(h, root) == h.ofSubject(CurrentSubject(root)) by { CurrentIs(h, root); }
  }

  lemma CurrentIs(h: Hashing, run: Run)
    ensures Current(h, run) == h.ofSubject(CurrentSubject(run))
  {
  }

  /** What packaging an approved run leaves. */
  lemma PackagedRunIsGrown(h: Hashing, root: Run, run: Run, now: Time)
    requires GrownFrom(root, run) && MayPackage(h, run, now) && Finished(h, run, now).Some?
    requires |root.trace| < |run.trace|
    ensures var next := Finished(h, run, now).value;
            && GrownFrom(root, next) && next.record == run.record
            && next.package == RenderPackage(h, run, RequestFor(h, run, run.record.value), now) && next.package.Some?
            && next.package.value.createdAt == now == next.state.updatedAt
            && next.state.c == Moved(run.state.c, Packaged)
            && next.trace == run.trace
               + [EventOf(Entry(Call(DocumentPackage, Some(h.ofPackageRequest(RequestFor(h, run, run.record.value))),
                                     Some(h.ofPackage(next.package.value))), PfA(1), Agent, now),
                          run.state.traceId, run.state.c, |run.trace| + 1, h.ofCase),
                  EventOf(Entry(Transit(Packaged), PfA(1), Agent, now),
                          run.state.traceId, run.state.c, |run.trace| + 2, h.ofCase)]
  {
    hide CurrentSubject, Guard, RecordBinds, RequestBinds, Current, Expected;
  }

  function PackageStage(h: Hashing, run: Run, manifest: PackageManifest, now: Time): Stage
    requires run.record.Some?
  {
    Stage([Entry(Call(DocumentPackage, Some(h.ofPackageRequest(RequestFor(h, run, run.record.value))),
                      Some(h.ofPackage(manifest))), PfA(1), Agent, now)],
          Entry(Transit(Packaged), PfA(1), Agent, now))
  }

  lemma PackagedRunIsStaged(h: Hashing, root: Run, run: Run, stages: seq<Stage>, now: Time)
    requires GrownFrom(root, run) && MayPackage(h, run, now) && Finished(h, run, now).Some?
    requires |root.trace| < |run.trace| && Staged(h, run, stages) && run.package.None?
    ensures var next := Finished(h, run, now).value;
            next.package.Some? && Staged(h, next, stages + [PackageStage(h, run, next.package.value, now)])
  {
    hide CurrentSubject, Finished, RecordBinds, RequestBinds, PreparedPlan, RequestFor, RenderPackage;
    PackagedRunIsGrown(h, root, run, now);
    var next := Finished(h, run, now).value;
    var stage := PackageStage(h, run, next.package.value, now);
    var plan := PackagePlan(true);
    assert Map(stage.calls, EntryKind) == plan[0].calls;
    assert Plan(run.documents, run.record, false) + plan == Plan(next.documents, next.record, true);
    FollowsOneMore(stages, Plan(run.documents, run.record, false), stage, plan[0]);
    StagedGoesOn(h, run, stages, stage.calls[0], stage.transit, next);
  }

  /** A run that a human approved: what packaging starts from. */
  ghost predicate ApprovedOf(
      h: Hashing, root: Run, stages: seq<Stage>, approver: Identity, role: Role, now: Time, run: Run)
  {
    Waiting(h, root, stages) && ApproveRun(h, root, approver, role, Approve, now) == Some(run)
  }

  lemma PackagedRunIsValid(
      h: Hashing, root: Run, stages: seq<Stage>, approver: Identity, role: Role, approvedAt: Time, run: Run, now: Time)
    requires ApprovedOf(h, root, stages, approver, role, approvedAt, run)
    requires PackagedRun(h, run, now).Some?
    ensures Valid(h, PackagedRun(h, run, now).value)
  {
    hide CurrentSubject, ApproveRun, RecordBinds, RequestBinds, Staged, ShapeFits, EventsFit, MovesFit, ResultsFit,
        Filter;
    hide Expected, Current, RequestFor, RenderPackage, Finished;
    ApprovedRunIsGrown(h, root, stages, approver, role, Approve, approvedAt);
    ApprovedRunIsStaged(h, root, stages, approver, role, Approve, approvedAt);
    PackagedRunIsGrown(h, root, run, now);
    var before := stages + [ApprovalStage(h, root, run.record.value, approvedAt)];
    PackagedRunIsStaged(h, root, run, before, now);
    var next := Finished(h, run, now).value;
    var more := before + [PackageStage(h, run, next.package.value, now)];
    StagedShapeFits(h, next, more);
    StagedMovesFit(h, next, more);
    GrownRunFits(h, root, stages, next);
    GrownRunFits(h, root, stages, run);
    GrownRunFits(h, root, stages, root);
    BothAreInTheTrace(h, root, run, next);
    RecordNamesTheSubject(h, next);
    PackageIsRegenerated(h, run, next, now);
  }

  lemma BothAreInTheTrace(h: Hashing, root: Run, run: Run, next: Run)
    requires ShapeFits(root) && root.record.None? && root.package.None?
    requires |run.trace| == |root.trace| + 2 && run.trace[..|root.trace|] == root.trace
    requires IsApproval(run.trace[|root.trace|]) && IsTransition(run.trace[|root.trace| + 1])
    requires |next.trace| == |run.trace| + 2 && next.trace[..|run.trace|] == run.trace
    requires IsPackaging(next.trace[|run.trace|]) && IsTransition(next.trace[|run.trace| + 1])
    ensures Filter(next.trace, IsApproval) == [run.trace[|root.trace|]]
    ensures Filter(next.trace, IsPackaging) == [next.trace[|run.trace|]]
  {
    hide Filter;
    var x, y := next.trace[|run.trace|], next.trace[|run.trace| + 1];
    ApprovalIsInTheTrace(h, root, run);
    assert next.trace == run.trace + [x, y];
    FilterOfTwo(run.trace, x, y, IsApproval);
    FilterOfTwo(run.trace, x, y, IsPackaging);
  }

  /** The verifier's regeneration gives the manifest that was written. */
  lemma PackageIsRegenerated(h: Hashing, run: Run, next: Run, now: Time)
    requires MayPackage(h, run, now) && Finished(h, run, now) == Some(next)
    requires next.record == run.record && next.package.Some? && next.package.value.createdAt == now
    requires next.package == RenderPackage(h, run, RequestFor(h, run, run.record.value), now)
    requires Current(h, next) == Current(h, run) && Expected(h, next) == Expected(h, run)
    ensures RequestFor(h, next, next.record.value) == RequestFor(h, run, run.record.value)
    ensures RenderPackage(h, next, RequestFor(h, next, next.record.value), now) == next.package
    ensures next.package.value.isSealed && next.package.value.tenantId == next.state.c.tenantId
    ensures next.package.value.caseId == next.state.c.caseId && next.package.value.traceId == next.state.traceId
    ensures next.record.value.decision == Approve
  {
    hide Current, Expected, RecordBinds, RequestBinds;
  }

  /**
   An approved run can be packaged as long as its approval has not run out, and the checker never stands in
   the way.
   */
  lemma PackagingIsPossibleIff(
      h: Hashing, root: Run, stages: seq<Stage>, approver: Identity, role: Role, approvedAt: Time, run: Run, now: Time)
    requires ApprovedOf(h, root, stages, approver, role, approvedAt, run)
    ensures PackagedRun(h, run, now).Some? <==> approvedAt <= now <= root.state.createdAt + APPROVAL_TTL
  {
    hide CurrentSubject, ApproveRun, Staged, Clean, Current, RequestBinds, Finished;
    ApprovedRunIsGrown(h, root, stages, approver, role, Approve, approvedAt);
    ApprovedRunIsValid(h, root, stages, approver, role, Approve, approvedAt);
    GrownRunFits(h, root, stages, run);
    GrownRunFits(h, root, stages, root);
    assert run.(package := None) == run;
    var record := run.record.value;
    assert Expected(h, run).createdAt == root.state.createdAt by { RequestTimes(h, root); }
    assert MayPackage(h, run, now) <==> approvedAt <= now;
    if MayPackage(h, run, now) {
      FinishedIff(h, run, now);
    }
  }

  lemma RequestTimes(h: Hashing, run: Run)
    requires RequestBinds(run.state, run.request, Expected(h, run))
    ensures run.request.createdAt == run.state.createdAt
    ensures run.request.expiresAt == run.state.createdAt + APPROVAL_TTL
  {
  }

  lemma FinishedIff(h: Hashing, run: Run, now: Time)
    requires MayPackage(h, run, now)
    requires run.audit.verdict == AuditPass && run.audit.isSealed && run.calculationSealed
    requires run.record.value.decision == Approve && run.record.value.isSealed
    requires Current(h, run) == run.state.subjectHash
    requires run.record.value.decidedAt <= now
    ensures Finished(h, run, now).Some? <==> now <= run.state.createdAt + APPROVAL_TTL
  {
    hide CurrentSubject, Current;
    RequestTimes(h, run);
  }

  lemma UndecidedIsNotPackaged(
      h: Hashing, root: Run, stages: seq<Stage>, approver: Identity, role: Role, decision: Decision, decidedAt: Time,
      run: Run, now: Time)
    requires Waiting(h, root, stages) && decision != Approve
    requires ApproveRun(h, root, approver, role, decision, decidedAt) == Some(run)
    ensures PackagedRun(h, run, now).None?
  {
    hide Waiting, ApproveRun, Clean;
    ApprovedRunIsGrown(h, root, stages, approver, role, decision, decidedAt);
  }

  /**
   Whatever honest skills prepare is valid. It can be decided exactly by a holder of the role
   while the request is open, and packaged exactly after an approval, until that runs out; the
   run is valid after each of these steps, whatever the decision.
   */
  lemma EveryRunIsValid(
      h: Hashing, m: Manifest, traceId: Id, s: Skills, preparedAt: Time, approver: Identity, role: Role,
      decision: Decision, decidedAt: Time, packagedAt: Time)
    requires HonestSkills(h, s) && forall i :: 0 <= i < |WorkPlan(s)| ==> StageReady(WorkPlan(s), i)
    ensures var prepared := PreparedRun(h, m, traceId, s, preparedAt);
            var decided := ApproveRun(h, prepared, approver, role, decision, decidedAt);
            && Valid(h, prepared)
            && (decided.Some? <==> role == LegalReviewer && preparedAt <= decidedAt <= preparedAt + APPROVAL_TTL)
            && (decided.Some? ==>
                  var packaged := PackagedRun(h, decided.value, packagedAt);
                  && Valid(h, decided.value)
                  && (packaged.Some? <==> decision == Approve && decidedAt <= packagedAt <= preparedAt + APPROVAL_TTL)
                  && (packaged.Some? ==> Valid(h, packaged.value)))
  {
    hide Waiting, Valid, ApproveRun, PackagedRun, WorkPlan, StageReady, DraftOf;
    var prepared, stages := PreparedRun(h, m, traceId, s, preparedAt), StagesOf(WorkPlan(s), preparedAt);
    PreparedRunIsWaiting(h, m, traceId, s, preparedAt);
    PreparedRunIsValid(h, m, traceId, s, preparedAt);
    ApprovalIsGrantedIff(h, prepared, stages, approver, role, decision, decidedAt);
    var decided := ApproveRun(h, prepared, approver, role, decision, decidedAt);
    if decided.Some? {
      ApprovedRunIsValid(h, prepared, stages, approver, role, decision, decidedAt);
      if decision == Approve {
        PackagingIsPossibleIff(h, prepared, stages, approver, role, decidedAt, decided.value, packagedAt);
        if PackagedRun(h, decided.value, packagedAt).Some? {
          PackagedRunIsValid(h, prepared, stages, approver, role, decidedAt, decided.value, packagedAt);
        }
      } else {
        UndecidedIsNotPackaged(h, prepared, stages, approver, role, decision, decidedAt, decided.value, packagedAt);
      }
    }
  }
}
