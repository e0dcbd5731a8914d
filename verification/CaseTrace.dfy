/**
 Traces of a case run. A run is a list of stages: some skill calls, then one transition.
 The trace such a run leaves is defined here independently of the code that appends it
 and of the code that checks it.
 */
module CaseTrace {
  import opened Basics
  import opened Sequences
  import opened StateMachine

  datatype Act = Call(eventType: EventType, input: Option<Digest>, output: Option<Digest>) | Transit(target: CaseState)

  datatype Entry = Entry(act: Act, actor: Identity, kind: ActorKind, at: Time)

  datatype Stage = Stage(calls: seq<Entry>, transit: Entry)

  /** What the trace contract fixes about an event. */
  datatype Kind = Kind(eventType: EventType, actor: Identity, kind: ActorKind)

  datatype StagePlan = StagePlan(calls: seq<Kind>, target: CaseState, actor: Identity, kind: ActorKind)

  function TypeOf(e: Entry): EventType { if e.act.Transit? then StateTransition else e.act.eventType }

  function EntryKind(e: Entry): Kind { Kind(TypeOf(e), e.actor, e.kind) }

  function EventKind(e: TraceEvent): Kind { Kind(e.eventType, e.actor, e.kind) }

  /** The case after the transitions among the entries. */
  function CaseAfter(c: CaseRecord, entries: seq<Entry>): CaseRecord {
    if entries == [] then c
    else
      var before := CaseAfter(c, entries[..|entries| - 1]);
      var act := entries[|entries| - 1].act;
      if act.Transit? then Moved(before, act.target) else before
  }

  function EventOf(e: Entry, traceId: Id, c: CaseRecord, sequence: int, digest: CaseRecord -> Digest): TraceEvent {
    TraceEvent(
      sequence, traceId, c.tenantId, c.caseId, e.actor, e.kind, TypeOf(e),
      if e.act.Transit? then Some(digest(c)) else e.act.input,
      if e.act.Transit? then Some(digest(Moved(c, e.act.target))) else e.act.output,
      Success, e.at, None)
  }

  function TraceOf(
      c: CaseRecord, traceId: Id, entries: seq<Entry>, digest: CaseRecord -> Digest): (trace: seq<TraceEvent>)
    ensures |trace| == |entries|
  {
    if entries == [] then []
    else
      var n := |entries| - 1;
      TraceOf(c, traceId, entries[..n], digest)
      + [EventOf(entries[n], traceId, CaseAfter(c, entries[..n]), n + 1, digest)]
  }

  function EntriesOf(stages: seq<Stage>): seq<Entry> {
    if stages == [] then []
    else
      var last := stages[|stages| - 1];
      EntriesOf(stages[..|stages| - 1]) + last.calls + [last.transit]
  }

  function PlanKinds(plan: seq<StagePlan>): seq<Kind> {
    if plan == [] then []
    else
      var last := plan[|plan| - 1];
      PlanKinds(plan[..|plan| - 1]) + last.calls + [Kind(StateTransition, last.actor, last.kind)]
  }

  function PlanTarget(p: StagePlan): CaseState { p.target }

  function PlanTargets(plan: seq<StagePlan>): seq<CaseState> { Map(plan, PlanTarget) }

  /** The stage does what the plan says, and nothing else. */
  ghost predicate Follows(s: Stage, p: StagePlan) {
    && Map(s.calls, EntryKind) == p.calls && (forall i :: 0 <= i < |s.calls| ==> s.calls[i].act.Call?)
    && (forall i :: 0 <= i < |p.calls| ==> p.calls[i].eventType != StateTransition)
    && s.transit.act == Transit(p.target) && s.transit.actor == p.actor && s.transit.kind == p.kind
  }

  ghost predicate AllFollow(stages: seq<Stage>, plan: seq<StagePlan>) {
    |stages| == |plan| && forall i :: 0 <= i < |stages| ==> Follows(stages[i], plan[i])
  }

  predicate IsTransition(e: TraceEvent) { e.eventType == StateTransition }
  predicate IsCall(e: TraceEvent) { e.eventType != StateTransition }
  predicate IsApproval(e: TraceEvent) { e.eventType == HumanApproval }
  predicate IsPackaging(e: TraceEvent) { e.eventType == DocumentPackage }

  /** The case after a list of targets. */
  function Reached(c: CaseRecord, targets: seq<CaseState>): (r: CaseRecord)
    ensures r == c.(state := if targets == [] then c.state else targets[|targets| - 1],
                    stateVersion := c.stateVersion + |targets|)
  {
    if targets == [] then c else Moved(Reached(c, targets[..|targets| - 1]), targets[|targets| - 1])
  }

  /** No call is recorded as if it were a transition. */
  ghost predicate CallsApart(entries: seq<Entry>) {
    forall i :: 0 <= i < |entries| && entries[i].act.Call? ==> entries[i].act.eventType != StateTransition
  }

  function Targets(entries: seq<Entry>): seq<CaseState> {
    if entries == [] then []
    else
      var act := entries[|entries| - 1].act;
      Targets(entries[..|entries| - 1]) + if act.Transit? then [act.target] else []
  }

  /** The transition events are the steps from c through the targets, digest by digest. */
  ghost predicate Replays(
      moves: seq<TraceEvent>, c: CaseRecord, targets: seq<CaseState>, digest: CaseRecord -> Digest)
  {
    |moves| == |targets| &&
    (moves != [] ==>
       var n := |moves| - 1;
       && Replays(moves[..n], c, targets[..n], digest)
       && moves[n].input == Some(digest(Reached(c, targets[..n])))
       && moves[n].output == Some(digest(Reached(c, targets))))
  }

  /******* What a run leaves in its trace *******/

  lemma {:induction false} EventAt(
      c: CaseRecord, traceId: Id, entries: seq<Entry>, digest: CaseRecord -> Digest, k: nat)
    requires k < |entries|
    ensures TraceOf(c, traceId, entries, digest)[k]
         == EventOf(entries[k], traceId, CaseAfter(c, entries[..k]), k + 1, digest)
  {
    var n := |entries| - 1;
    if k < n {
      EventAt(c, traceId, entries[..n], digest, k);
      assert entries[..n][..k] == entries[..k];
    }
  }

  lemma {:induction false} CaseIsReached(c: CaseRecord, entries: seq<Entry>)
    ensures CaseAfter(c, entries) == Reached(c, Targets(entries))
  {
    if entries != [] {
      CaseIsReached(c, entries[..|entries| - 1]);
      var act := entries[|entries| - 1].act;
      if act.Transit? { assert Targets(entries)[..|Targets(entries)| - 1] == Targets(entries[..|entries| - 1]); }
    }
  }

  /** The transition events of a run replay its targets. */
  lemma {:induction false} TransitionsReplay(
      c: CaseRecord, traceId: Id, entries: seq<Entry>, digest: CaseRecord -> Digest)
    requires CallsApart(entries)
    ensures Replays(Filter(TraceOf(c, traceId, entries, digest), IsTransition), c, Targets(entries), digest)
  {
    if entries != [] {
      var n := |entries| - 1;
      var before, targets := entries[..n], Targets(entries);
      TransitionsReplay(c, traceId, before, digest);
      CaseIsReached(c, before);
      var trace := TraceOf(c, traceId, entries, digest);
      assert trace[..n] == TraceOf(c, traceId, before, digest);
      if entries[n].act.Transit? {
        assert targets[..|targets| - 1] == Targets(before);
        var moves := Filter(trace, IsTransition);
        assert moves[..|moves| - 1] == Filter(trace[..n], IsTransition);
      } else {
        assert targets == Targets(before) && Filter(trace, IsTransition) == Filter(trace[..n], IsTransition);
      }
    }
  }

  lemma {:induction false} TargetsJoin(a: seq<Entry>, b: seq<Entry>)
    ensures Targets(a + b) == Targets(a) + Targets(b)
  {
    if b == [] {
      assert a + b == a && Targets(a) + [] == Targets(a);
    } else {
      var n := |b| - 1;
      TargetsJoin(a, b[..n]);
      assert (a + b)[..|a + b| - 1] == a + b[..n];
    }
  }

  lemma {:induction false} CallsHaveNoTargets(calls: seq<Entry>)
    requires forall i :: 0 <= i < |calls| ==> calls[i].act.Call?
    ensures Targets(calls) == []
  {
    if calls != [] { CallsHaveNoTargets(calls[..|calls| - 1]); }
  }

  /** Stages that follow a plan have the plan's targets. */
  lemma {:induction false} StagesHaveTargets(stages: seq<Stage>, plan: seq<StagePlan>)
    requires AllFollow(stages, plan)
    ensures Targets(EntriesOf(stages)) == PlanTargets(plan)
  {
    if stages != [] {
      var n := |stages| - 1;
      var last := stages[n];
      var before := EntriesOf(stages[..n]);
      assert Follows(last, plan[n]);
      StagesHaveTargets(stages[..n], plan[..n]);
      CallsHaveNoTargets(last.calls);
      TargetsJoin(before, last.calls);
      TargetsJoin(before + last.calls, [last.transit]);
      assert Targets([last.transit]) == [plan[n].target];
    }
  }

  /** Their entries have the plan's kinds. */
  lemma {:induction false} StagesHaveKinds(stages: seq<Stage>, plan: seq<StagePlan>)
    requires AllFollow(stages, plan)
    ensures Map(EntriesOf(stages), EntryKind) == PlanKinds(plan)
  {
    if stages != [] {
      var n := |stages| - 1;
      var last := stages[n];
      var before := EntriesOf(stages[..n]);
      assert Follows(last, plan[n]);
      StagesHaveKinds(stages[..n], plan[..n]);
      MapJoin(before, last.calls, EntryKind);
      MapJoin(before + last.calls, [last.transit], EntryKind);
      assert Map([last.transit], EntryKind) == [EntryKind(last.transit)];
    }
  }

  lemma {:induction false} StagesKeepCallsApart(stages: seq<Stage>, plan: seq<StagePlan>)
    requires AllFollow(stages, plan)
    ensures CallsApart(EntriesOf(stages))
  {
    if stages != [] {
      var n := |stages| - 1;
      StagesKeepCallsApart(stages[..n], plan[..n]);
      assert Follows(stages[n], plan[n]);
      CallKinds(stages[n], plan[n]);
      assert CallsApart(EntriesOf(stages[..n]) + stages[n].calls);
    }
  }

  lemma CallKinds(s: Stage, p: StagePlan)
    requires Follows(s, p)
    ensures forall i :: 0 <= i < |s.calls| ==> s.calls[i].act.Call? && s.calls[i].act.eventType != StateTransition
  {
    assert forall i :: 0 <= i < |s.calls| ==> p.calls[i] == EntryKind(s.calls[i]);
  }
}
