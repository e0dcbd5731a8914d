/** Any interleaving of closure verifications over one outcome index. */
module ClosureRuns {
  import opened Basics
  import opened Decimal
  import opened AppendOnlyRuns
  import opened LogIndex
  import opened Attestations
  import opened OutcomeClosure
  import OX = OutcomeIndex

  /** Different payloads never share a digest. */
  ghost predicate DigestsTellPayloadsApart(w: World) {
    forall b1, b2 :: w.sha256(b1) == w.sha256(b2) ==> b1 == b2
  }

  /** The record a verification asks for, if it gets that far. */
  ghost function Asks(w: World): ClosureAttempt -> Option<OX.Call>
    requires WorldValid(w)
  {
    (a: ClosureAttempt) =>
      if PolicyValid(a.policy) && AdmitClosure(w, a).Ready?
      then Some(CallFor(AdmitClosure(w, a).statement, AdmitClosure(w, a).payload)) else None
  }

  /** What a run of verifications leaves in an index that starts empty. */
  ghost function IndexAfter(w: World, attempts: seq<ClosureAttempt>, capacity: int): seq<OX.Call>
    requires WorldValid(w)
  {
    LogAfter(Asked(attempts, Asks(w)), OX.Appends(capacity))
  }

  /** The outcome of the i-th verification of a run. */
  ghost function OutcomeAt(w: World, attempts: seq<ClosureAttempt>, capacity: int, i: nat): Outcome
    requires WorldValid(w) && i < |attempts| && PolicyValid(attempts[i].policy)
  {
    Built(Assembled(w, attempts[i], IndexAfter(w, attempts[..i], capacity), capacity))
  }

  /** The i-th verification reports the verdict as recorded. */
  ghost predicate Records(w: World, attempts: seq<ClosureAttempt>, capacity: int, i: nat, verdict: Verdict)
    requires WorldValid(w) && i < |attempts|
  {
    && PolicyValid(attempts[i].policy)
    && var outcome := OutcomeAt(w, attempts, capacity, i);
    && outcome.Returned? && outcome.result.recorded && outcome.result.status == verdict
  }

  /** An index answer that leaves the closure recorded. */
  predicate Kept(status: OX.Status) { status == OX.Appended || status == OX.AlreadyPresent }

  /** What is ready to be recorded carries the verdict its own statement calls for. */
  lemma ReadyMeansJudged(w: World, a: ClosureAttempt)
    requires WorldValid(w) && PolicyValid(a.policy) && AdmitClosure(w, a).Ready?
    ensures Judge(AdmitClosure(w, a).statement.claim.reconciliation) == Terminal(AdmitClosure(w, a).verdict)
  {
    var reading := ReadClosure(w, a);
    GuardsLeadToTheVerdict(w, a, reading.envelope, reading.statement);
  }

  lemma StoppedIsNotRecorded(w: World, a: ClosureAttempt)
    requires WorldValid(w) && PolicyValid(a.policy) && AdmitClosure(w, a).Stopped?
    ensures !AdmitClosure(w, a).result.recorded
  {
  }

  lemma SettledIsRecordedIfKept(a: ClosureAdmission, status: OX.Status)
    requires a.Ready?
    ensures SettleClosure(a, status).recorded <==> Kept(status)
    ensures Kept(status) ==> SettleClosure(a, status).status == a.verdict
    ensures status == OX.AlreadyPresent ==>
      SettleClosure(a, status).reasons == [if a.verdict == Pass then PassAlreadyPresent else FailAlreadyPresent]
  {
  }

  /** A recorded verdict is the one the statement's own attempts call for, and the index had or took the record. */
  lemma RecordedVerdictsComeFromTheStatement(w: World, a: ClosureAttempt, log: seq<OX.Call>, capacity: int)
    requires WorldValid(w) && PolicyValid(a.policy) && Assembled(w, a, log, capacity).recorded
    ensures Asks(w)(a).Some? && Kept(OX.Answer(log, capacity, Asks(w)(a).value))
    ensures AdmitClosure(w, a).Ready?
    ensures Judge(AdmitClosure(w, a).statement.claim.reconciliation) == Terminal(Assembled(w, a, log, capacity).status)
  {
    var admission := AdmitClosure(w, a);
    if admission.Stopped? {
      StoppedIsNotRecorded(w, a);
    } else {
      ReadyMeansJudged(w, a);
      SettledIsRecordedIfKept(admission, OX.Answer(log, capacity, CallFor(admission.statement, admission.payload)));
    }
  }

  /** One statement has one verdict: attempts that carry the same payload agree on what they record. */
  lemma CallsComeFromPayloads(w: World, a: ClosureAttempt, b: ClosureAttempt)
    requires WorldValid(w) && DigestsTellPayloadsApart(w)
    requires Asks(w)(a).Some? && Asks(w)(b).Some? && Asks(w)(a).value.payload == Asks(w)(b).value.payload
    ensures Asks(w)(a) == Asks(w)(b)
    ensures AdmitClosure(w, a).statement == AdmitClosure(w, b).statement
  {
    ReadyWasRead(w, a);
    ReadyWasRead(w, b);
  }

  lemma ReadyWasRead(w: World, a: ClosureAttempt)
    requires WorldValid(w) && PolicyValid(a.policy) && AdmitClosure(w, a).Ready?
    ensures w.parseEnvelope(a.envelope).Some?
    ensures var payload := w.parseEnvelope(a.envelope).value.payload;
            && AdmitClosure(w, a).payload == w.sha256(payload)
            && w.parseClosure(payload) == Some(AdmitClosure(w, a).statement)
  {
  }

  lemma {:induction false} AskedComeFromAttempts(w: World, attempts: seq<ClosureAttempt>, c: OX.Call)
    requires WorldValid(w) && c in Asked(attempts, Asks(w))
    ensures exists i :: 0 <= i < |attempts| && Asks(w)(attempts[i]) == Some(c)
  {
    var n := |attempts| - 1;
    if c in Asked(attempts[..n], Asks(w)) {
      AskedComeFromAttempts(w, attempts[..n], c);
      var i :| 0 <= i < n && Asks(w)(attempts[..n][i]) == Some(c);
      assert attempts[i] == attempts[..n][i];
    } else {
      assert Asks(w)(attempts[n]) == Some(c);
    }
  }

  lemma AskedPayloadsDetermineCalls(w: World, attempts: seq<ClosureAttempt>)
    requires WorldValid(w) && DigestsTellPayloadsApart(w)
    ensures OX.PayloadDeterminesCall(Asked(attempts, Asks(w)))
  {
    var calls := Asked(attempts, Asks(w));
    forall i, j | 0 <= i < |calls| && 0 <= j < |calls| && calls[i].payload == calls[j].payload
      ensures calls[i] == calls[j]
    {
      AskedComeFromAttempts(w, attempts, calls[i]);
      AskedComeFromAttempts(w, attempts, calls[j]);
      var m :| 0 <= m < |attempts| && Asks(w)(attempts[m]) == Some(calls[i]);
      var n :| 0 <= n < |attempts| && Asks(w)(attempts[n]) == Some(calls[j]);
      CallsComeFromPayloads(w, attempts[m], attempts[n]);
    }
  }

  /** What a verification reports as recorded stays in the index for good. */
  lemma RecordedCallsStay(w: World, attempts: seq<ClosureAttempt>, capacity: int, i: nat, verdict: Verdict)
    requires WorldValid(w) && DigestsTellPayloadsApart(w) && i < |attempts|
    requires Records(w, attempts, capacity, i, verdict)
    ensures Asks(w)(attempts[i]).Some? && Asks(w)(attempts[i]).value in IndexAfter(w, attempts, capacity)
  {
    RecordedVerdictsComeFromTheStatement(w, attempts[i], IndexAfter(w, attempts[..i], capacity), capacity);
    var calls, p := Asked(attempts, Asks(w)), |Asked(attempts[..i], Asks(w))|;
    AskedInOrder(attempts, Asks(w), i);
    AskedPayloadsDetermineCalls(w, attempts);
    OX.KeptCallsStay(calls, capacity, p);
  }

  /**
   No step of an attempt is ever recorded both as PASS and as FAIL, whoever verifies it,
   under whatever policy, evidence and handoff.
   */
  lemma NoStepIsBothPassAndFail(w: World, attempts: seq<ClosureAttempt>, capacity: int, i: nat, j: nat)
    requires WorldValid(w) && DigestsTellPayloadsApart(w) && 1 <= capacity
    requires i < |attempts| && j < |attempts|
    requires Records(w, attempts, capacity, i, Pass) && Records(w, attempts, capacity, j, Fail)
    ensures Asks(w)(attempts[i]).Some? && Asks(w)(attempts[j]).Some?
    ensures OX.ExecutionKey(Asks(w)(attempts[i]).value) != OX.ExecutionKey(Asks(w)(attempts[j]).value)
  {
    RecordedCallsStay(w, attempts, capacity, i, Pass);
    RecordedCallsStay(w, attempts, capacity, j, Fail);
    OX.EveryReachableIndexIsChained(Asked(attempts, Asks(w)), capacity);
    var log := IndexAfter(w, attempts, capacity);
    var x, y := Asks(w)(attempts[i]).value, Asks(w)(attempts[j]).value;
    var k :| 0 <= k < |log| && log[k] == x;
    var m :| 0 <= m < |log| && log[m] == y;
    if OX.ExecutionKey(x) == OX.ExecutionKey(y) {
      SameStepSameRecord(log, k, m);
      CallsComeFromPayloads(w, attempts[i], attempts[j]);
      RecordedVerdictsComeFromTheStatement(w, attempts[i], IndexAfter(w, attempts[..i], capacity), capacity);
      RecordedVerdictsComeFromTheStatement(w, attempts[j], IndexAfter(w, attempts[..j], capacity), capacity);
    }
  }

  lemma SameStepSameRecord(log: seq<OX.Call>, k: nat, m: nat)
    requires OX.LogValid(log) && k < |log| && m < |log|
    requires OX.ExecutionKey(log[k]) == OX.ExecutionKey(log[m])
    ensures k == m
  {
  }

  lemma RepeatedCallsArePresent<A>(attempts: seq<A>, ask: A -> Option<OX.Call>, capacity: int, i: nat, j: nat)
    requires i < j < |attempts| && ask(attempts[i]).Some? && ask(attempts[j]) == ask(attempts[i])
    requires OX.Answer(LogAfter(Asked(attempts[..i], ask), OX.Appends(capacity)), capacity, ask(attempts[i]).value)
             == OX.Appended
    ensures OX.Answer(LogAfter(Asked(attempts[..j], ask), OX.Appends(capacity)), capacity, ask(attempts[j]).value)
            == OX.AlreadyPresent
  {
    var calls := Asked(attempts, ask);
    var p, q := |Asked(attempts[..i], ask)|, |Asked(attempts[..j], ask)|;
    AskedInOrder(attempts, ask, i);
    AskedInOrder(attempts, ask, j);
    AskedInOrder(attempts[..j], ask, i);
    assert attempts[..j][..i] == attempts[..i];
    OX.RetriesStayPresent(calls, capacity, p, q);
  }

  /** A closure recorded once is reported as already present by every later verification of it. */
  lemma RecordedClosuresStayPresent(w: World, attempts: seq<ClosureAttempt>, capacity: int, i: nat, j: nat)
    requires WorldValid(w) && i < j < |attempts|
    requires Asks(w)(attempts[i]).Some? && Asks(w)(attempts[j]) == Asks(w)(attempts[i])
    requires OX.Answer(IndexAfter(w, attempts[..i], capacity), capacity, Asks(w)(attempts[i]).value) == OX.Appended
    ensures PolicyValid(attempts[j].policy)
    ensures var r := Assembled(w, attempts[j], IndexAfter(w, attempts[..j], capacity), capacity);
            r.recorded && r.reasons == [if r.status == Pass then PassAlreadyPresent else FailAlreadyPresent]
  {
    RepeatedCallsArePresent(attempts, Asks(w), capacity, i, j);
    PresentIsReported(w, attempts[j], IndexAfter(w, attempts[..j], capacity), capacity);
  }

  lemma PresentIsReported(w: World, a: ClosureAttempt, log: seq<OX.Call>, capacity: int)
    requires WorldValid(w) && Asks(w)(a).Some?
    requires OX.Answer(log, capacity, Asks(w)(a).value) == OX.AlreadyPresent
    ensures var r := Assembled(w, a, log, capacity);
            r.recorded && r.reasons == [if r.status == Pass then PassAlreadyPresent else FailAlreadyPresent]
  {
    SettledIsRecordedIfKept(AdmitClosure(w, a), OX.AlreadyPresent);
  }
}
