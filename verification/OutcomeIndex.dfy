/**
 The append-only outcome index. The reference meaning of the index is a log of the
 closures it has recorded; the class keeps four dictionaries instead and is proved to
 give, on every call, the answer the log gives.
 */
module OutcomeIndex {
  import opened Basics
  import opened LogIndex
  import opened AppendOnlyRuns

  const MAX_CAPACITY := 1_000_000

  datatype Status =
    | Appended
    | AlreadyPresent
    | ClosureIdConflict
    | AttemptSequenceConflict
    | PreviousDigestConflict
    | IdempotencyConflict
    | Unavailable

  type AttemptKey = (Id, Id, Id)

  datatype Call = Call(
    tenant: Id, closure: Id, execution: Id, attempt: Id, sequence: int,
    previous: Option<Digest>, payload: Digest, idempotencyKey: Id, intent: Digest)

  function ClosureKey(c: Call): (Id, Id) { (c.tenant, c.closure) }
  function ExecutionKey(c: Call): (Id, Id, Id, int) { (c.tenant, c.execution, c.attempt, c.sequence) }
  function LatestKey(c: Call): AttemptKey { (c.tenant, c.execution, c.attempt) }
  function IdempotencyKey(c: Call): (Id, Id, int) { (c.tenant, c.idempotencyKey, c.sequence) }

  function Payload(c: Call): Digest { c.payload }
  function Step(c: Call): (Digest, Option<Digest>) { (c.payload, c.previous) }
  function Intent(c: Call): (Digest, Digest) { (c.intent, c.payload) }
  function Latest(c: Call): (int, Digest) { (c.sequence, c.payload) }

  /******* The reference: a log of recorded closures *******/

  /** The records of one attempt, in the order they were recorded. */
  function ChainOf(log: seq<Call>, key: AttemptKey): seq<Call> {
    if log == [] then []
    else
      var earlier := ChainOf(log[..|log| - 1], key);
      var last := log[|log| - 1];
      if LatestKey(last) == key then earlier + [last] else earlier
  }

  /** The digest the next record of a chain has to name as its predecessor. */
  function Tip(chain: seq<Call>): Option<Digest> {
    if chain == [] then None else Some(chain[|chain| - 1].payload)
  }

  /** The chain is numbered 1, 2, 3, ... and each record names the payload before it. */
  ghost predicate Linked(chain: seq<Call>) {
    forall i :: 0 <= i < |chain| ==>
      chain[i].sequence == i + 1 && chain[i].previous == Tip(chain[..i])
  }

  ghost predicate ClosureRecorded(log: seq<Call>, c: Call) {
    exists i :: 0 <= i < |log| && ClosureKey(log[i]) == ClosureKey(c)
  }

  ghost predicate StepRecorded(log: seq<Call>, c: Call) {
    exists i :: 0 <= i < |log| && ExecutionKey(log[i]) == ExecutionKey(c)
  }

  ghost predicate SlotRecorded(log: seq<Call>, c: Call) {
    exists i :: 0 <= i < |log| && IdempotencyKey(log[i]) == IdempotencyKey(c)
  }

  /** What the index has to answer, given everything it has recorded so far. */
  ghost function Answer(log: seq<Call>, capacity: int, c: Call): Status {
    var chain := ChainOf(log, LatestKey(c));
    if ClosureRecorded(log, c) then
      if && (exists i :: 0 <= i < |log| && ClosureKey(log[i]) == ClosureKey(c) && log[i].payload == c.payload)
         && (exists i :: 0 <= i < |log| && ExecutionKey(log[i]) == ExecutionKey(c) && log[i].payload == c.payload)
      then AlreadyPresent else ClosureIdConflict
    else if StepRecorded(log, c) then AttemptSequenceConflict
    else if SlotRecorded(log, c) then
      if exists i :: 0 <= i < |log| && IdempotencyKey(log[i]) == IdempotencyKey(c)
                     && log[i].intent == c.intent && log[i].payload == c.payload
      then AlreadyPresent else IdempotencyConflict
    else if c.sequence != |chain| + 1 then AttemptSequenceConflict
    else if c.previous != Tip(chain) then PreviousDigestConflict
    else if |log| >= capacity then Unavailable
    else Appended
  }

  ghost function Appends(capacity: int): (seq<Call>, Call) -> bool {
    (log: seq<Call>, c: Call) => Answer(log, capacity, c) == Appended
  }

  /** No two records share a closure, a step of an attempt or an idempotency slot. */
  ghost predicate UniqueKeys(log: seq<Call>) {
    && KeysDistinct(log, ClosureKey)
    && KeysDistinct(log, ExecutionKey)
    && KeysDistinct(log, IdempotencyKey)
  }

  ghost predicate LogValid(log: seq<Call>) {
    && UniqueKeys(log)
    && forall key :: Linked(ChainOf(log, key))
  }

  lemma ChainOfAppend(log: seq<Call>, c: Call, key: AttemptKey)
    ensures ChainOf(log + [c], key)
         == if LatestKey(c) == key then ChainOf(log, key) + [c] else ChainOf(log, key)
  {
    assert (log + [c])[..|log|] == log;
  }

  /** Every record of an attempt is in its chain, and the chain holds nothing else. */
  lemma {:induction false} ChainHoldsTheAttempt(log: seq<Call>, key: AttemptKey, r: Call)
    ensures r in ChainOf(log, key) <==> r in log && LatestKey(r) == key
  {
    if log != [] {
      ChainHoldsTheAttempt(log[..|log| - 1], key, r);
      assert log == log[..|log| - 1] + [log[|log| - 1]];
    }
  }

  lemma LinkedAppend(chain: seq<Call>, c: Call)
    requires Linked(chain) && c.sequence == |chain| + 1 && c.previous == Tip(chain)
    ensures Linked(chain + [c])
  {
    forall i | 0 <= i < |chain| + 1
      ensures (chain + [c])[i].sequence == i + 1 && (chain + [c])[i].previous == Tip((chain + [c])[..i])
    {
      assert (chain + [c])[..i] == chain[..i];
      if i == |chain| { assert chain[..i] == chain; }
    }
  }

  /** Recording what the index agreed to record keeps every chain gap-free and linked. */
  lemma AppendKeepsTheLogValid(log: seq<Call>, capacity: int, c: Call)
    requires LogValid(log)
    ensures LogValid(After(log, Appends(capacity), c))
  {
    if Answer(log, capacity, c) == Appended {
      var after := log + [c];
      forall key ensures Linked(ChainOf(after, key)) {
        ChainOfAppend(log, c, key);
        if LatestKey(c) == key { LinkedAppend(ChainOf(log, key), c); }
      }
    }
  }

  /******* The dictionaries *******/

  datatype Dictionaries = Dictionaries(
    closures: map<(Id, Id), Digest>,
    executions: map<(Id, Id, Id, int), (Digest, Option<Digest>)>,
    latest: map<AttemptKey, (int, Digest)>,
    idempotency: map<(Id, Id, int), (Digest, Digest)>)

  /** The dictionaries that recording the log leaves behind. */
  function Stored(log: seq<Call>): Dictionaries {
    Dictionaries(
      IndexOf(log, ClosureKey, Payload),
      IndexOf(log, ExecutionKey, Step),
      IndexOf(log, LatestKey, Latest),
      IndexOf(log, IdempotencyKey, Intent))
  }

  /** The dictionary of latest steps shows the end of every chain. */
  lemma {:induction false} LatestShowsTheTip(log: seq<Call>, key: AttemptKey)
    ensures var chain := ChainOf(log, key); var latest := Stored(log).latest;
            && (key in latest <==> chain != [])
            && (chain != [] ==> latest[key] == Latest(chain[|chain| - 1]))
  {
    if log != [] { LatestShowsTheTip(log[..|log| - 1], key); }
  }

  /** The answer the dictionaries lead to. */
  function Lookup(d: Dictionaries, capacity: int, c: Call): Status {
    if ClosureKey(c) in d.closures then
      if d.closures[ClosureKey(c)] == c.payload && ExecutionKey(c) in d.executions
         && d.executions[ExecutionKey(c)].0 == c.payload
      then AlreadyPresent else ClosureIdConflict
    else if ExecutionKey(c) in d.executions then AttemptSequenceConflict
    else if IdempotencyKey(c) in d.idempotency then
      if d.idempotency[IdempotencyKey(c)] == (c.intent, c.payload) then AlreadyPresent
      else IdempotencyConflict
    else if c.sequence == 1 && c.previous != None then PreviousDigestConflict
    else if c.sequence != 1
            && (LatestKey(c) !in d.latest || d.latest[LatestKey(c)].0 != c.sequence - 1) then
      AttemptSequenceConflict
    else if c.sequence != 1 && c.previous != Some(d.latest[LatestKey(c)].1) then PreviousDigestConflict
    else if |d.closures| >= capacity then Unavailable
    else Appended
  }

  /** The four dictionaries lead to exactly the answer the log gives. */
  lemma LookupAnswersFromTheLog(log: seq<Call>, capacity: int, c: Call)
    requires LogValid(log)
    ensures Lookup(Stored(log), capacity, c) == Answer(log, capacity, c)
  {
    LookupIsRecorded(log, ClosureKey, Payload, ClosureKey(c));
    LookupIsRecorded(log, ExecutionKey, Step, ExecutionKey(c));
    LookupIsRecorded(log, IdempotencyKey, Intent, IdempotencyKey(c));
    IndexHasOneEntryPerRecord(log, ClosureKey, Payload);
    ChainCoversEveryStep(log, c);
    LatestShowsTheTip(log, LatestKey(c));
    assert Linked(ChainOf(log, LatestKey(c)));
  }

  class InMemoryOutcomeClosureIndex {
    const capacity: int
    var closures: map<(Id, Id), Digest>
    var executions: map<(Id, Id, Id, int), (Digest, Option<Digest>)>
    var latest: map<AttemptKey, (int, Digest)>
    var idempotency: map<(Id, Id, int), (Digest, Digest)>
    /** Everything ever appended, in order. */
    ghost var log: seq<Call>

    ghost predicate Valid()
      reads this
    {
      && 1 <= capacity <= MAX_CAPACITY
      && LogValid(log)
      && |log| <= capacity
      && Contents() == Stored(log)
    }

    function Contents(): Dictionaries
      reads this
    {
      Dictionaries(closures, executions, latest, idempotency)
    }

    constructor (capacity: int)
      requires 1 <= capacity <= MAX_CAPACITY
      ensures Valid() && log == [] && this.capacity == capacity
    {
      this.capacity := capacity;
      closures, executions, latest, idempotency := map[], map[], map[], map[];
      log := [];
    }

    /** Refuses a capacity outside 1..MAX_CAPACITY, as the source's constructor raises. */
    static method Open(capacity: int) returns (index: Option<InMemoryOutcomeClosureIndex>)
      ensures index.Some? <==> 1 <= capacity <= MAX_CAPACITY
      ensures index.Some? ==>
        fresh(index.value) && index.value.Valid() && index.value.log == []
        && index.value.capacity == capacity
    {
      if capacity < 1 || capacity > MAX_CAPACITY { return None; }
      var created := new InMemoryOutcomeClosureIndex(capacity);
      index := Some(created);
    }

    method AppendOnce(c: Call) returns (status: Status)
      requires Valid()
      modifies this
      ensures Valid()
      ensures status == Answer(old(log), capacity, c)
      ensures log == After(old(log), Appends(capacity), c)
      ensures status == Appended ==>
        Contents() == Dictionaries(
          old(closures)[ClosureKey(c) := c.payload],
          old(executions)[ExecutionKey(c) := (c.payload, c.previous)],
          old(latest)[LatestKey(c) := (c.sequence, c.payload)],
          old(idempotency)[IdempotencyKey(c) := (c.intent, c.payload)])
      ensures status != Appended ==> Contents() == old(Contents())
      ensures |closures| == |executions| == |idempotency| == |log| <= capacity
    {
      LookupAnswersFromTheLog(log, capacity, c);
      EveryDictionaryHasOneEntryPerRecord(log);
      var closureKey, executionKey, latestKey, idempotencyKeyed :=
        ClosureKey(c), ExecutionKey(c), LatestKey(c), IdempotencyKey(c);
      if closureKey in closures {
        if closures[closureKey] == c.payload && executionKey in executions
           && executions[executionKey].0 == c.payload {
          return AlreadyPresent;
        }
        return ClosureIdConflict;
      }
      if executionKey in executions { return AttemptSequenceConflict; }
      if idempotencyKeyed in idempotency {
        if idempotency[idempotencyKeyed] == (c.intent, c.payload) { return AlreadyPresent; }
        return IdempotencyConflict;
      }
      if c.sequence == 1 {
        if c.previous != None { return PreviousDigestConflict; }
      } else if latestKey !in latest || latest[latestKey].0 != c.sequence - 1 {
        return AttemptSequenceConflict;
      } else if c.previous != Some(latest[latestKey].1) {
        return PreviousDigestConflict;
      }
      if |closures| >= capacity { return Unavailable; }
      AppendKeepsTheLogValid(log, capacity, c);
      EveryDictionaryHasOneEntryPerRecord(log + [c]);
      IndexOfAppend(log, ClosureKey, Payload, c);
      IndexOfAppend(log, ExecutionKey, Step, c);
      IndexOfAppend(log, LatestKey, Latest, c);
      IndexOfAppend(log, IdempotencyKey, Intent, c);
      closures := closures[closureKey := c.payload];
      executions := executions[executionKey := (c.payload, c.previous)];
      latest := latest[latestKey := (c.sequence, c.payload)];
      idempotency := idempotency[idempotencyKeyed := (c.intent, c.payload)];
      log := log + [c];
      return Appended;
    }
  }

  lemma EveryDictionaryHasOneEntryPerRecord(log: seq<Call>)
    requires UniqueKeys(log)
    ensures |Stored(log).closures| == |Stored(log).executions| == |Stored(log).idempotency| == |log|
  {
    IndexHasOneEntryPerRecord(log, ClosureKey, Payload);
    IndexHasOneEntryPerRecord(log, ExecutionKey, Step);
    IndexHasOneEntryPerRecord(log, IdempotencyKey, Intent);
  }

  /** Every step up to the end of an attempt's chain has been recorded. */
  lemma ChainCoversEveryStep(log: seq<Call>, c: Call)
    requires LogValid(log)
    ensures 1 <= c.sequence <= |ChainOf(log, LatestKey(c))| ==> StepRecorded(log, c)
  {
    var chain := ChainOf(log, LatestKey(c));
    if 1 <= c.sequence <= |chain| {
      var r := chain[c.sequence - 1];
      assert Linked(chain);
      ChainHoldsTheAttempt(log, LatestKey(c), r);
      var i :| 0 <= i < |log| && log[i] == r;
      assert ExecutionKey(log[i]) == ExecutionKey(c);
    }
  }

  /******* Runs *******/

  /** The answer the i-th call of a run receives. */
  ghost function AnswerAt(calls: seq<Call>, capacity: int, i: nat): Status
    requires i < |calls|
  {
    Answer(LogAfter(calls[..i], Appends(capacity)), capacity, calls[i])
  }

  /**
   After any run, the records of each attempt are numbered exactly 1..n and linked by
   digest, no key was used twice, and there is one record per APPENDED answer, never more
   than the capacity.
   */
  lemma {:induction false} EveryReachableIndexIsChained(calls: seq<Call>, capacity: int)
    requires 1 <= capacity
    ensures var log := LogAfter(calls, Appends(capacity));
            LogValid(log) && |log| == AcceptedCount(calls, Appends(capacity)) <= capacity
  {
    OneRecordPerAcceptedCall(calls, Appends(capacity));
    if calls != [] {
      var n := |calls| - 1;
      EveryReachableIndexIsChained(calls[..n], capacity);
      AppendKeepsTheLogValid(LogAfter(calls[..n], Appends(capacity)), capacity, calls[n]);
    }
  }

  /** Once a call has been recorded, repeating it is always answered ALREADY_PRESENT. */
  lemma RetriesStayPresent(calls: seq<Call>, capacity: int, i: nat, j: nat)
    requires i < j < |calls| && calls[j] == calls[i]
    requires AnswerAt(calls, capacity, i) == Appended
    ensures AnswerAt(calls, capacity, j) == AlreadyPresent
  {
    AcceptedCallsStay(calls, Appends(capacity), i, j);
  }

  /** A payload digest determines the call it appears in. */
  ghost predicate PayloadDeterminesCall(calls: seq<Call>) {
    forall i, j :: 0 <= i < |calls| && 0 <= j < |calls| && calls[i].payload == calls[j].payload ==>
      calls[i] == calls[j]
  }

  /**
   When payloads determine calls, ALREADY_PRESENT always means that this very call is in
   the log: the idempotency dictionary is never what leads to it.
   */
  lemma PresentMeansRecorded(calls: seq<Call>, capacity: int, i: nat)
    requires i < |calls| && PayloadDeterminesCall(calls)
    requires AnswerAt(calls, capacity, i) == AlreadyPresent
    ensures ClosureRecorded(LogAfter(calls[..i], Appends(capacity)), calls[i])
    ensures calls[i] in LogAfter(calls[..i], Appends(capacity))
  {
    var c, log := calls[i], LogAfter(calls[..i], Appends(capacity));
    var k :| 0 <= k < |log| && log[k].payload == c.payload;
    RecordsComeFromCalls(calls[..i], Appends(capacity), log[k]);
    var m :| 0 <= m < i && calls[m] == log[k];
    assert calls[m].payload == calls[i].payload;
    assert log[k] == c;
    assert ClosureKey(log[k]) == ClosureKey(c);
  }

  /**
   Without that, the branch is live: a second closure that repeats the payload, the intent
   and the idempotency slot of a recorded one under another closure id and another
   execution is reported present although its own closure id was never recorded.
   */
  lemma PresentWithoutBeingRecorded(c: Call, closure: Id, execution: Id, capacity: int)
    requires capacity >= 1 && c.sequence == 1 && c.previous == None
    requires closure != c.closure && execution != c.execution
    ensures var calls := [c, c.(closure := closure, execution := execution)];
            && AnswerAt(calls, capacity, 1) == AlreadyPresent
            && !ClosureRecorded(LogAfter(calls[..1], Appends(capacity)), calls[1])
  {
    var calls := [c, c.(closure := closure, execution := execution)];
    assert calls[..0] == [] && calls[..1] == [c] && [c][..0] == [];
    assert LogAfter([c], Appends(capacity)) == [c];
    assert IdempotencyKey([c][0]) == IdempotencyKey(calls[1]);
  }

  /** When payloads determine calls, whatever was ever answered APPENDED or ALREADY_PRESENT stays in the log. */
  lemma KeptCallsStay(calls: seq<Call>, capacity: int, i: nat)
    requires i < |calls| && PayloadDeterminesCall(calls)
    requires AnswerAt(calls, capacity, i) == Appended || AnswerAt(calls, capacity, i) == AlreadyPresent
    ensures calls[i] in LogAfter(calls, Appends(capacity))
  {
    if AnswerAt(calls, capacity, i) == Appended {
      AcceptedCallsStay(calls, Appends(capacity), i, |calls|);
      assert calls[..|calls|] == calls;
    } else {
      var log := LogAfter(calls[..i], Appends(capacity));
      PresentMeansRecorded(calls, capacity, i);
      LogsOnlyGrow(calls, Appends(capacity), i);
      var k :| 0 <= k < |log| && log[k] == calls[i];
      assert LogAfter(calls, Appends(capacity))[k] == calls[i];
    }
  }
}
