/**
 The append-only receipt index. Receipts and attempts are recorded once; an idempotency
 key may recur, but only ever with the intent it was first recorded with.
 */
module ReceiptIndex {
  import opened Basics
  import opened LogIndex
  import opened AppendOnlyRuns

  const MAX_CAPACITY := 1_000_000

  datatype Status =
    | Appended
    | AlreadyPresent
    | ReceiptIdConflict
    | AttemptConflict
    | IdempotencyConflict
    | Unavailable

  datatype Call = Call(
    tenant: Id, receipt: Id, execution: Id, attempt: Id,
    payload: Digest, idempotencyKey: Id, intent: Digest)

  function ReceiptKey(c: Call): (Id, Id) { (c.tenant, c.receipt) }
  function AttemptKey(c: Call): (Id, Id, Id) { (c.tenant, c.execution, c.attempt) }
  function IdempotencyKey(c: Call): (Id, Id) { (c.tenant, c.idempotencyKey) }
  function Payload(c: Call): Digest { c.payload }
  function Intent(c: Call): Digest { c.intent }

  /** What the index has to answer, given everything it has recorded so far. */
  ghost function Answer(log: seq<Call>, capacity: int, c: Call): Status {
    if exists i :: 0 <= i < |log| && ReceiptKey(log[i]) == ReceiptKey(c) then
      if && (exists i :: 0 <= i < |log| && ReceiptKey(log[i]) == ReceiptKey(c) && log[i].payload == c.payload)
         && (exists i :: 0 <= i < |log| && AttemptKey(log[i]) == AttemptKey(c) && log[i].payload == c.payload)
      then AlreadyPresent else ReceiptIdConflict
    else if exists i :: 0 <= i < |log| && AttemptKey(log[i]) == AttemptKey(c) then AttemptConflict
    else if exists i :: 0 <= i < |log| && IdempotencyKey(log[i]) == IdempotencyKey(c) && log[i].intent != c.intent
    then IdempotencyConflict
    else if |log| >= capacity then Unavailable
    else Appended
  }

  ghost function Appends(capacity: int): (seq<Call>, Call) -> bool {
    (log: seq<Call>, c: Call) => Answer(log, capacity, c) == Appended
  }

  /** Every idempotency key stands for a single intent. */
  ghost predicate OneIntentPerKey(log: seq<Call>) {
    forall i, j :: 0 <= i < |log| && 0 <= j < |log| && IdempotencyKey(log[i]) == IdempotencyKey(log[j]) ==>
      log[i].intent == log[j].intent
  }

  ghost predicate LogValid(log: seq<Call>) {
    KeysDistinct(log, ReceiptKey) && KeysDistinct(log, AttemptKey) && OneIntentPerKey(log)
  }

  /** The idempotency dictionary shows the one intent each key stands for. */
  lemma {:induction false} IntentIsRecorded(log: seq<Call>, k: (Id, Id))
    requires OneIntentPerKey(log)
    ensures k in IndexOf(log, IdempotencyKey, Intent) <==>
            exists i :: 0 <= i < |log| && IdempotencyKey(log[i]) == k
    ensures forall i :: 0 <= i < |log| && IdempotencyKey(log[i]) == k ==>
            IndexOf(log, IdempotencyKey, Intent)[k] == log[i].intent
  {
    if log != [] {
      var n := |log| - 1;
      IntentIsRecorded(log[..n], k);
      assert forall i :: 0 <= i < n ==> log[..n][i] == log[i];
      if k == IdempotencyKey(log[n]) { assert 0 <= n < |log| && IdempotencyKey(log[n]) == k; }
    }
  }

  datatype Dictionaries = Dictionaries(
    receipts: map<(Id, Id), Digest>, attempts: map<(Id, Id, Id), Digest>, idempotency: map<(Id, Id), Digest>)

  /** The dictionaries that recording the log leaves behind. */
  function Stored(log: seq<Call>): Dictionaries {
    Dictionaries(
      IndexOf(log, ReceiptKey, Payload), IndexOf(log, AttemptKey, Payload), IndexOf(log, IdempotencyKey, Intent))
  }

  /** The answer the dictionaries lead to. */
  function Lookup(d: Dictionaries, capacity: int, c: Call): Status {
    if ReceiptKey(c) in d.receipts then
      if d.receipts[ReceiptKey(c)] == c.payload && AttemptKey(c) in d.attempts
         && d.attempts[AttemptKey(c)] == c.payload
      then AlreadyPresent else ReceiptIdConflict
    else if AttemptKey(c) in d.attempts then AttemptConflict
    else if IdempotencyKey(c) in d.idempotency && d.idempotency[IdempotencyKey(c)] != c.intent then
      IdempotencyConflict
    else if |d.receipts| >= capacity then Unavailable
    else Appended
  }

  /** The three dictionaries lead to exactly the answer the log gives. */
  lemma LookupAnswersFromTheLog(log: seq<Call>, capacity: int, c: Call)
    requires LogValid(log)
    ensures Lookup(Stored(log), capacity, c) == Answer(log, capacity, c)
  {
    LookupIsRecorded(log, ReceiptKey, Payload, ReceiptKey(c));
    LookupIsRecorded(log, AttemptKey, Payload, AttemptKey(c));
    IntentIsRecorded(log, IdempotencyKey(c));
    IndexHasOneEntryPerRecord(log, ReceiptKey, Payload);
  }

  lemma ReceiptsAndAttemptsCountTheLog(log: seq<Call>)
    requires LogValid(log)
    ensures |Stored(log).receipts| == |Stored(log).attempts| == |log|
  {
    IndexHasOneEntryPerRecord(log, ReceiptKey, Payload);
    IndexHasOneEntryPerRecord(log, AttemptKey, Payload);
  }

  /** Recording what the index agreed to record keeps receipts, attempts and intents unique. */
  lemma AppendKeepsTheLogValid(log: seq<Call>, capacity: int, c: Call)
    requires LogValid(log)
    ensures LogValid(After(log, Appends(capacity), c))
  {
  }

  class InMemoryReceiptIndex {
    const capacity: int
    var receipts: map<(Id, Id), Digest>
    var attempts: map<(Id, Id, Id), Digest>
    var idempotency: map<(Id, Id), Digest>
    /** Everything ever appended, in order. */
    ghost var log: seq<Call>

    ghost predicate Valid()
      reads this
    {
      && 1 <= capacity <= MAX_CAPACITY
      && LogValid(log)
      && |log| <= capacity
      && Contents() == Stored(log)
    }

    function Contents(): Dictionaries
      reads this
    {
      Dictionaries(receipts, attempts, idempotency)
    }

    constructor (capacity: int)
      requires 1 <= capacity <= MAX_CAPACITY
      ensures Valid() && log == [] && this.capacity == capacity
    {
      this.capacity := capacity;
      receipts, attempts, idempotency := map[], map[], map[];
      log := [];
    }

    /** Refuses a capacity outside 1..MAX_CAPACITY, as the source's constructor raises. */
    static method Open(capacity: int) returns (index: Option<InMemoryReceiptIndex>)
      ensures index.Some? <==> 1 <= capacity <= MAX_CAPACITY
      ensures index.Some? ==>
        fresh(index.value) && index.value.Valid() && index.value.log == []
        && index.value.capacity == capacity
    {
      if capacity < 1 || capacity > MAX_CAPACITY { return None; }
      var created := new InMemoryReceiptIndex(capacity);
      index := Some(created);
    }

    method AppendOnce(c: Call) returns (status: Status)
      requires Valid()
      modifies this
      ensures Valid()
      ensures status == Answer(old(log), capacity, c)
      ensures log == After(old(log), Appends(capacity), c)
      ensures status == Appended ==>
        Contents() == Dictionaries(
          old(receipts)[ReceiptKey(c) := c.payload],
          old(attempts)[AttemptKey(c) := c.payload],
          old(idempotency)[IdempotencyKey(c) := c.intent])
      ensures status != Appended ==> Contents() == old(Contents())
      ensures |receipts| == |attempts| == |log| <= capacity
    {
      LookupAnswersFromTheLog(log, capacity, c);
      ReceiptsAndAttemptsCountTheLog(log);
      var receiptKey, attemptKey, idempotencyKeyed := ReceiptKey(c), AttemptKey(c), IdempotencyKey(c);
      if receiptKey in receipts {
        if receipts[receiptKey] == c.payload && attemptKey in attempts && attempts[attemptKey] == c.payload {
          return AlreadyPresent;
        }
        return ReceiptIdConflict;
      }
      if attemptKey in attempts { return AttemptConflict; }
      if idempotencyKeyed in idempotency && idempotency[idempotencyKeyed] != c.intent {
        return IdempotencyConflict;
      }
      if |receipts| >= capacity { return Unavailable; }
      IndexOfAppend(log, ReceiptKey, Payload, c);
      IndexOfAppend(log, AttemptKey, Payload, c);
      IndexOfAppend(log, IdempotencyKey, Intent, c);
      AppendKeepsTheLogValid(log, capacity, c);
      ReceiptsAndAttemptsCountTheLog(log + [c]);
      receipts := receipts[receiptKey := c.payload];
      attempts := attempts[attemptKey := c.payload];
      idempotency := idempotency[idempotencyKeyed := c.intent];
      log := log + [c];
      return Appended;
    }
  }

  /******* Runs *******/

  ghost function AnswerAt(calls: seq<Call>, capacity: int, i: nat): Status
    requires i < |calls|
  {
    Answer(LogAfter(calls[..i], Appends(capacity)), capacity, calls[i])
  }

  /** After any run, receipts and attempts are recorded once and every key has one intent. */
  lemma {:induction false} EveryReachableReceiptIndexIsValid(calls: seq<Call>, capacity: int)
    requires 1 <= capacity
    ensures var log := LogAfter(calls, Appends(capacity));
            LogValid(log) && |log| == AcceptedCount(calls, Appends(capacity)) <= capacity
  {
    OneRecordPerAcceptedCall(calls, Appends(capacity));
    if calls != [] {
      var n := |calls| - 1;
      EveryReachableReceiptIndexIsValid(calls[..n], capacity);
      AppendKeepsTheLogValid(LogAfter(calls[..n], Appends(capacity)), capacity, calls[n]);
    }
  }

  /** Once a receipt has been recorded, repeating it is always answered ALREADY_PRESENT. */
  lemma RetriesStayPresent(calls: seq<Call>, capacity: int, i: nat, j: nat)
    requires i < j < |calls| && calls[j] == calls[i]
    requires AnswerAt(calls, capacity, i) == Appended
    ensures AnswerAt(calls, capacity, j) == AlreadyPresent
  {
    AcceptedCallsStay(calls, Appends(capacity), i, j);
  }

  /** Two appended receipts under one idempotency key always carry the same intent. */
  lemma OneIntentForever(calls: seq<Call>, capacity: int, i: nat, j: nat)
    requires i < j < |calls| && IdempotencyKey(calls[i]) == IdempotencyKey(calls[j])
    requires AnswerAt(calls, capacity, i) == Appended && AnswerAt(calls, capacity, j) == Appended
    ensures calls[i].intent == calls[j].intent
  {
    AcceptedCallsStay(calls, Appends(capacity), i, j);
  }
}
