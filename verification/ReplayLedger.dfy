/**
 The replay ledger: a nonce is spent once per tenant and an idempotency key belongs to
 the first intent that reserves it. The two dictionaries are proved to answer from the
 log of granted reservations.
 */
module ReplayLedger {
  import opened Basics
  import opened LogIndex
  import opened AppendOnlyRuns

  const MAX_CAPACITY := 1_000_000

  datatype ReservationStatus = Reserved | Replay | IdempotencyConflict | Unavailable

  datatype Request = Request(tenant: Id, nonce: Id, idempotencyKey: Id, intent: Digest)

  function NonceKey(r: Request): (Id, Id) { (r.tenant, r.nonce) }
  function IdempotencyKey(r: Request): (Id, Id) { (r.tenant, r.idempotencyKey) }
  function Intent(r: Request): Digest { r.intent }

  /** What the ledger has to answer, given the reservations it has granted so far. */
  ghost function Answer(log: seq<Request>, capacity: int, r: Request): ReservationStatus {
    if exists i :: 0 <= i < |log| && NonceKey(log[i]) == NonceKey(r) then Replay
    else if exists i :: 0 <= i < |log| && IdempotencyKey(log[i]) == IdempotencyKey(r) then
      if exists i :: 0 <= i < |log| && IdempotencyKey(log[i]) == IdempotencyKey(r) && log[i].intent == r.intent
      then Replay else IdempotencyConflict
    else if |log| >= capacity then Unavailable
    else Reserved
  }

  ghost function Reserves(capacity: int): (seq<Request>, Request) -> bool {
    (log: seq<Request>, r: Request) => Answer(log, capacity, r) == Reserved
  }

  lemma AfterIsDecided(log: seq<Request>, capacity: int, r: Request)
    ensures After(log, Reserves(capacity), r) == if Answer(log, capacity, r) == Reserved then log + [r] else log
  {
  }

  /** No nonce and no idempotency key was granted twice. */
  ghost predicate SpentOnce(log: seq<Request>) {
    KeysDistinct(log, NonceKey) && KeysDistinct(log, IdempotencyKey)
  }

  class InMemoryReplayLedger {
    const capacity: int
    var nonces: map<(Id, Id), Digest>
    var idempotency: map<(Id, Id), Digest>
    /** Every reservation ever granted, in order. */
    ghost var log: seq<Request>

    ghost predicate Valid()
      reads this
    {
      && 1 <= capacity <= MAX_CAPACITY
      && SpentOnce(log)
      && |log| <= capacity
      && nonces == IndexOf(log, NonceKey, Intent)
      && idempotency == IndexOf(log, IdempotencyKey, Intent)
    }

    constructor (capacity: int)
      requires 1 <= capacity <= MAX_CAPACITY
      ensures Valid() && log == [] && this.capacity == capacity
    {
      this.capacity := capacity;
      nonces, idempotency := map[], map[];
      log := [];
    }

    /** Refuses a capacity outside 1..MAX_CAPACITY, as the source's constructor raises. */
    static method Open(capacity: int) returns (ledger: Option<InMemoryReplayLedger>)
      ensures ledger.Some? <==> 1 <= capacity <= MAX_CAPACITY
      ensures ledger.Some? ==>
        fresh(ledger.value) && ledger.value.Valid() && ledger.value.log == []
        && ledger.value.capacity == capacity
    {
      if capacity < 1 || capacity > MAX_CAPACITY { return None; }
      var created := new InMemoryReplayLedger(capacity);
      ledger := Some(created);
    }

    method ReserveOnce(r: Request) returns (status: ReservationStatus)
      requires Valid()
      modifies this
      ensures Valid()
      ensures status == Answer(old(log), capacity, r)
      ensures log == After(old(log), Reserves(capacity), r)
      ensures status == Reserved ==>
        && nonces == old(nonces)[NonceKey(r) := r.intent]
        && idempotency == old(idempotency)[IdempotencyKey(r) := r.intent]
      ensures status != Reserved ==> nonces == old(nonces) && idempotency == old(idempotency)
      ensures |nonces| == |idempotency| == |log| <= capacity
    {
      hide After, Reserves;
      AfterIsDecided(log, capacity, r);
      var nonceKey, idempotencyKeyed := NonceKey(r), IdempotencyKey(r);
      LookupIsRecorded(log, NonceKey, Intent, nonceKey);
      LookupIsRecorded(log, IdempotencyKey, Intent, idempotencyKeyed);
      IndexHasOneEntryPerRecord(log, NonceKey, Intent);
      IndexHasOneEntryPerRecord(log, IdempotencyKey, Intent);
      if nonceKey in nonces { return Replay; }
      if idempotencyKeyed in idempotency {
        if idempotency[idempotencyKeyed] == r.intent { return Replay; }
        return IdempotencyConflict;
      }
      if |nonces| >= capacity { return Unavailable; }
      IndexOfAppend(log, NonceKey, Intent, r);
      IndexOfAppend(log, IdempotencyKey, Intent, r);
      IndexHasOneEntryPerRecord(log + [r], NonceKey, Intent);
      IndexHasOneEntryPerRecord(log + [r], IdempotencyKey, Intent);
      nonces := nonces[nonceKey := r.intent];
      idempotency := idempotency[idempotencyKeyed := r.intent];
      log := log + [r];
      return Reserved;
    }
  }

  /******* Runs *******/

  ghost function AnswerAt(requests: seq<Request>, capacity: int, i: nat): ReservationStatus
    requires i < |requests|
  {
    Answer(LogAfter(requests[..i], Reserves(capacity)), capacity, requests[i])
  }

  /** After any interleaving of requests, the ledger holds one entry per grant, all distinct. */
  lemma {:induction false} EveryReachableLedgerSpendsOnce(requests: seq<Request>, capacity: int)
    requires 1 <= capacity
    ensures var log := LogAfter(requests, Reserves(capacity));
            SpentOnce(log) && |log| == AcceptedCount(requests, Reserves(capacity)) <= capacity
  {
    OneRecordPerAcceptedCall(requests, Reserves(capacity));
    if requests != [] { EveryReachableLedgerSpendsOnce(requests[..|requests| - 1], capacity); }
  }

  /** Of two requests that share a nonce or an idempotency key, at most one is ever granted. */
  lemma AtMostOneGrantPerKey(requests: seq<Request>, capacity: int, i: nat, j: nat)
    requires i < j < |requests|
    requires || NonceKey(requests[i]) == NonceKey(requests[j])
             || IdempotencyKey(requests[i]) == IdempotencyKey(requests[j])
    ensures !(AnswerAt(requests, capacity, i) == Reserved && AnswerAt(requests, capacity, j) == Reserved)
  {
    if AnswerAt(requests, capacity, i) == Reserved {
      AcceptedCallsStay(requests, Reserves(capacity), i, j);
    }
  }

  /** A granted nonce is reported as a replay ever after, whatever else the request says. */
  lemma GrantedNoncesAreReplays(requests: seq<Request>, capacity: int, i: nat, j: nat)
    requires i < j < |requests| && NonceKey(requests[i]) == NonceKey(requests[j])
    requires AnswerAt(requests, capacity, i) == Reserved
    ensures AnswerAt(requests, capacity, j) == Replay
  {
    AcceptedCallsStay(requests, Reserves(capacity), i, j);
  }
}
