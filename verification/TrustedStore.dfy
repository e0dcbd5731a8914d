/**
 The registry of trusted evidence: batches go in whole or not at all, nothing in it is ever
 replaced, and a lookup that succeeds names the scope the evidence was registered under.
 */
module TrustedStore {
  import opened Basics
  import opened Canonical

  /** `body` is every field that is not named here. */
  datatype Evidence = Evidence(
    tenantId: string, caseId: string, traceId: string, artifactId: string, contentHash: Option<string>,
    trusted: bool, body: Value)

  datatype Context = Context(tenantId: string, caseId: string, traceId: string)

  datatype ArtifactKey = ArtifactKey(tenantId: string, caseId: string, traceId: string, artifactId: string,
                                     hash: string)

  function HashValue(hash: Option<string>): Value { if hash.None? then Null else Str(hash.value) }

  function MetaOf(e: Evidence): seq<Field> {
    [ Field("tenant_id", Str(e.tenantId)), Field("case_id", Str(e.caseId)), Field("trace_id", Str(e.traceId)),
      Field("artifact_id", Str(e.artifactId)), Field("content_hash", HashValue(e.contentHash)) ]
  }

  function FieldsOf(e: Evidence): seq<Field> { [Field("meta", Mapping(MetaOf(e))), Field("body", e.body)] }

  /** The model object as the mapping of its fields. */
  function AsValue(e: Evidence): Value { Mapping(FieldsOf(e)) }

  /** The canonical JSON text, or None where canonicalizing raises. */
  function CanonicalJson(e: Evidence, texts: Texts): Option<string> {
    var c := Canonicalize(AsValue(e), {}, texts);
    if c.None? then None else Some(texts.json(c.value))
  }

  function KeyOf(e: Evidence): ArtifactKey
    requires e.contentHash.Some?
  {
    ArtifactKey(e.tenantId, e.caseId, e.traceId, e.artifactId, e.contentHash.value)
  }

  /** What a batch comes to: why it was refused, or that it was taken. */
  datatype Answer = Registered | NotTrusted | NotCanonical | Conflicting | Replacing | OverCapacity

  /** `trusted` stands for the producer, classification, status and hash checks of one item. */
  predicate Admissible(e: Evidence) { e.trusted && e.contentHash.Some? }

  /** The records a batch asks for, or why there are none. */
  datatype Pending = Fine(records: map<ArtifactKey, string>) | Bad(reason: Answer)

  function PendingOf(batch: seq<Evidence>, texts: Texts): (p: Pending)
    ensures p.Bad? ==> p.reason in {NotTrusted, NotCanonical, Conflicting}
  {
    if batch == [] then Fine(map[])
    else
      var before := PendingOf(batch[..|batch| - 1], texts);
      var e := batch[|batch| - 1];
      if before.Bad? then before
      else if !Admissible(e) then Bad(NotTrusted)
      else if CanonicalJson(e, texts).None? then Bad(NotCanonical)
      else
        var key, payload := KeyOf(e), CanonicalJson(e, texts).value;
        if key in before.records && before.records[key] != payload then Bad(Conflicting)
        else Fine(before.records[key := payload])
  }

  /** A record that would change. */
  predicate Replaces(records: map<ArtifactKey, string>, pending: map<ArtifactKey, string>) {
    exists k :: k in pending && k in records && records[k] != pending[k]
  }

  function Response(records: map<ArtifactKey, string>, capacity: int, batch: seq<Evidence>, texts: Texts): Answer {
    var pending := PendingOf(batch, texts);
    if pending.Bad? then pending.reason
    else if Replaces(records, pending.records) then Replacing
    else if |records| + |pending.records.Keys - records.Keys| > capacity then OverCapacity
    else Registered
  }

  /** The item is there, under its own key. */
  ghost predicate RecordedIn(e: Evidence, records: map<ArtifactKey, string>, texts: Texts) {
    Admissible(e) && KeyOf(e) in records && CanonicalJson(e, texts) == Some(records[KeyOf(e)])
  }

  ghost predicate AllRecorded(items: seq<Evidence>, records: map<ArtifactKey, string>, texts: Texts) {
    forall i :: 0 <= i < |items| ==> RecordedIn(items[i], records, texts)
  }

  /** Each record is one of the items. */
  ghost predicate Explained(records: map<ArtifactKey, string>, items: seq<Evidence>, texts: Texts) {
    forall k :: k in records ==>
      exists i :: 0 <= i < |items| && RecordedIn(items[i], records, texts) && KeyOf(items[i]) == k
  }

  class TrustedArtifactStore {
    const capacity: int
    var records: map<ArtifactKey, string>
    ghost var registered: seq<Evidence>

    /** Every record is the canonical JSON of an item that was registered, under that item's own key. */
    ghost predicate Valid(texts: Texts)
      reads this
    {
      && 1 <= capacity && |records| <= capacity
      && Explained(records, registered, texts) && AllRecorded(registered, records, texts)
    }

    constructor (capacity: int, ghost texts: Texts)
      requires 1 <= capacity
      ensures Valid(texts) && records == map[] && registered == [] && this.capacity == capacity
    {
      this.capacity := capacity;
      records, registered := map[], [];
    }

    /** Refuses a capacity below 1, as the source's constructor raises. */
    static method Open(capacity: int, ghost texts: Texts) returns (store: Option<TrustedArtifactStore>)
      ensures store.Some? <==> 1 <= capacity
      ensures store.Some? ==>
        fresh(store.value) && store.value.Valid(texts) && store.value.records == map[]
        && store.value.registered == [] && store.value.capacity == capacity
    {
      if capacity < 1 { return None; }
      var created := new TrustedArtifactStore(capacity, texts);
      store := Some(created);
    }

    method RegisterAll(evidence: seq<Evidence>, texts: Texts) returns (answer: Answer)
      requires Valid(texts)
      modifies this
      ensures Valid(texts)
      ensures answer == Response(old(records), capacity, evidence, texts)
      ensures !answer.Registered? ==> records == old(records) && registered == old(registered)
      ensures answer.Registered? ==> records == old(records) + PendingOf(evidence, texts).records
      ensures answer.Registered? ==> registered == old(registered) + evidence
      ensures Extends(old(records), records)
    {
      hide CanonicalJson, Explained, AllRecorded;
      var pending: map<ArtifactKey, string> := map[];
      for i := 0 to |evidence|
        invariant records == old(records) && registered == old(registered)
        invariant PendingOf(evidence[..i], texts) == Fine(pending)
      {
        var e := evidence[i];
        assert evidence[..i + 1][..i] == evidence[..i];
        FirstRefusalDecides(evidence, i + 1, texts);
        if !e.trusted || e.contentHash.None? { return NotTrusted; }
        var payload := CanonicalJson(e, texts);
        if payload.None? { return NotCanonical; }
        var key := KeyOf(e);
        if key in pending && pending[key] != payload.value { return Conflicting; }
        pending := pending[key := payload.value];
      }
      assert evidence[..|evidence|] == evidence;
      var rest := pending.Keys;
      while rest != {}
        invariant rest <= pending.Keys
        invariant forall k :: k in pending && k !in rest && k in records ==> records[k] == pending[k]
        decreases |rest|
      {
        var k :| k in rest;
        if k in records && records[k] != pending[k] { return Replacing; }
        rest := rest - {k};
      }
      if |records| + |pending.Keys - records.Keys| > capacity { return OverCapacity; }
      RecordsAfter(capacity, records, registered, pending, evidence, texts);
      records := records + pending;
      registered := registered + evidence;
      answer := Registered;
    }

    method Contains(context: Context, evidence: Evidence, texts: Texts) returns (found: bool)
      ensures found <==> Holds(records, context, evidence, texts)
    {
      if evidence.contentHash.None? { return false; }
      var key := ArtifactKey(context.tenantId, context.caseId, context.traceId, evidence.artifactId,
                             evidence.contentHash.value);
      var payload := CanonicalJson(evidence, texts);
      if payload.None? { return false; }
      found := key in records && records[key] == payload.value;
    }
  }

  predicate Holds(records: map<ArtifactKey, string>, context: Context, e: Evidence, texts: Texts) {
    && e.contentHash.Some? && CanonicalJson(e, texts).Some?
    && var key := ArtifactKey(context.tenantId, context.caseId, context.traceId, e.artifactId, e.contentHash.value);
       key in records && records[key] == CanonicalJson(e, texts).value
  }

  lemma {:induction false} FirstRefusalDecides(batch: seq<Evidence>, n: nat, texts: Texts)
    requires n <= |batch|
    ensures PendingOf(batch[..n], texts).Bad? ==> PendingOf(batch, texts) == PendingOf(batch[..n], texts)
    decreases |batch| - n
  {
    if n == |batch| {
      assert batch[..n] == batch;
    } else {
      FirstRefusalDecides(batch, n + 1, texts);
      assert batch[..n + 1][..n] == batch[..n];
    }
  }

  /** The items of a batch and the records it asks for are the same thing. */
  lemma {:induction false} PendingRecordsTheBatch(batch: seq<Evidence>, texts: Texts)
    requires PendingOf(batch, texts).Fine?
    ensures AllRecorded(batch, PendingOf(batch, texts).records, texts)
    ensures Explained(PendingOf(batch, texts).records, batch, texts)
  {
    hide CanonicalJson;
    if batch != [] {
      var n := |batch| - 1;
      PendingRecordsTheBatch(batch[..n], texts);
      var before, pending := PendingOf(batch[..n], texts).records, PendingOf(batch, texts).records;
      forall i | 0 <= i < |batch|
        ensures RecordedIn(batch[i], pending, texts)
      {
        if i < n { assert RecordedIn(batch[..n][i], before, texts); }
      }
      forall k | k in pending
        ensures exists i :: 0 <= i < |batch| && RecordedIn(batch[i], pending, texts) && KeyOf(batch[i]) == k
      {
        if k == KeyOf(batch[n]) {
          assert RecordedIn(batch[n], pending, texts);
        } else {
          var i :| 0 <= i < n && RecordedIn(batch[..n][i], before, texts) && KeyOf(batch[..n][i]) == k;
          assert RecordedIn(batch[i], pending, texts);
        }
      }
    }
  }

  lemma RecordsAfter(
      capacity: int, records: map<ArtifactKey, string>, registered: seq<Evidence>,
      pending: map<ArtifactKey, string>, batch: seq<Evidence>, texts: Texts)
    requires Explained(records, registered, texts) && AllRecorded(registered, records, texts)
    requires PendingOf(batch, texts) == Fine(pending) && !Replaces(records, pending)
    requires |records| + |pending.Keys - records.Keys| <= capacity
    ensures |records + pending| <= capacity && Extends(records, records + pending)
    ensures Explained(records + pending, registered + batch, texts)
    ensures AllRecorded(registered + batch, records + pending, texts)
  {
    hide CanonicalJson, PendingOf, Explained, AllRecorded, Extends;
    PendingRecordsTheBatch(batch, texts);
    var after := records + pending;
    Merged(records, pending);
    BothRecorded(registered, records, batch, pending, after, texts);
    BothExplained(registered, records, batch, pending, texts);
  }

  lemma Merged(records: map<ArtifactKey, string>, pending: map<ArtifactKey, string>)
    requires !Replaces(records, pending)
    ensures |records + pending| == |records| + |pending.Keys - records.Keys|
    ensures Extends(records, records + pending) && Extends(pending, records + pending)
  {
    assert (records + pending).Keys == records.Keys + (pending.Keys - records.Keys);
  }

  lemma StillRecorded(e: Evidence, records: map<ArtifactKey, string>, after: map<ArtifactKey, string>, texts: Texts)
    requires RecordedIn(e, records, texts) && Extends(records, after)
    ensures RecordedIn(e, after, texts)
  {
    hide CanonicalJson;
  }

  lemma BothRecorded(
      registered: seq<Evidence>, records: map<ArtifactKey, string>, batch: seq<Evidence>,
      pending: map<ArtifactKey, string>, after: map<ArtifactKey, string>, texts: Texts)
    requires AllRecorded(registered, records, texts) && AllRecorded(batch, pending, texts)
    requires Extends(records, after) && Extends(pending, after)
    ensures AllRecorded(registered + batch, after, texts)
  {
    hide RecordedIn, Extends;
    forall i | 0 <= i < |registered + batch|
      ensures RecordedIn((registered + batch)[i], after, texts)
    {
      if i < |registered| { StillRecorded(registered[i], records, after, texts); }
      else { StillRecorded(batch[i - |registered|], pending, after, texts); }
    }
  }

  lemma BothExplained(
      registered: seq<Evidence>, records: map<ArtifactKey, string>, batch: seq<Evidence>,
      pending: map<ArtifactKey, string>, texts: Texts)
    requires Explained(records, registered, texts) && Explained(pending, batch, texts)
    requires Extends(records, records + pending)
    ensures Explained(records + pending, registered + batch, texts)
  {
    hide CanonicalJson;
    var after, items := records + pending, registered + batch;
    forall k | k in after
      ensures exists i :: 0 <= i < |items| && RecordedIn(items[i], after, texts) && KeyOf(items[i]) == k
    {
      if k in pending {
        var i :| 0 <= i < |batch| && RecordedIn(batch[i], pending, texts) && KeyOf(batch[i]) == k;
        StillRecorded(batch[i], pending, after, texts);
        assert items[|registered| + i] == batch[i];
      } else {
        var i :| 0 <= i < |registered| && RecordedIn(registered[i], records, texts) && KeyOf(registered[i]) == k;
        StillRecorded(registered[i], records, after, texts);
        assert items[i] == registered[i];
      }
    }
  }

  /******* Scope *******/

  lemma MetaIsInTheForm(e: Evidence, other: Evidence, texts: Texts)
    requires Canonicalize(AsValue(e), {}, texts).Some?
    requires Canonicalize(AsValue(e), {}, texts) == Canonicalize(AsValue(other), {}, texts)
    ensures Canonicalize(Mapping(MetaOf(e)), {}, texts).Some?
    ensures Canonicalize(Mapping(MetaOf(e)), {}, texts) == Canonicalize(Mapping(MetaOf(other)), {}, texts)
  {
    hide MetaOf, Put;
    var a, b := FieldsOf(e), FieldsOf(other);
    assert a[..1] == [a[0]] && a[..1][..0] == [];
    assert CanonFields(a, {}, texts).Some? && CanonFields(a[..1], {}, texts).Some?;
    assert Canonicalize(a[0].value, {}, texts).Some?;
    MappingDeterminesItsFields(a, 0, b, 0, {}, texts);
  }

  /** One canonical form, one scope. */
  lemma FormDeterminesScope(e: Evidence, other: Evidence, texts: Texts)
    requires Canonicalize(AsValue(e), {}, texts).Some?
    requires Canonicalize(AsValue(e), {}, texts) == Canonicalize(AsValue(other), {}, texts)
    ensures e.tenantId == other.tenantId && e.caseId == other.caseId && e.traceId == other.traceId
  {
    hide CanonFields, AsValue;
    MetaIsInTheForm(e, other, texts);
    var a, b := MetaOf(e), MetaOf(other);
    MappingDeterminesItsFields(a, 0, b, 0, {}, texts);
    MappingDeterminesItsFields(a, 1, b, 1, {}, texts);
    MappingDeterminesItsFields(a, 2, b, 2, {}, texts);
  }

  /**
   A lookup that succeeds is about an item that was registered, whose canonical form is the
   evidence's: so the evidence's own tenant, case and trace are the caller's.
   */
  lemma HeldEvidenceIsInScope(
      records: map<ArtifactKey, string>, registered: seq<Evidence>, context: Context, e: Evidence, texts: Texts)
    requires Explained(records, registered, texts) && Holds(records, context, e, texts)
    requires forall c, d :: texts.json(c) == texts.json(d) ==> c == d
    ensures e.tenantId == context.tenantId && e.caseId == context.caseId && e.traceId == context.traceId
    ensures exists i :: 0 <= i < |registered| && Admissible(registered[i])
              && Canonicalize(AsValue(registered[i]), {}, texts) == Canonicalize(AsValue(e), {}, texts)
  {
    hide AsValue, Canonicalize;
    var key := ArtifactKey(context.tenantId, context.caseId, context.traceId, e.artifactId, e.contentHash.value);
    var i :| 0 <= i < |registered| && RecordedIn(registered[i], records, texts) && KeyOf(registered[i]) == key;
    FormDeterminesScope(registered[i], e, texts);
  }

  /** Whatever was registered is found by its own scope from then on. */
  lemma RegisteredEvidenceIsHeld(
      records: map<ArtifactKey, string>, later: map<ArtifactKey, string>, e: Evidence, texts: Texts)
    requires RecordedIn(e, records, texts) && Extends(records, later)
    ensures Holds(later, Context(e.tenantId, e.caseId, e.traceId), e, texts)
  {
    assert KeyOf(e) in later;
  }
}
