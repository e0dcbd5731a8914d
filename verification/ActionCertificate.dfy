/**
 Verification of an action certificate: a chain of guards over the signed bytes, the
 operator's policy and the caller's binding, ended by one reservation in the replay ledger.
 */
module ActionCertificate {
  import opened Basics
  import opened Decimal
  import opened AppendOnlyRuns
  import opened LogIndex
  import opened Attestations
  import opened Selection
  import opened Signers
  import RL = ReplayLedger

  /******* Revocation of approvals *******/

  datatype Resolution = Active | Revoked | NotKnown | Raised

  datatype Resolver =
    | NoResolver
    | Resolver(resolve: (Id, Option<Id>, Digest, Time) -> Resolution)

  datatype RevocationEntry = RevocationEntry(tenant: Id, approvalId: Id, scope: Digest, status: Resolution)

  datatype RevocationSnapshot = RevocationSnapshot(asOf: Time, validUntil: Time, entries: seq<RevocationEntry>)

  function EntryKey(e: RevocationEntry): (Id, Id) { (e.tenant, e.approvalId) }
  function EntryState(e: RevocationEntry): (Digest, Resolution) { (e.scope, e.status) }

  ghost predicate SnapshotValid(s: RevocationSnapshot) {
    && s.asOf <= s.validUntil && KeysDistinct(s.entries, EntryKey)
    && forall e :: e in s.entries ==> e.status != Raised
  }

  /** The offline resolver: a dictionary built from the snapshot, read only inside its window. */
  function Resolve(s: RevocationSnapshot, tenant: Id, approvalId: Id, scope: Digest, now: Time): Resolution {
    var entries := IndexOf(s.entries, EntryKey, EntryState);
    if !(s.asOf <= now <= s.validUntil) then NotKnown
    else if (tenant, approvalId) !in entries then NotKnown
    else if entries[(tenant, approvalId)].0 != scope then NotKnown
    else entries[(tenant, approvalId)].1
  }

  /** ACTIVE is answered exactly when a fresh snapshot lists this approval, for this scope, as active. */
  lemma ActiveMeansListed(s: RevocationSnapshot, tenant: Id, approvalId: Id, scope: Digest, now: Time)
    requires SnapshotValid(s)
    ensures Resolve(s, tenant, approvalId, scope, now) == Active <==>
            s.asOf <= now <= s.validUntil && RevocationEntry(tenant, approvalId, scope, Active) in s.entries
    ensures Resolve(s, tenant, approvalId, scope, now) != Raised
  {
    LookupIsRecorded(s.entries, EntryKey, EntryState, (tenant, approvalId));
    if RevocationEntry(tenant, approvalId, scope, Active) in s.entries {
      var i :| 0 <= i < |s.entries| && s.entries[i] == RevocationEntry(tenant, approvalId, scope, Active);
      assert EntryKey(s.entries[i]) == (tenant, approvalId);
    }
  }

  /******* The guards *******/

  predicate MayCertify(
      root: TrustRoot, purpose: Purpose, claim: CertificatePredicate, policy: TrustPolicy, now: Time,
      approvers: Option<seq<Id>>)
  {
    && root.purpose == purpose
    && root.tenant == claim.tenant
    && claim.audience in root.audiences
    && ActionCertificateV01 in root.predicateTypes
    && root.principal in (if purpose == ActionIssuer then policy.issuers else policy.approvers)
    && IsCurrent(root, now, policy.skew)
    && (approvers.Some? ==> root.principal in approvers.value)
  }

  function CertifierStanding(
      purpose: Purpose, claim: CertificatePredicate, policy: TrustPolicy, now: Time,
      approvers: Option<seq<Id>>): TrustRoot -> Standing
  {
    (root: TrustRoot) => if MayCertify(root, purpose, claim, policy, now, approvers) then Eligible else Unfit
  }

  function Certifiers(
      purpose: Purpose, claim: CertificatePredicate, policy: TrustPolicy, now: Time,
      approvers: Option<seq<Id>>): TrustRoot -> bool
  {
    IsEligible(CertifierStanding(purpose, claim, policy, now, approvers))
  }

  predicate PolicyAllows(policy: TrustPolicy, expected: ExpectedBinding) {
    && expected.tenant in policy.tenants
    && expected.human.id in policy.humans
    && expected.workload.id in policy.workloads
    && expected.audience in policy.audiences
    && ActionCertificateV01 in policy.predicateTypes
    && expected.approval.required == policy.approvalRequired
  }

  predicate TimeIsValid(claim: CertificatePredicate, policy: TrustPolicy, now: Time) {
    && claim.expiresAt - claim.issuedAt <= policy.maxLifetime
    && now + policy.skew >= claim.notBefore
    && now - policy.skew < claim.expiresAt
    && now - policy.skew < claim.policy.expiresAt
  }

  /** What a verifier asks for, before the ledger has a say. */
  datatype Attempt = Attempt(
    envelope: Bytes, policy: TrustPolicy, expected: ExpectedBinding, resolver: Resolver, now: Time)

  datatype Admission =
    | Refused(result: CertificateResult)
    | Admitted(request: RL.Request, certificateId: Id, payload: Digest, issuerRoots: seq<Id>, approvalRoots: seq<Id>)

  function SortedIds(w: World, roots: seq<TrustRoot>): seq<Id> { w.sortedIds(Ids(roots)) }

  function Issuers(w: World, e: Envelope, s: CertificateStatement, policy: TrustPolicy, now: Time): seq<TrustRoot>
    requires WorldValid(w) && PolicyValid(policy)
  {
    Chosen(w, VerifiedRoots(w, e, policy.roots), Certifiers(ActionIssuer, s.claim, policy, now, None))
  }

  function Approvers(w: World, e: Envelope, s: CertificateStatement, policy: TrustPolicy, now: Time): seq<TrustRoot>
    requires WorldValid(w) && PolicyValid(policy)
  {
    Chosen(w, VerifiedRoots(w, e, policy.roots),
           Certifiers(HumanApproval, s.claim, policy, now, Some(s.claim.approval.approvers)))
  }

  predicate SelfApproved(w: World, claim: CertificatePredicate, issuers: seq<TrustRoot>, approvers: seq<TrustRoot>) {
    || claim.human.id in Principals(approvers)
    || claim.workload.id in Principals(approvers)
    || Principals(issuers) * Principals(approvers) != {}
    || Fingerprints(w, issuers) * Fingerprints(w, approvers) != {}
  }

  /** A reason that goes with the status of a refusal. */
  predicate FitsRefusal(status: VerificationStatus, reason: CertificateReason) {
    match status
    case Accept => false
    case Reject => reason != Accepted && !IsUnknownReason(reason)
    case Unknown => IsUnknownReason(reason)
  }

  /** Which of the signers found are named in the result. */
  datatype Shown = Nobody | IssuersOnly | Everybody

  datatype Objection =
    | Object(status: VerificationStatus, reason: CertificateReason, shown: Shown)
    | TooFewIssuers
    | NoObjection
  {
    predicate Fits() { Object? ==> FitsRefusal(status, reason) }
  }

  /** The guards that apply when the certificate needs an approval. */
  function ApprovalObjection(
      w: World, a: Attempt, s: CertificateStatement, issuers: seq<TrustRoot>, approvers: seq<TrustRoot>): (o: Objection)
    ensures o.Fits()
  {
    var claim := s.claim;
    var scope := w.scopeDigest(ScopeOf(s));
    if claim.approval.scope != Some(scope) then Object(Reject, ApprovalScopeMismatch, IssuersOnly)
    else if |approvers| < a.policy.approvalThreshold then Object(Reject, HumanApprovalThresholdNotMet, IssuersOnly)
    else if SelfApproved(w, claim, issuers, approvers) then Object(Reject, SelfApproval, Everybody)
    else if claim.approval.expiresAt.None? || a.now >= claim.approval.expiresAt.value then
      Object(Reject, ApprovalExpired, Everybody)
    else if a.resolver.NoResolver? then Object(Unknown, ApprovalRevocationUnknown, Everybody)
    else
      match a.resolver.resolve(claim.tenant, claim.approval.approvalId, scope, a.now)
      case Raised => Object(Unknown, ApprovalRevocationUnavailable, Everybody)
      case Revoked => Object(Reject, ApprovalRevoked, Everybody)
      case NotKnown => Object(Unknown, ApprovalRevocationUnknown, Everybody)
      case Active => NoObjection
  }

  /** The guards on a statement that parsed, in order. */
  function StatementObjection(
      w: World, a: Attempt, s: CertificateStatement, issuers: seq<TrustRoot>, approvers: seq<TrustRoot>): (o: Objection)
    ensures o.Fits()
  {
    if !PolicyAllows(a.policy, a.expected) then Object(Reject, TrustPolicyMismatch, Nobody)
    else if ExpectedBindingFor(s) != a.expected then Object(Reject, ExpectedBindingMismatch, Nobody)
    else if !TimeIsValid(s.claim, a.policy, a.now) then Object(Reject, CertificateTimeInvalid, Nobody)
    else if |issuers| < a.policy.issuerThreshold then TooFewIssuers
    else if s.claim.approval.required then ApprovalObjection(w, a, s, issuers, approvers)
    else NoObjection
  }

  function ReadCertificate(w: World, a: Attempt): (r: Reading<CertificateReason, CertificateStatement>)
    requires WorldValid(w) && PolicyValid(a.policy)
    ensures r.Unread? ==> FitsRefusal(Reject, r.reason) && r.reason != PayloadTooLarge
    ensures r.Read? ==> EnvelopeValid(r.envelope) && w.parseEnvelope(a.envelope) == Some(r.envelope)
                        && w.parseCertificate(r.envelope.payload) == Some(r.statement)
  {
    if |a.envelope| > MAX_ENVELOPE_BYTES then Unread(EnvelopeTooLarge, None)
    else if w.parseEnvelope(a.envelope).None? then Unread(EnvelopeInvalid, None)
    else
      var e := w.parseEnvelope(a.envelope).value;
      if |e.payload| > MAX_PAYLOAD_BYTES then Unread(PayloadTooLarge, None)
      else if VerifiedRoots(w, e, a.policy.roots) == [] then Unread(SignatureInvalid, Some(w.sha256(e.payload)))
      else if w.parseCertificate(e.payload).None? then Unread(PayloadInvalid, Some(w.sha256(e.payload)))
      else Read(e, w.parseCertificate(e.payload).value)
  }

  function Admit(w: World, a: Attempt): (admission: Admission)
    requires WorldValid(w) && PolicyValid(a.policy)
    ensures admission.Refused? ==> admission.result.status != Accept && !admission.result.reserved
  {
    match ReadCertificate(w, a)
    case Unread(reason, payload) => Refused(CertificateResult(Reject, [reason], None, payload, [], [], false))
    case Read(e, s) =>
      var approvers := if s.claim.approval.required then Approvers(w, e, s, a.policy, a.now) else [];
      Conclude(w, a, e, s, Issuers(w, e, s, a.policy, a.now), approvers)
  }

  /** The statement is refused for the objection raised, or ready to be reserved. */
  function Conclude(
      w: World, a: Attempt, e: Envelope, s: CertificateStatement, issuers: seq<TrustRoot>,
      approvers: seq<TrustRoot>): (admission: Admission)
    ensures admission.Refused? ==> admission.result.status != Accept && !admission.result.reserved
  {
    var id, payload := s.claim.certificateId, w.sha256(e.payload);
    match StatementObjection(w, a, s, issuers, approvers)
    case TooFewIssuers =>
      Refused(CertificateResult(
        Reject, [RootTimeOrRevocationInvalid, ActionIssuerThresholdNotMet], Some(id), Some(payload), [], [], false))
    case Object(status, reason, shown) =>
      Refused(CertificateResult(
        status, [reason], Some(id), Some(payload),
        if shown.Nobody? then [] else SortedIds(w, issuers),
        if shown.Everybody? then SortedIds(w, approvers) else [], false))
    case NoObjection =>
      Admitted(
        RL.Request(s.claim.tenant, s.claim.nonce, s.claim.effect.idempotencyKey, w.scopeDigest(ScopeOf(s))),
        id, payload, SortedIds(w, issuers), SortedIds(w, approvers))
  }

  function Settle(a: Admission, status: RL.ReservationStatus): CertificateResult
    requires a.Admitted?
  {
    var result := (s: VerificationStatus, r: CertificateReason, reserved: bool) =>
      CertificateResult(s, [r], Some(a.certificateId), Some(a.payload), a.issuerRoots, a.approvalRoots, reserved);
    match status
    case Replay => result(Reject, ReplayDetected, false)
    case IdempotencyConflict => result(Reject, CertificateReason.IdempotencyConflict, false)
    case Unavailable => result(Unknown, ReplayLedgerUnavailable, false)
    case Reserved => result(Accept, Accepted, true)
  }

  /** The verdict on an attempt, given the reservations already granted. */
  ghost function Verdict(w: World, a: Attempt, log: seq<RL.Request>, capacity: int): CertificateResult
    requires WorldValid(w) && PolicyValid(a.policy)
  {
    var admission := Admit(w, a);
    if admission.Refused? then admission.result else Settle(admission, RL.Answer(log, capacity, admission.request))
  }

  method VerifyActionCertificate(
      w: World, a: Attempt, ledger: RL.InMemoryReplayLedger) returns (result: CertificateResult)
    requires WorldValid(w) && PolicyValid(a.policy) && ledger.Valid()
    modifies ledger
    ensures ledger.Valid()
    ensures result == Verdict(w, a, old(ledger.log), ledger.capacity)
    ensures result.status == Accept ==> Admit(w, a).Admitted? && ledger.log == old(ledger.log) + [Admit(w, a).request]
    ensures result.status != Accept ==>
      ledger.log == old(ledger.log) && ledger.nonces == old(ledger.nonces)
      && ledger.idempotency == old(ledger.idempotency)
  {
    var admission := Admit(w, a);
    if admission.Refused? { return admission.result; }
    var status := ledger.ReserveOnce(admission.request);
    result := Settle(admission, status);
  }

  /******* What acceptance means *******/

  ghost predicate SignersHold(
      w: World, a: Attempt, e: Envelope, eligible: TrustRoot -> bool, signers: seq<TrustRoot>, threshold: int)
  {
    && (forall r :: r in signers ==> r in a.policy.roots && SignedBy(w, e, r) && eligible(r))
    && |Principals(signers)| == |Fingerprints(w, signers)| == |signers| >= threshold
  }

  /**
   The signed bytes say what the caller expects, the policy admits it, the time is right,
   and enough different principals with different keys signed in each role they hold.
   */
  ghost predicate Authorized(
      w: World, a: Attempt, e: Envelope, s: CertificateStatement, issuers: seq<TrustRoot>,
      approvers: seq<TrustRoot>)
  {
    var approval := s.claim.approval;
    && w.parseEnvelope(a.envelope) == Some(e) && w.parseCertificate(e.payload) == Some(s)
    && PolicyAllows(a.policy, a.expected) && ExpectedBindingFor(s) == a.expected
    && TimeIsValid(s.claim, a.policy, a.now)
    && SignersHold(w, a, e, Certifiers(ActionIssuer, s.claim, a.policy, a.now, None), issuers, a.policy.issuerThreshold)
    && if !approval.required then approvers == []
       else
         && approval.scope == Some(w.scopeDigest(ScopeOf(s)))
         && SignersHold(w, a, e, Certifiers(HumanApproval, s.claim, a.policy, a.now, Some(approval.approvers)),
                        approvers, a.policy.approvalThreshold)
         && !SelfApproved(w, s.claim, issuers, approvers)
         && approval.expiresAt.Some? && a.now < approval.expiresAt.value
         && a.resolver.Resolver?
         && a.resolver.resolve(s.claim.tenant, approval.approvalId, approval.scope.value, a.now) == Active
  }

  /** The signers found for a statement that parsed. */
  ghost function Found(w: World, a: Attempt): (Envelope, CertificateStatement, seq<TrustRoot>, seq<TrustRoot>)
    requires WorldValid(w) && PolicyValid(a.policy)
    requires w.parseEnvelope(a.envelope).Some? && w.parseCertificate(w.parseEnvelope(a.envelope).value.payload).Some?
  {
    var e := w.parseEnvelope(a.envelope).value;
    var s := w.parseCertificate(e.payload).value;
    (e, s, Issuers(w, e, s, a.policy, a.now),
     if s.claim.approval.required then Approvers(w, e, s, a.policy, a.now) else [])
  }

  lemma ChosenHold(w: World, a: Attempt, e: Envelope, eligible: TrustRoot -> bool, threshold: int)
    requires WorldValid(w) && PolicyValid(a.policy)
    requires |Chosen(w, VerifiedRoots(w, e, a.policy.roots), eligible)| >= threshold
    ensures SignersHold(w, a, e, eligible, Chosen(w, VerifiedRoots(w, e, a.policy.roots), eligible), threshold)
  {
    SelectionIsIndependent(RootLabels(w), VerifiedRoots(w, e, a.policy.roots), eligible);
    ChosenCount(w, VerifiedRoots(w, e, a.policy.roots), eligible);
  }

  /** Whatever is admitted is authorized, and asks for exactly the reservation its statement names. */
  lemma AdmittedIsAuthorized(w: World, a: Attempt)
    requires WorldValid(w) && PolicyValid(a.policy) && Admit(w, a).Admitted?
    ensures w.parseEnvelope(a.envelope).Some?
            && w.parseCertificate(w.parseEnvelope(a.envelope).value.payload).Some?
    ensures var (e, s, issuers, approvers) := Found(w, a);
            && Authorized(w, a, e, s, issuers, approvers)
            && Admit(w, a) == Admitted(
                 RL.Request(s.claim.tenant, s.claim.nonce, s.claim.effect.idempotencyKey, w.scopeDigest(ScopeOf(s))),
                 s.claim.certificateId, w.sha256(e.payload), SortedIds(w, issuers), SortedIds(w, approvers))
  {
    hide RootValid, AllowlistsValid, CertificateValid, Chosen, VerifiedRoots, SelfApproved, SortedIds;
    var (e, s, issuers, approvers) := Found(w, a);
    ChosenHold(w, a, e, Certifiers(ActionIssuer, s.claim, a.policy, a.now, None), a.policy.issuerThreshold);
    if s.claim.approval.required {
      ChosenHold(w, a, e, Certifiers(HumanApproval, s.claim, a.policy, a.now, Some(s.claim.approval.approvers)),
                 a.policy.approvalThreshold);
    }
  }

  /**
   A statement that passes the other guards misses the issuer threshold only if no
   independent set of 2k - 1 eligible issuers signed it, k being the threshold.
   */
  lemma EnoughIssuersAreFound(w: World, a: Attempt, e: Envelope, s: CertificateStatement, available: seq<TrustRoot>)
    requires WorldValid(w) && PolicyValid(a.policy)
    requires Independent(RootLabels(w), available) && |available| >= 2 * a.policy.issuerThreshold - 1
    requires forall r :: r in available ==> r in a.policy.roots && SignedBy(w, e, r)
                                            && MayCertify(r, ActionIssuer, s.claim, a.policy, a.now, None)
    ensures |Issuers(w, e, s, a.policy, a.now)| >= a.policy.issuerThreshold
  {
    SelectionReachesHalf(RootLabels(w), VerifiedRoots(w, e, a.policy.roots),
                         Certifiers(ActionIssuer, s.claim, a.policy, a.now, None), available);
  }

  lemma SortedIdsAreNoMore(w: World, roots: seq<TrustRoot>)
    requires WorldValid(w)
    ensures |SortedIds(w, roots)| <= |roots|
    ensures roots == [] ==> SortedIds(w, roots) == []
    ensures roots != [] ==> SortedIds(w, roots) != []
    ensures Lists(SortedIds(w, roots), Ids(roots))
  {
    assert Lists(w.sortedIds(Ids(roots)), Ids(roots));
    ListedOnce(SortedIds(w, roots), Ids(roots));
    ImageIsNoLarger(roots, RootId);
    assert Ids(roots) == Image(roots, RootId) by {
      forall k ensures k in Ids(roots) ==> k in Image(roots, RootId) {
        if k in Ids(roots) {
          var r :| r in roots && r.id == k;
          var i :| 0 <= i < |roots| && roots[i] == r;
          assert RootId(roots[i]) == k;
        }
      }
    }
    if roots != [] {
      assert roots[0].id in Ids(roots);
      assert roots[0].id in SortedIds(w, roots);
    }
  }

  /** Chosen signers are named by as many ids as there are signers. */
  lemma ChosenIdsCount(w: World, roots: seq<TrustRoot>, eligible: TrustRoot -> bool)
    requires WorldValid(w) && KeysDistinct(roots, RootId)
    ensures |SortedIds(w, Chosen(w, roots, eligible))| == |Chosen(w, roots, eligible)|
  {
    var chosen := Chosen(w, roots, eligible);
    SelectionIsIndependent(RootLabels(w), roots, eligible);
    forall i, j | 0 <= i < j < |chosen|
      ensures RootId(chosen[i]) != RootId(chosen[j])
    {
      RootsByIdFinds(roots, chosen[i].id);
      assert !Clash(RootLabels(w), chosen[i], chosen[j]);
    }
    IndexHasOneEntryPerRecord(chosen, RootId, Self);
    forall id
      ensures id in RootsById(chosen) <==> id in Ids(chosen)
    {
      RootsByIdFinds(chosen, id);
    }
    assert RootsById(chosen).Keys == Ids(chosen);
    SortedIdsAreNoMore(w, chosen);
    ListedOnce(SortedIds(w, chosen), Ids(chosen));
  }

  /** The guards up to the one that counts the issuers pass. */
  predicate ReachesTheIssuers(a: Attempt, s: CertificateStatement) {
    PolicyAllows(a.policy, a.expected) && ExpectedBindingFor(s) == a.expected && TimeIsValid(s.claim, a.policy, a.now)
  }

  /** More issuers count than a result can name. */
  ghost predicate TooManyIssuers(w: World, a: Attempt)
    requires WorldValid(w) && PolicyValid(a.policy)
  {
    var reading := ReadCertificate(w, a);
    && reading.Read? && ReachesTheIssuers(a, reading.statement)
    && |Issuers(w, reading.envelope, reading.statement, a.policy, a.now)| > MAX_RESULT_ROOTS
  }

  lemma ConclusionIsClosedIff(
      w: World, a: Attempt, e: Envelope, s: CertificateStatement, issuers: seq<TrustRoot>,
      approvers: seq<TrustRoot>)
    requires a.policy.issuerThreshold <= MAX_RESULT_ROOTS
    requires |SortedIds(w, issuers)| == |issuers| && |SortedIds(w, approvers)| <= MAX_RESULT_ROOTS
    ensures var c := Conclude(w, a, e, s, issuers, approvers);
            var fits := !(ReachesTheIssuers(a, s) && |issuers| > MAX_RESULT_ROOTS);
            if c.Refused? then CertificateResultClosed(c.result) <==> fits
            else (|c.issuerRoots| <= MAX_RESULT_ROOTS <==> fits) && |c.approvalRoots| <= MAX_RESULT_ROOTS
  {
    hide PolicyAllows, TimeIsValid, SortedIds, SelfApproved;
    var c := Conclude(w, a, e, s, issuers, approvers);
    if c.Refused? { assert c.result.reasons[0] in c.result.reasons; }
  }

  lemma SettledIsClosedIff(admission: Admission, status: RL.ReservationStatus)
    requires admission.Admitted? && |admission.approvalRoots| <= MAX_RESULT_ROOTS
    ensures CertificateResultClosed(Settle(admission, status)) <==> |admission.issuerRoots| <= MAX_RESULT_ROOTS
  {
  }

  lemma ApproversFit(w: World, a: Attempt, e: Envelope, s: CertificateStatement)
    requires WorldValid(w) && PolicyValid(a.policy) && CertificateValid(s)
    ensures |SortedIds(w, Approvers(w, e, s, a.policy, a.now))| <= MAX_RESULT_ROOTS && |SortedIds(w, [])| == 0
  {
    var eligible := Certifiers(HumanApproval, s.claim, a.policy, a.now, Some(s.claim.approval.approvers));
    DeclaredSignersAreFew(w, VerifiedRoots(w, e, a.policy.roots), eligible, s.claim.approval.approvers);
    SortedIdsAreNoMore(w, Approvers(w, e, s, a.policy, a.now));
    SortedIdsAreNoMore(w, []);
  }

  /**
   A verdict is one the result model's validator accepts unless more issuers count than a result
   can name. Approvers are never too many: the certificate lists at most 16.
   */
  lemma VerdictIsClosedIff(w: World, a: Attempt, log: seq<RL.Request>, capacity: int)
    requires WorldValid(w) && PolicyValid(a.policy)
    ensures CertificateResultClosed(Verdict(w, a, log, capacity)) <==> !TooManyIssuers(w, a)
  {
    hide Settle, Conclude, ReachesTheIssuers, Certifiers, CertificateValid, Chosen, VerifiedRoots, SortedIds;
    match ReadCertificate(w, a)
    case Unread(reason, payload) =>
    case Read(e, s) =>
      var (_, _, issuers, approvers) := Found(w, a);
      ChosenIdsCount(w, VerifiedRoots(w, e, a.policy.roots), Certifiers(ActionIssuer, s.claim, a.policy, a.now, None));
      ApproversFit(w, a, e, s);
      ConclusionIsClosedIff(w, a, e, s, issuers, approvers);
      var admission := Admit(w, a);
      if admission.Admitted? { SettledIsClosedIff(admission, RL.Answer(log, capacity, admission.request)); }
  }

  /**
   Every verdict is one the result model's validator accepts, whatever the ledger holds, when
   no signature of the envelope checks under two configured keys.
   */
  lemma EveryVerdictIsClosed(w: World, a: Attempt, log: seq<RL.Request>, capacity: int)
    requires WorldValid(w) && PolicyValid(a.policy) && KeysTellSignaturesApart(w, a.envelope, a.policy)
    ensures CertificateResultClosed(Verdict(w, a, log, capacity))
  {
    hide Verdict, Certifiers, CertificateValid;
    VerdictIsClosedIff(w, a, log, capacity);
    var reading := ReadCertificate(w, a);
    if reading.Read? {
      ChosenFitTheSignatures(w, reading.envelope, VerifiedRoots(w, reading.envelope, a.policy.roots),
                             Certifiers(ActionIssuer, reading.statement.claim, a.policy, a.now, None));
    }
  }

  /** The envelope model already bounds its payload, so the later size check never fires. */
  lemma PayloadTooLargeIsNeverReported(w: World, a: Attempt, log: seq<RL.Request>, capacity: int)
    requires WorldValid(w) && PolicyValid(a.policy)
    ensures PayloadTooLarge !in Verdict(w, a, log, capacity).reasons
  {
    hide VerifiedRoots, Chosen, Certifiers, SortedIds;
  }

  /******* Runs: any interleaving of verifiers over one ledger *******/

  /** The reservation an attempt asks for, if it gets that far. */
  ghost function Asks(w: World): Attempt -> Option<RL.Request>
    requires WorldValid(w)
  {
    (a: Attempt) =>
      if PolicyValid(a.policy) && Admit(w, a).Admitted? then Some(Admit(w, a).request) else None
  }

  /** The reservations granted over a run of attempts, starting from an empty ledger. */
  ghost function LedgerAfter(w: World, attempts: seq<Attempt>, capacity: int): seq<RL.Request>
    requires WorldValid(w)
  {
    LogAfter(Asked(attempts, Asks(w)), RL.Reserves(capacity))
  }

  ghost predicate AcceptedOn(w: World, a: Attempt, log: seq<RL.Request>, capacity: int)
    requires WorldValid(w)
  {
    PolicyValid(a.policy) && Verdict(w, a, log, capacity).status == Accept
  }

  /** Whether the i-th attempt of the run is accepted. */
  ghost predicate AcceptedIn(w: World, attempts: seq<Attempt>, capacity: int, i: nat)
    requires WorldValid(w) && i < |attempts|
  {
    AcceptedOn(w, attempts[i], LedgerAfter(w, attempts[..i], capacity), capacity)
  }

  ghost function Acceptances(w: World, attempts: seq<Attempt>, capacity: int): nat
    requires WorldValid(w)
  {
    if attempts == [] then 0
    else
      Acceptances(w, attempts[..|attempts| - 1], capacity)
      + if AcceptedIn(w, attempts, capacity, |attempts| - 1) then 1 else 0
  }

  lemma AcceptedMeansReserved(w: World, a: Attempt, log: seq<RL.Request>, capacity: int)
    requires WorldValid(w)
    ensures AcceptedOn(w, a, log, capacity) <==>
            Asks(w)(a).Some? && RL.Answer(log, capacity, Asks(w)(a).value) == RL.Reserved
  {
  }

  /**
   However verifiers interleave, the ledger holds one reservation per ACCEPT, every nonce
   and every idempotency key in it was spent once, and it never exceeds its capacity.
   */
  lemma {:induction false} AcceptancesAreReservations(w: World, attempts: seq<Attempt>, capacity: int)
    requires WorldValid(w) && 1 <= capacity
    ensures var log := LedgerAfter(w, attempts, capacity);
            RL.SpentOnce(log) && |log| == Acceptances(w, attempts, capacity) <= capacity
  {
    RL.EveryReachableLedgerSpendsOnce(Asked(attempts, Asks(w)), capacity);
    if attempts != [] {
      var n := |attempts| - 1;
      AcceptancesAreReservations(w, attempts[..n], capacity);
      AcceptedMeansReserved(w, attempts[n], LedgerAfter(w, attempts[..n], capacity), capacity);
      var all, before := Asked(attempts, Asks(w)), Asked(attempts[..n], Asks(w));
      var asked, log := Asks(w)(attempts[n]), LedgerAfter(w, attempts[..n], capacity);
      if asked.Some? {
        assert all == before + [asked.value] && all[..|all| - 1] == before;
        assert RL.Reserves(capacity)(log, asked.value) <==> RL.Answer(log, capacity, asked.value) == RL.Reserved;
      } else {
        assert all == before;
      }
    }
  }

  /** Two accepted attempts never share a nonce or an idempotency key of one tenant. */
  lemma AtMostOneAcceptPerKey(w: World, attempts: seq<Attempt>, capacity: int, i: nat, j: nat)
    requires WorldValid(w) && i < j < |attempts|
    requires AcceptedIn(w, attempts, capacity, i) && AcceptedIn(w, attempts, capacity, j)
    ensures Asks(w)(attempts[i]).Some? && Asks(w)(attempts[j]).Some?
    ensures RL.NonceKey(Asks(w)(attempts[i]).value) != RL.NonceKey(Asks(w)(attempts[j]).value)
    ensures RL.IdempotencyKey(Asks(w)(attempts[i]).value) != RL.IdempotencyKey(Asks(w)(attempts[j]).value)
  {
    hide Admit, Verdict, AcceptedOn, Asks;
    AcceptedMeansReserved(w, attempts[i], LedgerAfter(w, attempts[..i], capacity), capacity);
    AcceptedMeansReserved(w, attempts[j], LedgerAfter(w, attempts[..j], capacity), capacity);
    var all := Asked(attempts, Asks(w));
    var p, q := |Asked(attempts[..i], Asks(w))|, |Asked(attempts[..j], Asks(w))|;
    AskedInOrder(attempts, Asks(w), i);
    AskedInOrder(attempts, Asks(w), j);
    AskedInOrder(attempts[..j], Asks(w), i);
    assert attempts[..j][..i] == attempts[..i];
    assert p < q;
    if || RL.NonceKey(all[p]) == RL.NonceKey(all[q])
       || RL.IdempotencyKey(all[p]) == RL.IdempotencyKey(all[q])
    {
      RL.AtMostOneGrantPerKey(all, capacity, p, q);
    }
  }
}
