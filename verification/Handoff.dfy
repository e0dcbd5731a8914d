/**
 The three verifiers establish the same trust facts three times over. What one accepts,
 the next accepts again from the bytes alone, up to conditions that are spelled out here.
 */
module Handoff {
  import opened Basics
  import opened Decimal
  import opened LogIndex
  import opened Attestations
  import opened Selection
  import opened Signers
  import opened ActionCertificate
  import opened ExecutionReceipt
  import OC = OutcomeClosure
  import RL = ReplayLedger
  import RX = ReceiptIndex

  /** Listing the ids of roots and looking them up in a pool gives the same roots. */
  lemma NamedRootsAreTheSame(w: World, pool: seq<TrustRoot>, roots: seq<TrustRoot>)
    requires WorldValid(w) && KeysDistinct(pool, RootId)
    requires forall r :: r in roots ==> r in pool
    ensures var ids := SortedIds(w, roots);
            && (forall i :: 0 <= i < |ids| ==> ids[i] in RootsById(pool))
            && (forall r :: r in RootsNamed(pool, ids) <==> r in roots)
  {
    var ids := SortedIds(w, roots);
    SortedIdsAreNoMore(w, roots);
    forall i | 0 <= i < |ids| ensures ids[i] in RootsById(pool) && RootsById(pool)[ids[i]] in roots {
      assert ids[i] in ids;
      var r :| r in roots && r.id == ids[i];
      RootsByIdFinds(pool, ids[i]);
    }
    forall r | r in roots ensures r in RootsNamed(pool, ids) {
      assert r.id in ids;
      var i :| 0 <= i < |ids| && ids[i] == r.id;
      RootsByIdFinds(pool, ids[i]);
      assert RootsNamed(pool, ids)[i] == r;
    }
  }

  /** Looked up again, chosen roots are as many, and show the same principals and keys. */
  lemma NamedRootsAreTheChosen(w: World, pool: seq<TrustRoot>, roots: seq<TrustRoot>, eligible: TrustRoot -> bool)
    requires WorldValid(w) && KeysDistinct(pool, RootId)
    requires forall r :: r in roots ==> r in pool
    ensures var chosen := Chosen(w, roots, eligible);
            var ids := SortedIds(w, chosen);
            && (forall i :: 0 <= i < |ids| ==> ids[i] in RootsById(pool))
            && (forall r :: r in RootsNamed(pool, ids) <==> r in chosen)
            && Distinct(ids) && |ids| == |chosen|
            && Principals(RootsNamed(pool, ids)) == Principals(chosen)
            && Fingerprints(w, RootsNamed(pool, ids)) == Fingerprints(w, chosen)
  {
    var chosen := Chosen(w, roots, eligible);
    SelectionIsIndependent(RootLabels(w), roots, eligible);
    NamedRootsAreTheSame(w, pool, chosen);
    SortedIdsAreNoMore(w, chosen);
    var named := RootsNamed(pool, SortedIds(w, chosen));
    SameMembersSameLabels(w, named, chosen);
    ChosenCount(w, roots, eligible);
    LabelsOfRoots(w, named);
    ImageIsNoLarger(named, RootLabels(w).first);
  }

  lemma SameMembersSameLabels(w: World, a: seq<TrustRoot>, b: seq<TrustRoot>)
    requires forall r :: r in a <==> r in b
    ensures Principals(a) == Principals(b) && Fingerprints(w, a) == Fingerprints(w, b) && Ids(a) == Ids(b)
  {
  }

  /******* Certificates *******/

  /** The result of an accepted attempt. */
  ghost function AcceptedCertificate(w: World, a: Attempt): CertificateResult
    requires WorldValid(w) && PolicyValid(a.policy) && Admit(w, a).Admitted?
  {
    Settle(Admit(w, a), RL.Reserved)
  }

  /** The reference describes this certificate, its result and the time it was verified at. */
  ghost predicate RefersToCertificate(w: World, a: Attempt, ref: CertificateReference)
    requires WorldValid(w) && PolicyValid(a.policy) && Admit(w, a).Admitted?
  {
    var e := w.parseEnvelope(a.envelope);
    && ref.verificationAt == a.now
    && ref.envelope == w.sha256(a.envelope)
    && e.Some? && ref.payload == w.sha256(e.value.payload)
    && ref.certificateId == Admit(w, a).certificateId
    && ref.verificationResult == w.certificateResultDigest(AcceptedCertificate(w, a))
    && ref.intent == Admit(w, a).request.intent
  }

  lemma AdmittedWasRead(w: World, a: Attempt)
    requires WorldValid(w) && PolicyValid(a.policy) && Admit(w, a).Admitted?
    ensures w.parseEnvelope(a.envelope).Some? && w.parseCertificate(w.parseEnvelope(a.envelope).value.payload).Some?
    ensures |a.envelope| <= MAX_ENVELOPE_BYTES && EnvelopeValid(w.parseEnvelope(a.envelope).value)
  {
  }

  lemma SignersHaveTheirPurpose(w: World, a: Attempt)
    requires WorldValid(w) && PolicyValid(a.policy) && Admit(w, a).Admitted?
    ensures w.parseEnvelope(a.envelope).Some? && w.parseCertificate(w.parseEnvelope(a.envelope).value.payload).Some?
    ensures var (e, s, issuers, approvers) := Found(w, a);
            && (forall r :: r in issuers ==> r in a.policy.roots && r.purpose == ActionIssuer)
            && (forall r :: r in approvers ==> r in a.policy.roots && r.purpose == HumanApproval)
            && AcceptedCertificate(w, a).issuerRoots == SortedIds(w, issuers)
            && AcceptedCertificate(w, a).approvalRoots == SortedIds(w, approvers)
  {
    hide Admit, RootValid, AllowlistsValid, CertificateValid, SelfApproved, Chosen, VerifiedRoots;
    AdmittedIsAuthorized(w, a);
  }

  /** Roots of different purposes have different ids. */
  lemma PurposesTellIdsApart(w: World, pool: seq<TrustRoot>, issuers: seq<TrustRoot>, approvers: seq<TrustRoot>)
    requires WorldValid(w) && KeysDistinct(pool, RootId)
    requires forall r :: r in issuers ==> r in pool && r.purpose == ActionIssuer
    requires forall r :: r in approvers ==> r in pool && r.purpose == HumanApproval
    ensures Distinct(SortedIds(w, issuers) + SortedIds(w, approvers))
  {
    SortedIdsAreNoMore(w, issuers);
    SortedIdsAreNoMore(w, approvers);
    var first, second := SortedIds(w, issuers), SortedIds(w, approvers);
    forall i, j | i in issuers && j in approvers
      ensures i.id != j.id
    {
      RootsByIdFinds(pool, i.id);
    }
    assert forall k :: 0 <= k < |first| ==> first[k] in first;
    assert forall k :: 0 <= k < |second| ==> second[k] in second;
  }

  lemma IssuersAndApproversDiffer(w: World, a: Attempt)
    requires WorldValid(w) && PolicyValid(a.policy) && Admit(w, a).Admitted?
    ensures var r := AcceptedCertificate(w, a); Distinct(r.issuerRoots + r.approvalRoots)
  {
    hide Admit, AcceptedCertificate, SortedIds, RootValid, AllowlistsValid;
    SignersHaveTheirPurpose(w, a);
    var (e, s, issuers, approvers) := Found(w, a);
    PurposesTellIdsApart(w, a.policy.roots, issuers, approvers);
  }

  /** The certificate's context is usable to a receipt that refers to it. */
  lemma AcceptedCertificateIsUsable(w: World, a: Attempt, ref: CertificateReference)
    requires WorldValid(w) && PolicyValid(a.policy) && Admit(w, a).Admitted?
    requires RefersToCertificate(w, a, ref)
    ensures CertificateContext(w, a.envelope, AcceptedCertificate(w, a), ref)
         == Usable(w.parseCertificate(w.parseEnvelope(a.envelope).value.payload).value)
  {
    hide Admit, VerifiedRoots, Chosen, SortedIds, PolicyAllows, TimeIsValid, SelfApproved, SignersHold;
    AdmittedWasRead(w, a);
    AdmittedIsAuthorized(w, a);
  }

  /** Signers that were enough for a role are enough again when looked up by their ids. */
  lemma NamedSignersHoldTheRole(
      w: World, pool: seq<TrustRoot>, roots: seq<TrustRoot>, purpose: Purpose, claim: CertificatePredicate,
      policy: TrustPolicy, at: Time, approvers: Option<seq<Id>>, threshold: int)
    requires WorldValid(w) && KeysDistinct(pool, RootId)
    requires forall r :: r in roots ==> r in pool
    requires |Chosen(w, roots, Certifiers(purpose, claim, policy, at, approvers))| >= threshold
    ensures var chosen := Chosen(w, roots, Certifiers(purpose, claim, policy, at, approvers));
            var ids := SortedIds(w, chosen);
            && (forall i :: 0 <= i < |ids| ==> ids[i] in RootsById(pool))
            && RoleHolds(w, RootsNamed(pool, ids), purpose, claim, policy, at, approvers, threshold)
            && |RootsNamed(pool, ids)| >= threshold
  {
    var eligible := Certifiers(purpose, claim, policy, at, approvers);
    NamedRootsAreTheChosen(w, pool, roots, eligible);
    SelectionIsIndependent(RootLabels(w), roots, eligible);
    ChosenCount(w, roots, eligible);
  }

  lemma SelfApprovalDependsOnLabels(
      w: World, claim: CertificatePredicate, issuers: seq<TrustRoot>, approvers: seq<TrustRoot>,
      issuers': seq<TrustRoot>, approvers': seq<TrustRoot>)
    requires Principals(issuers) == Principals(issuers') && Fingerprints(w, issuers) == Fingerprints(w, issuers')
    requires Principals(approvers) == Principals(approvers')
    requires Fingerprints(w, approvers) == Fingerprints(w, approvers')
    ensures SelfApproved(w, claim, issuers, approvers) == SelfApproved(w, claim, issuers', approvers')
  {
  }

  /** What looking up the two lists of ids of an accepted certificate gives. */
  ghost predicate LookedUp(
      w: World, a: Attempt, pool: seq<TrustRoot>, issuers': seq<TrustRoot>, approvers': seq<TrustRoot>)
    requires WorldValid(w) && PolicyValid(a.policy) && Admit(w, a).Admitted?
    requires w.parseEnvelope(a.envelope).Some? && w.parseCertificate(w.parseEnvelope(a.envelope).value.payload).Some?
  {
    var (e, s, issuers, approvers) := Found(w, a);
    var r, approval := AcceptedCertificate(w, a), s.claim.approval;
    && (forall i :: 0 <= i < |r.issuerRoots| ==> r.issuerRoots[i] in RootsById(pool))
    && (forall i :: 0 <= i < |r.approvalRoots| ==> r.approvalRoots[i] in RootsById(pool))
    && issuers' == RootsNamed(pool, r.issuerRoots) && approvers' == RootsNamed(pool, r.approvalRoots)
    && r.issuerRoots != [] && (approval.required <==> r.approvalRoots != [])
    && (forall x :: x in issuers' <==> x in issuers) && (forall x :: x in approvers' <==> x in approvers)
    && RoleHolds(w, issuers', ActionIssuer, s.claim, a.policy, a.now, None, a.policy.issuerThreshold)
    && (approval.required ==>
          && |approvers'| >= a.policy.approvalThreshold
          && RoleHolds(w, approvers', HumanApproval, s.claim, a.policy, a.now, Some(approval.approvers),
                       a.policy.approvalThreshold))
    && (!approval.required ==> approvers' == [])
    && !SelfApproved(w, s.claim, issuers', approvers')
  }

  ghost predicate Supplies(w: World, a: Attempt, pool: seq<TrustRoot>)
    requires WorldValid(w) && PolicyValid(a.policy) && w.parseEnvelope(a.envelope).Some?
  {
    && KeysDistinct(pool, RootId)
    && forall r :: r in Verified(w, w.parseEnvelope(a.envelope).value, a.policy.roots) ==> r in pool
  }

  lemma LookupFindsTheIssuers(w: World, a: Attempt, pool: seq<TrustRoot>)
    requires WorldValid(w) && PolicyValid(a.policy) && Admit(w, a).Admitted?
    requires w.parseEnvelope(a.envelope).Some? && w.parseCertificate(w.parseEnvelope(a.envelope).value.payload).Some?
    requires Supplies(w, a, pool)
    ensures var (e, s, issuers, approvers) := Found(w, a);
            var ids := AcceptedCertificate(w, a).issuerRoots;
            && (forall i :: 0 <= i < |ids| ==> ids[i] in RootsById(pool))
            && ids == SortedIds(w, issuers) && ids != []
            && (forall x :: x in RootsNamed(pool, ids) <==> x in issuers)
            && RoleHolds(w, RootsNamed(pool, ids), ActionIssuer, s.claim, a.policy, a.now, None,
                         a.policy.issuerThreshold)
  {
    AdmittedIsAuthorized(w, a);
    var (e, s, issuers, approvers) := Found(w, a);
    var roots := VerifiedRoots(w, e, a.policy.roots);
    NamedRootsAreTheChosen(w, pool, roots, Certifiers(ActionIssuer, s.claim, a.policy, a.now, None));
    NamedSignersHoldTheRole(w, pool, roots, ActionIssuer, s.claim, a.policy, a.now, None, a.policy.issuerThreshold);
    SortedIdsAreNoMore(w, issuers);
  }

  lemma LookupFindsTheApprovers(w: World, a: Attempt, pool: seq<TrustRoot>)
    requires WorldValid(w) && PolicyValid(a.policy) && Admit(w, a).Admitted?
    requires w.parseEnvelope(a.envelope).Some? && w.parseCertificate(w.parseEnvelope(a.envelope).value.payload).Some?
    requires Supplies(w, a, pool)
    ensures var (e, s, issuers, approvers) := Found(w, a);
            var ids := AcceptedCertificate(w, a).approvalRoots;
            var list := Some(s.claim.approval.approvers);
            && (forall i :: 0 <= i < |ids| ==> ids[i] in RootsById(pool))
            && ids == SortedIds(w, approvers) && (s.claim.approval.required <==> ids != [])
            && (forall x :: x in RootsNamed(pool, ids) <==> x in approvers)
            && (s.claim.approval.required ==>
                  && |RootsNamed(pool, ids)| >= a.policy.approvalThreshold
                  && RoleHolds(w, RootsNamed(pool, ids), HumanApproval, s.claim, a.policy, a.now, list,
                               a.policy.approvalThreshold))
  {
    AdmittedIsAuthorized(w, a);
    var (e, s, issuers, approvers) := Found(w, a);
    var roots := VerifiedRoots(w, e, a.policy.roots);
    SortedIdsAreNoMore(w, approvers);
    if s.claim.approval.required {
      var list := Some(s.claim.approval.approvers);
      NamedRootsAreTheChosen(w, pool, roots, Certifiers(HumanApproval, s.claim, a.policy, a.now, list));
      NamedSignersHoldTheRole(w, pool, roots, HumanApproval, s.claim, a.policy, a.now, list,
                              a.policy.approvalThreshold);
    }
  }

  lemma LookupFindsTheSigners(w: World, a: Attempt, pool: seq<TrustRoot>)
    requires WorldValid(w) && PolicyValid(a.policy) && Admit(w, a).Admitted?
    requires w.parseEnvelope(a.envelope).Some? && w.parseCertificate(w.parseEnvelope(a.envelope).value.payload).Some?
    requires Supplies(w, a, pool)
    ensures var r := AcceptedCertificate(w, a);
            && (forall i :: 0 <= i < |r.issuerRoots| ==> r.issuerRoots[i] in RootsById(pool))
            && (forall i :: 0 <= i < |r.approvalRoots| ==> r.approvalRoots[i] in RootsById(pool))
            && LookedUp(w, a, pool, RootsNamed(pool, r.issuerRoots), RootsNamed(pool, r.approvalRoots))
  {
    LookupFindsTheIssuers(w, a, pool);
    LookupFindsTheApprovers(w, a, pool);
    var (e, s, issuers, approvers) := Found(w, a);
    var r := AcceptedCertificate(w, a);
    SameMembersSameLabels(w, RootsNamed(pool, r.issuerRoots), issuers);
    SameMembersSameLabels(w, RootsNamed(pool, r.approvalRoots), approvers);
    SelfApprovalDependsOnLabels(w, s.claim, issuers, approvers, RootsNamed(pool, r.issuerRoots),
                                RootsNamed(pool, r.approvalRoots));
    NoSelfApproval(w, a);
  }

  lemma NoSelfApproval(w: World, a: Attempt)
    requires WorldValid(w) && PolicyValid(a.policy) && Admit(w, a).Admitted?
    requires w.parseEnvelope(a.envelope).Some? && w.parseCertificate(w.parseEnvelope(a.envelope).value.payload).Some?
    ensures var (e, s, issuers, approvers) := Found(w, a); !SelfApproved(w, s.claim, issuers, approvers)
  {
    AdmittedIsAuthorized(w, a);
  }

  lemma AcceptedIdsAreSigned(w: World, a: Attempt)
    requires WorldValid(w) && PolicyValid(a.policy) && Admit(w, a).Admitted?
    requires w.parseEnvelope(a.envelope).Some? && w.parseCertificate(w.parseEnvelope(a.envelope).value.payload).Some?
    ensures var (e, s, issuers, approvers) := Found(w, a);
            var ids := AcceptedCertificate(w, a).issuerRoots + AcceptedCertificate(w, a).approvalRoots;
            forall k :: 0 <= k < |ids| ==> ids[k] in Ids(VerifiedRoots(w, e, a.policy.roots))
  {
    var (e, s, issuers, approvers) := Found(w, a);
    var roots := VerifiedRoots(w, e, a.policy.roots);
    var r := AcceptedCertificate(w, a);
    LookupFindsTheIssuers(w, a, roots);
    LookupFindsTheApprovers(w, a, roots);
    var ids := r.issuerRoots + r.approvalRoots;
    forall k | 0 <= k < |ids| ensures ids[k] in Ids(roots) {
      RootsByIdFinds(roots, ids[k]);
    }
  }

  /**
   A certificate accepted at a time is accepted again at that time from its bytes and its
   result: the authority found is made of exactly the signers found then.
   */
  lemma AuthorityIsEstablishedAgain(w: World, a: Attempt)
    requires WorldValid(w) && PolicyValid(a.policy) && Admit(w, a).Admitted?
    ensures w.parseEnvelope(a.envelope).Some? && w.parseCertificate(w.parseEnvelope(a.envelope).value.payload).Some?
    ensures var (e, s, issuers, approvers) := Found(w, a);
            var authority := AuthorityRoots(w, a.policy, AcceptedCertificate(w, a), s, a.envelope, a.now);
            authority.Some? && forall r :: r in authority.value <==> r in issuers || r in approvers
  {
    hide Admit, RootValid, AllowlistsValid, CertificateValid, Chosen, VerifiedRoots, SelfApproved, RoleHolds;
    AdmittedWasRead(w, a);
    LookupFindsTheSigners(w, a, a.policy.roots);
    IssuersAndApproversDiffer(w, a);
    AcceptedIdsAreSigned(w, a);
  }

  /**
   A closure that refers to an accepted certificate takes it over exactly when the human
   and the workload are different principals and every signer's root is still current.
   The first condition is not asked when the certificate is issued.
   */
  lemma CertificateIsTakenOverIff(w: World, a: Attempt, ref: CertificateReference, now: Time)
    requires WorldValid(w) && PolicyValid(a.policy) && Admit(w, a).Admitted?
    requires RefersToCertificate(w, a, ref)
    requires w.parseEnvelope(a.envelope).Some? && w.parseCertificate(w.parseEnvelope(a.envelope).value.payload).Some?
    ensures var (e, s, issuers, approvers) := Found(w, a);
            var handoff := OC.CertificateHandoff(w, a.envelope, AcceptedCertificate(w, a), ref, a.policy, now);
            handoff == if && s.claim.human.id != s.claim.workload.id
                          && (forall r :: r in issuers || r in approvers ==> IsCurrent(r, now, a.policy.skew))
                       then OC.Trusted(s.claim) else OC.Untrusted(ActionHandoffUntrusted)
  {
    var (e, s, issuers, approvers) := Found(w, a);
    var r, pool := AcceptedCertificate(w, a), VerifiedRoots(w, e, a.policy.roots);
    LookupFindsTheSigners(w, a, pool);
    CertificateDigestsAgree(w, a, ref);
    AcceptedIdsAreDistinct(w, a);
    var issuers', approvers' := RootsNamed(pool, r.issuerRoots), RootsNamed(pool, r.approvalRoots);
    SignersStillCertify(w, a, ref, now, issuers', approvers');
    AuthorityStaysSeparate(w, a, issuers', approvers');
  }

  lemma CertificateDigestsAgree(w: World, a: Attempt, ref: CertificateReference)
    requires WorldValid(w) && PolicyValid(a.policy) && Admit(w, a).Admitted?
    requires RefersToCertificate(w, a, ref)
    requires w.parseEnvelope(a.envelope).Some? && w.parseCertificate(w.parseEnvelope(a.envelope).value.payload).Some?
    ensures OC.CertificateDigestsMatch(w, a.envelope, Found(w, a).0, Found(w, a).1, AcceptedCertificate(w, a), ref)
  {
    AdmittedIsAuthorized(w, a);
  }

  lemma AcceptedIdsAreDistinct(w: World, a: Attempt)
    requires WorldValid(w) && PolicyValid(a.policy) && Admit(w, a).Admitted?
    requires w.parseEnvelope(a.envelope).Some? && w.parseCertificate(w.parseEnvelope(a.envelope).value.payload).Some?
    ensures OC.CertificateIdsUsable(AcceptedCertificate(w, a), Found(w, a).1)
  {
    LookupFindsTheIssuers(w, a, a.policy.roots);
    LookupFindsTheApprovers(w, a, a.policy.roots);
    var (e, s, issuers, approvers) := Found(w, a);
    SortedIdsAreNoMore(w, issuers);
    SortedIdsAreNoMore(w, approvers);
  }

  lemma SignersStillCertify(
      w: World, a: Attempt, ref: CertificateReference, now: Time, issuers': seq<TrustRoot>,
      approvers': seq<TrustRoot>)
    requires WorldValid(w) && PolicyValid(a.policy) && Admit(w, a).Admitted? && ref.verificationAt == a.now
    requires w.parseEnvelope(a.envelope).Some? && w.parseCertificate(w.parseEnvelope(a.envelope).value.payload).Some?
    requires LookedUp(w, a, VerifiedRoots(w, Found(w, a).0, a.policy.roots), issuers', approvers')
    ensures var (e, s, issuers, approvers) := Found(w, a);
            var list := Some(s.claim.approval.approvers);
            (&& (forall r :: r in issuers' ==>
                 OC.StillCertifies(r, ActionIssuer, s.claim, a.policy, ref.verificationAt, now, None))
             && (forall r :: r in approvers' ==>
                 OC.StillCertifies(r, HumanApproval, s.claim, a.policy, ref.verificationAt, now, list)))
            <==> (forall r :: r in issuers || r in approvers ==> IsCurrent(r, now, a.policy.skew))
  {
    PolicyAdmitted(w, a);
  }

  lemma PolicyAdmitted(w: World, a: Attempt)
    requires WorldValid(w) && PolicyValid(a.policy) && Admit(w, a).Admitted?
    requires w.parseEnvelope(a.envelope).Some? && w.parseCertificate(w.parseEnvelope(a.envelope).value.payload).Some?
    ensures var claim := Found(w, a).1.claim;
            && claim.audience in a.policy.audiences && ActionCertificateV01 in a.policy.predicateTypes
            && claim.human.id in a.policy.humans && claim.workload.id in a.policy.workloads
  {
    AdmittedIsAuthorized(w, a);
  }

  lemma AuthorityStaysSeparate(w: World, a: Attempt, issuers': seq<TrustRoot>, approvers': seq<TrustRoot>)
    requires WorldValid(w) && PolicyValid(a.policy) && Admit(w, a).Admitted?
    requires w.parseEnvelope(a.envelope).Some? && w.parseCertificate(w.parseEnvelope(a.envelope).value.payload).Some?
    requires LookedUp(w, a, VerifiedRoots(w, Found(w, a).0, a.policy.roots), issuers', approvers')
    ensures var claim := Found(w, a).1.claim;
            OC.AuthorityIsSeparate(w, claim, a.policy, issuers', approvers') <==> claim.human.id != claim.workload.id
  {
    PolicyAdmitted(w, a);
  }

  /******* Receipts *******/

  /** The result of an accepted receipt, newly recorded or already present. */
  ghost function AcceptedReceipt(w: World, a: ReceiptAttempt, isNew: bool): ReceiptResult
    requires WorldValid(w) && PolicyValid(a.policy) && AdmitReceipt(w, a).ReceiptAdmitted?
  {
    SettleReceipt(AdmitReceipt(w, a), if isNew then RX.Appended else RX.AlreadyPresent)
  }

  ghost predicate RefersToReceipt(w: World, a: ReceiptAttempt, result: ReceiptResult, ref: ReceiptReference)
    requires WorldValid(w) && PolicyValid(a.policy) && AdmitReceipt(w, a).ReceiptAdmitted?
  {
    var admission := AdmitReceipt(w, a);
    && ref.envelope == w.sha256(a.envelope)
    && ref.payload == admission.payload
    && ref.receiptId == admission.statement.claim.receiptId
    && ref.verificationResult == w.receiptResultDigest(result)
  }

  /** What an admitted receipt rests on: its bytes, and the observers chosen among its signers. */
  lemma AdmittedReceiptIsObserved(w: World, a: ReceiptAttempt)
    requires WorldValid(w) && PolicyValid(a.policy) && AdmitReceipt(w, a).ReceiptAdmitted?
    ensures var reading := ReadReceipt(w, a);
            && reading.Read? && PartiesOf(w, a, reading.statement).Some?
            && var observers := Observers(w, a, reading.envelope, reading.statement);
            && AdmitReceipt(w, a) == ReceiptAdmitted(
                 reading.statement, w.sha256(reading.envelope.payload), w.sha256(a.envelope), SortedIds(w, observers))
            && |observers| >= a.policy.executionObserverThreshold
            && w.receiptAudience in a.policy.audiences && ExecutionReceiptV01 in a.policy.predicateTypes
  {
    hide PartiesOf, SortedIds, VerifiedRoots, ReportsTheAction, CertificateContext, OutsideCertificateWindow;
    hide ExpectedExecutionFor, RootValid, AllowlistsValid, SelfApproved;
  }

  /** The observers chosen for a receipt. */
  ghost function Observers(w: World, a: ReceiptAttempt, e: Envelope, s: ReceiptStatement): seq<TrustRoot>
    requires WorldValid(w) && PolicyValid(a.policy) && PartiesOf(w, a, s).Some?
  {
    Chosen(w, VerifiedRoots(w, e, a.policy.roots),
           EligibleObserver(w, s.claim, a.policy, PartiesOf(w, a, s).value, a.now))
  }

  lemma ObserversStillObserveIff(w: World, a: ReceiptAttempt, e: Envelope, s: ReceiptStatement, r: TrustRoot, now: Time)
    requires WorldValid(w) && PolicyValid(a.policy) && PartiesOf(w, a, s).Some?
    requires w.receiptAudience in a.policy.audiences && ExecutionReceiptV01 in a.policy.predicateTypes
    requires r in Observers(w, a, e, s)
    ensures OC.StillObserves(w, r, s.claim, a.policy, now) <==> IsCurrent(r, now, a.policy.skew)
  {
    hide PartiesOf, IsCurrent, MayObserve, RootValid, AllowlistsValid;
    var pool := VerifiedRoots(w, e, a.policy.roots);
    SelectionIsIndependent(
      RootLabels(w), pool, EligibleObserver(w, s.claim, a.policy, PartiesOf(w, a, s).value, a.now));
  }

  lemma NamedObserversHold(w: World, a: ReceiptAttempt, e: Envelope, s: ReceiptStatement, now: Time)
    requires WorldValid(w) && PolicyValid(a.policy) && PartiesOf(w, a, s).Some?
    requires w.receiptAudience in a.policy.audiences && ExecutionReceiptV01 in a.policy.predicateTypes
    ensures var pool, observers := VerifiedRoots(w, e, a.policy.roots), Observers(w, a, e, s);
            var ids := SortedIds(w, observers);
            && (forall i :: 0 <= i < |ids| ==> ids[i] in RootsById(pool))
            && Distinct(ids) && (observers != [] ==> ids != [])
            && |Principals(RootsNamed(pool, ids))| == |Fingerprints(w, RootsNamed(pool, ids))| == |observers|
            && ((forall r :: r in RootsNamed(pool, ids) ==> OC.StillObserves(w, r, s.claim, a.policy, now))
                <==> (forall r :: r in observers ==> IsCurrent(r, now, a.policy.skew)))
  {
    hide PartiesOf, RootValid, AllowlistsValid, OC.StillObserves, IsCurrent, SortedIds, RootsById;
    var pool, observers := VerifiedRoots(w, e, a.policy.roots), Observers(w, a, e, s);
    var eligible := EligibleObserver(w, s.claim, a.policy, PartiesOf(w, a, s).value, a.now);
    NamedRootsAreTheChosen(w, pool, pool, eligible);
    ChosenCount(w, pool, eligible);
    forall r | r in observers
      ensures OC.StillObserves(w, r, s.claim, a.policy, now) <==> IsCurrent(r, now, a.policy.skew)
    {
      ObserversStillObserveIff(w, a, e, s, r, now);
    }
  }

  /**
   A closure that refers to an accepted receipt takes it over exactly when every observer's
   root is still current.
   */
  lemma ReceiptIsTakenOverIff(w: World, a: ReceiptAttempt, isNew: bool, ref: ReceiptReference, now: Time)
    requires WorldValid(w) && PolicyValid(a.policy) && AdmitReceipt(w, a).ReceiptAdmitted?
    requires RefersToReceipt(w, a, AcceptedReceipt(w, a, isNew), ref)
    ensures ReadReceipt(w, a).Read? && PartiesOf(w, a, ReadReceipt(w, a).statement).Some?
    ensures var s := ReadReceipt(w, a).statement;
            var handoff := OC.ReceiptHandoff(w, a.envelope, AcceptedReceipt(w, a, isNew), ref, a.policy, now);
            var observers := Observers(w, a, ReadReceipt(w, a).envelope, s);
            handoff == if forall r :: r in observers ==> IsCurrent(r, now, a.policy.skew)
                       then OC.Trusted(s) else OC.Untrusted(ReceiptHandoffUntrusted)
  {
    hide AdmitReceipt, Observers, PartiesOf, VerifiedRoots, RootsNamed, RootsById, OC.StillObserves, SortedIds;
    AdmittedReceiptIsObserved(w, a);
    NamedObserversHold(w, a, ReadReceipt(w, a).envelope, ReadReceipt(w, a).statement, now);
  }
}
