/**
 Which configured roots signed an envelope, and the greedy choice of signers that count:
 a root is skipped when its key or its principal is already represented.
 */
module Signers {
  import opened Basics
  import opened Decimal
  import opened Dsse
  import opened LogIndex
  import opened Attestations
  import opened Selection
  import opened Sequences

  const DSSE_PAYLOAD_TYPE: Bytes := Ascii("application/vnd.in-toto+json")

  /******* Signature checking *******/

  predicate Checks(w: World, e: Envelope, i: nat, root: TrustRoot)
    requires i < |e.signatures|
  {
    w.verifies(root.key, e.signatures[i].value, Pae(DSSE_PAYLOAD_TYPE, e.payload))
  }

  predicate SignedBy(w: World, e: Envelope, root: TrustRoot) {
    exists i :: 0 <= i < |e.signatures| && Checks(w, e, i, root)
  }

  function Self(r: TrustRoot): TrustRoot { r }

  function RootsById(roots: seq<TrustRoot>): map<Id, TrustRoot> { IndexOf(roots, RootId, Self) }

  lemma RootsByIdFinds(roots: seq<TrustRoot>, id: Id)
    requires KeysDistinct(roots, RootId)
    ensures id in RootsById(roots) <==> exists i :: 0 <= i < |roots| && roots[i].id == id
    ensures forall r :: r in roots && r.id == id ==> id in RootsById(roots) && RootsById(roots)[id] == r
    ensures id in RootsById(roots) ==> RootsById(roots)[id] in roots && RootsById(roots)[id].id == id
  {
    LookupIsRecorded(roots, RootId, Self, id);
  }

  /** The configured roots under which some signature of the envelope checks, by root id. */
  function Verified(w: World, e: Envelope, roots: seq<TrustRoot>): set<TrustRoot> {
    set r | r in roots && SignedBy(w, e, r)
  }

  ghost predicate ListsVerified(w: World, e: Envelope, roots: seq<TrustRoot>, listed: seq<TrustRoot>) {
    && |listed| == |w.sortedIds(set r | r in Verified(w, e, roots) :: r.id)|
    && (forall i :: 0 <= i < |listed| ==>
          && listed[i] in Verified(w, e, roots)
          && listed[i].id == w.sortedIds(set r | r in Verified(w, e, roots) :: r.id)[i])
  }

  function VerifiedRoots(w: World, e: Envelope, roots: seq<TrustRoot>): (listed: seq<TrustRoot>)
    requires WorldValid(w) && KeysDistinct(roots, RootId)
    ensures ListsVerified(w, e, roots, listed)
    ensures forall r :: r in listed <==> r in Verified(w, e, roots)
    ensures KeysDistinct(listed, RootId)
  {
    var ids := w.sortedIds(set r | r in Verified(w, e, roots) :: r.id);
    var byId := RootsById(roots);
    assert Lists(w.sortedIds(set r | r in Verified(w, e, roots) :: r.id), set r | r in Verified(w, e, roots) :: r.id);
    assert forall i :: 0 <= i < |ids| ==>
        ids[i] in byId && byId[ids[i]] in Verified(w, e, roots) && byId[ids[i]].id == ids[i]
    by {
      forall i | 0 <= i < |ids|
        ensures ids[i] in byId && byId[ids[i]] in Verified(w, e, roots) && byId[ids[i]].id == ids[i]
      {
        assert ids[i] in ids;
        var r :| r in Verified(w, e, roots) && r.id == ids[i];
        RootsByIdFinds(roots, ids[i]);
      }
    }
    var listed := seq(|ids|, i requires 0 <= i < |ids| => byId[ids[i]]);
    assert forall r :: r in Verified(w, e, roots) ==> r in listed by {
      forall r | r in Verified(w, e, roots) ensures r in listed {
        assert r.id in ids;
        var i :| 0 <= i < |ids| && ids[i] == r.id;
        RootsByIdFinds(roots, ids[i]);
        assert listed[i] == r;
      }
    }
    listed
  }

  /** The roots in the order they are tried for one signature: hinted ones first. */
  function Candidates(roots: seq<TrustRoot>, keyid: Option<Id>): (tried: seq<TrustRoot>)
    ensures forall r :: r in tried <==> r in roots
  {
    Hinted(roots, keyid, true) + Hinted(roots, keyid, false)
  }

  function Hinted(roots: seq<TrustRoot>, keyid: Option<Id>, wanted: bool): (kept: seq<TrustRoot>)
    ensures forall r :: r in kept <==> r in roots && (keyid.Some? && keyid.value in r.keyidHints) == wanted
  {
    if roots == [] then []
    else if (keyid.Some? && keyid.value in roots[0].keyidHints) == wanted
    then [roots[0]] + Hinted(roots[1..], keyid, wanted)
    else Hinted(roots[1..], keyid, wanted)
  }

  /** Key id hints only reorder the attempts: the result is every root some signature checks under. */
  method CryptographicallyVerifiedRoots(w: World, e: Envelope, roots: seq<TrustRoot>) returns (listed: seq<TrustRoot>)
    requires WorldValid(w) && KeysDistinct(roots, RootId)
    ensures listed == VerifiedRoots(w, e, roots)
  {
    hide VerifiedRoots, Candidates, Hinted;
    var verified: map<Id, TrustRoot> := map[];
    for i := 0 to |e.signatures|
      invariant forall r :: r in roots && (exists k :: 0 <= k < i && Checks(w, e, k, r)) ==> r.id in verified
      invariant forall id :: id in verified ==>
        verified[id] in Verified(w, e, roots) && verified[id].id == id
    {
      var candidates := Candidates(roots, e.signatures[i].keyid);
      ghost var before := verified.Keys;
      for j := 0 to |candidates|
        invariant before <= verified.Keys
        invariant forall k :: 0 <= k < j && Checks(w, e, i, candidates[k]) ==> candidates[k].id in verified
        invariant forall id :: id in verified ==>
          verified[id] in Verified(w, e, roots) && verified[id].id == id
      {
        var root := candidates[j];
        if w.verifies(root.key, e.signatures[i].value, Pae(DSSE_PAYLOAD_TYPE, e.payload)) {
          assert Checks(w, e, i, root);
          verified := verified[root.id := root];
        }
      }
    }
    assert verified.Keys == set r | r in Verified(w, e, roots) :: r.id;
    var ids := w.sortedIds(verified.Keys);
    assert Lists(ids, verified.Keys);
    assert forall k :: 0 <= k < |ids| ==> ids[k] in ids;
    listed := seq(|ids|, k requires 0 <= k < |ids| => verified[ids[k]]);
    ListedOnlyOneWay(w, e, roots, listed, VerifiedRoots(w, e, roots));
  }

  lemma ListedOnlyOneWay(w: World, e: Envelope, roots: seq<TrustRoot>, a: seq<TrustRoot>, b: seq<TrustRoot>)
    requires KeysDistinct(roots, RootId)
    requires ListsVerified(w, e, roots, a) && ListsVerified(w, e, roots, b)
    ensures a == b
  {
    forall i | 0 <= i < |a| ensures a[i] == b[i] {
      RootsByIdFinds(roots, a[i].id);
    }
  }

  /******* Choosing the signers that count *******/

  /** A root counts once per principal and once per key. */
  function RootLabels(w: World): Labels<TrustRoot, Id, Digest> {
    Labels((r: TrustRoot) => r.principal, (r: TrustRoot) => w.fingerprint(r.key))
  }

  function Chosen(w: World, roots: seq<TrustRoot>, eligible: TrustRoot -> bool): seq<TrustRoot> {
    Select(RootLabels(w), roots, eligible)
  }

  function Principals(roots: seq<TrustRoot>): set<Id> { set r | r in roots :: r.principal }

  function Fingerprints(w: World, roots: seq<TrustRoot>): set<Digest> { set r | r in roots :: w.fingerprint(r.key) }

  function Ids(roots: seq<TrustRoot>): set<Id> { set r | r in roots :: r.id }

  lemma LabelsOfRoots(w: World, roots: seq<TrustRoot>)
    ensures Image(roots, RootLabels(w).first) == Principals(roots)
    ensures Image(roots, RootLabels(w).second) == Fingerprints(w, roots)
  {
    forall k ensures k in Principals(roots) ==> k in Image(roots, RootLabels(w).first) {
      if k in Principals(roots) {
        var r :| r in roots && r.principal == k;
        var i :| 0 <= i < |roots| && roots[i] == r;
        assert RootLabels(w).first(roots[i]) == k;
      }
    }
    forall k ensures k in Fingerprints(w, roots) ==> k in Image(roots, RootLabels(w).second) {
      if k in Fingerprints(w, roots) {
        var r :| r in roots && w.fingerprint(r.key) == k;
        var i :| 0 <= i < |roots| && roots[i] == r;
        assert RootLabels(w).second(roots[i]) == k;
      }
    }
  }

  /** The chosen signers show one principal and one key each. */
  lemma ChosenCount(w: World, roots: seq<TrustRoot>, eligible: TrustRoot -> bool)
    ensures |Principals(Chosen(w, roots, eligible))| == |Chosen(w, roots, eligible)|
    ensures |Fingerprints(w, Chosen(w, roots, eligible))| == |Chosen(w, roots, eligible)|
  {
    SelectionIsIndependent(RootLabels(w), roots, eligible);
    IndependentLabelsCount(RootLabels(w), Chosen(w, roots, eligible));
    LabelsOfRoots(w, Chosen(w, roots, eligible));
  }

  ghost function Serves(w: World, e: Envelope): (nat, TrustRoot) -> bool {
    (k: nat, r: TrustRoot) => k < |e.signatures| && Checks(w, e, k, r)
  }

  /** No signature of this envelope checks under the keys of two of these roots. */
  ghost predicate OneKeyPerSignature(w: World, e: Envelope, roots: seq<TrustRoot>) {
    forall i, a, b ::
      0 <= i < |e.signatures| && a in roots && b in roots && Checks(w, e, i, a) && Checks(w, e, i, b) ==> a.key == b.key
  }

  /** The same for the envelope in these bytes, if there is one, and the roots of the policy. */
  ghost predicate KeysTellSignaturesApart(w: World, bytes: Bytes, policy: TrustPolicy) {
    w.parseEnvelope(bytes).Some? ==> OneKeyPerSignature(w, w.parseEnvelope(bytes).value, policy.roots)
  }

  /** When no signature checks under two of their keys, the chosen signers never outnumber the signatures. */
  lemma ChosenFitTheSignatures(w: World, e: Envelope, roots: seq<TrustRoot>, eligible: TrustRoot -> bool)
    requires OneKeyPerSignature(w, e, roots)
    requires forall r :: r in roots ==> SignedBy(w, e, r)
    ensures |Chosen(w, roots, eligible)| <= |e.signatures|
  {
    var chosen, slots := Chosen(w, roots, eligible), Slots(|e.signatures|);
    SelectionIsIndependent(RootLabels(w), roots, eligible);
    forall r | r in chosen ensures exists k :: k in slots && Serves(w, e)(k, r) {
      var k: nat :| k < |e.signatures| && Checks(w, e, k, r);
      assert k in slots && Serves(w, e)(k, r);
    }
    EachNeedsItsOwnSlot(RootLabels(w), chosen, slots, Serves(w, e));
  }

  /** Signers that count only if their principal is declared are no more than the declared principals. */
  lemma DeclaredSignersAreFew(w: World, roots: seq<TrustRoot>, eligible: TrustRoot -> bool, declared: seq<Id>)
    requires forall r :: eligible(r) ==> r.principal in declared
    ensures |Chosen(w, roots, eligible)| <= |declared|
  {
    var chosen := Chosen(w, roots, eligible);
    SelectionIsIndependent(RootLabels(w), roots, eligible);
    ChosenCount(w, roots, eligible);
    ElementsAtMost(declared);
    SubsetIsNoLarger(Principals(chosen), set p | p in declared);
  }

  /** A signature that checks under one root only gives that root, chosen if it is eligible. */
  lemma OnlySigner(w: World, e: Envelope, roots: seq<TrustRoot>, root: TrustRoot, eligible: TrustRoot -> bool)
    requires WorldValid(w) && KeysDistinct(roots, RootId) && root in roots
    requires forall r :: r in roots ==> (SignedBy(w, e, r) <==> r == root)
    ensures VerifiedRoots(w, e, roots) == [root]
    ensures Chosen(w, [root], eligible) == if eligible(root) then [root] else []
  {
    var listed := VerifiedRoots(w, e, roots);
    ListedOnce(listed, {root});
    assert listed[0] in listed;
    assert [root][..0] == [];
    assert Select(RootLabels(w), [root][..0], eligible) == [];
  }

  /** The chosen roots, each once, in the order of their fingerprints. */
  ghost predicate ListsByFingerprint(w: World, listed: seq<TrustRoot>, chosen: seq<TrustRoot>) {
    var order := w.sortedDigests(Fingerprints(w, chosen));
    && |listed| == |chosen| == |order|
    && (forall r :: r in listed <==> r in chosen)
    && (forall i :: 0 <= i < |listed| ==> w.fingerprint(listed[i].key) == order[i])
  }

  /** The source's loop over verified roots, and the listing by fingerprint that ends it. */
  method SelectDistinct(w: World, roots: seq<TrustRoot>, standing: TrustRoot -> Standing)
    returns (selected: seq<TrustRoot>, undeclared: bool, conflicted: bool, stale: bool)
    requires WorldValid(w)
    ensures ListsByFingerprint(w, selected, Chosen(w, roots, IsEligible(standing)))
    ensures undeclared == Occurs(roots, standing, Undeclared)
    ensures conflicted == Occurs(roots, standing, Conflicted)
    ensures stale == Occurs(roots, standing, Stale)
  {
    var distinct, principals;
    distinct, principals, undeclared, conflicted, stale := ScanDistinct(RootLabels(w), roots, standing);
    var order := w.sortedDigests(distinct.Keys);
    assert Lists(order, distinct.Keys);
    assert forall k :: 0 <= k < |order| ==> order[k] in order;
    selected := seq(|order|, k requires 0 <= k < |order| => distinct[order[k]]);
    ChosenCount(w, roots, IsEligible(standing));
    ListedInOrder(w, Chosen(w, roots, IsEligible(standing)), distinct, principals, order, selected);
  }

  lemma ListedInOrder(
      w: World, chosen: seq<TrustRoot>, distinct: map<Digest, TrustRoot>, principals: set<Id>,
      order: seq<Digest>, listed: seq<TrustRoot>)
    requires Represents(RootLabels(w), chosen, distinct, principals)
    requires |Fingerprints(w, chosen)| == |chosen|
    requires order == w.sortedDigests(distinct.Keys) && Lists(order, distinct.Keys) && |listed| == |order|
    requires forall k :: 0 <= k < |order| ==> order[k] in distinct && listed[k] == distinct[order[k]]
    ensures ListsByFingerprint(w, listed, chosen)
  {
    LabelsOfRoots(w, chosen);
    forall k | 0 <= k < |order| ensures listed[k] in chosen && w.fingerprint(listed[k].key) == order[k] {
      assert order[k] in order;
      assert order[k] in Image(chosen, RootLabels(w).second);
    }
    forall c | c in chosen ensures c in listed {
      var i :| 0 <= i < |chosen| && chosen[i] == c;
      assert RootLabels(w).second(chosen[i]) in order;
      var k :| 0 <= k < |order| && order[k] == w.fingerprint(c.key);
      assert listed[k] == c;
    }
    ListedOnce(order, distinct.Keys);
  }

  lemma {:induction false} ListedOnce<T>(s: seq<T>, elements: set<T>)
    requires Distinct(s) && forall x :: x in s <==> x in elements
    ensures |s| == |elements|
  {
    if s == [] {
      assert elements == {};
    } else {
      var n := |s| - 1;
      assert s == s[..n] + [s[n]];
      ListedOnce(s[..n], elements - {s[n]});
    }
  }
}
