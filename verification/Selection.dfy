/**
 A greedy choice from a list of candidates that each carry two labels. A candidate is
 skipped when either of its labels is already represented among the chosen.
 */
module Selection {
  /** The two labels of a candidate. */
  datatype Labels<!T, !P, !Q> = Labels(first: T -> P, second: T -> Q)

  predicate Clash<T, P(==), Q(==)>(l: Labels<T, P, Q>, a: T, b: T) {
    l.first(a) == l.first(b) || l.second(a) == l.second(b)
  }

  /** No two members of the sequence share a label. */
  ghost predicate Independent<T, P, Q>(l: Labels<T, P, Q>, s: seq<T>) {
    forall i, j :: 0 <= i < j < |s| ==> !Clash(l, s[i], s[j])
  }

  /** The greedy choice, from the first candidate to the last. */
  function Select<T, P(==), Q(==)>(l: Labels<T, P, Q>, s: seq<T>, eligible: T -> bool): seq<T> {
    if s == [] then []
    else
      var chosen := Select(l, s[..|s| - 1], eligible);
      var last := s[|s| - 1];
      if eligible(last) && forall i :: 0 <= i < |chosen| ==> !Clash(l, chosen[i], last)
      then chosen + [last] else chosen
  }

  /** What is chosen is an eligible candidate, and no two chosen ones share a label. */
  lemma {:induction false} SelectionIsIndependent<T, P, Q>(l: Labels<T, P, Q>, s: seq<T>, eligible: T -> bool)
    ensures Independent(l, Select(l, s, eligible))
    ensures forall c :: c in Select(l, s, eligible) ==> c in s && eligible(c)
  {
    if s != [] {
      var n := |s| - 1;
      SelectionIsIndependent(l, s[..n], eligible);
      assert s == s[..n] + [s[n]];
    }
  }

  /** Every eligible candidate that was passed over shares a label with a chosen one. */
  lemma {:induction false} SelectionIsMaximal<T, P, Q>(l: Labels<T, P, Q>, s: seq<T>, eligible: T -> bool, r: T)
    requires r in s && eligible(r)
    ensures exists i :: 0 <= i < |Select(l, s, eligible)| && Clash(l, Select(l, s, eligible)[i], r)
  {
    var n := |s| - 1;
    var before, chosen := Select(l, s[..n], eligible), Select(l, s, eligible);
    if r in s[..n] {
      SelectionIsMaximal(l, s[..n], eligible, r);
      var i :| 0 <= i < |before| && Clash(l, before[i], r);
      assert chosen[i] == before[i];
    } else {
      assert s[n] == r;
      if |chosen| > |before| { assert chosen[|before|] == r && Clash(l, r, r); }
    }
  }

  /** Candidates that each have a label in one of two sets cannot outnumber the two sets. */
  lemma {:induction false} IndependentCandidatesAreFew<T, P, Q>(l: Labels<T, P, Q>, s: seq<T>, ps: set<P>, qs: set<Q>)
    requires Independent(l, s)
    requires forall i :: 0 <= i < |s| ==> l.first(s[i]) in ps || l.second(s[i]) in qs
    ensures |s| <= |ps| + |qs|
    decreases |s|
  {
    if s != [] {
      var n := |s| - 1;
      var last := s[n];
      assert forall i :: 0 <= i < n ==> s[..n][i] == s[i] && !Clash(l, s[i], last);
      if l.first(last) in ps {
        IndependentCandidatesAreFew(l, s[..n], ps - {l.first(last)}, qs);
      } else {
        IndependentCandidatesAreFew(l, s[..n], ps, qs - {l.second(last)});
      }
    }
  }

  function Image<T, K>(s: seq<T>, f: T -> K): set<K> { set i | 0 <= i < |s| :: f(s[i]) }

  lemma ImageOfExtension<T, K>(s: seq<T>, f: T -> K)
    requires s != []
    ensures Image(s, f) == Image(s[..|s| - 1], f) + {f(s[|s| - 1])}
  {
    var n := |s| - 1;
    assert forall i :: 0 <= i < n ==> s[..n][i] == s[i];
    forall k | k in Image(s[..n], f) ensures k in Image(s, f) {
      var i :| 0 <= i < n && f(s[..n][i]) == k;
      assert f(s[i]) == k;
    }
  }

  lemma {:induction false} ImageIsNoLarger<T, K>(s: seq<T>, f: T -> K)
    ensures |Image(s, f)| <= |s|
  {
    if s != [] {
      ImageIsNoLarger(s[..|s| - 1], f);
      ImageOfExtension(s, f);
    }
  }

  /** The greedy choice reaches at least half of the largest independent set of eligible candidates. */
  lemma SelectionReachesHalf<T, P, Q>(l: Labels<T, P, Q>, s: seq<T>, eligible: T -> bool, other: seq<T>)
    requires Independent(l, other) && forall r :: r in other ==> r in s && eligible(r)
    ensures |other| <= 2 * |Select(l, s, eligible)|
  {
    var chosen := Select(l, s, eligible);
    var ps, qs := Image(chosen, l.first), Image(chosen, l.second);
    forall i | 0 <= i < |other| ensures l.first(other[i]) in ps || l.second(other[i]) in qs {
      SelectionIsMaximal(l, s, eligible, other[i]);
      var k :| 0 <= k < |chosen| && Clash(l, chosen[k], other[i]);
    }
    IndependentCandidatesAreFew(l, other, ps, qs);
    ImageIsNoLarger(chosen, l.first);
    ImageIsNoLarger(chosen, l.second);
  }

  /**
   Half is all it reaches: when the first of three candidates shares one label with the
   second and the other with the third, one is chosen where two were available.
   */
  lemma SelectionCanMissHalf<T, P, Q>(l: Labels<T, P, Q>, a: T, b: T, c: T, eligible: T -> bool)
    requires eligible(a) && eligible(b) && eligible(c)
    requires l.first(a) == l.first(b) && l.second(a) == l.second(c) && !Clash(l, b, c)
    ensures Select(l, [a, b, c], eligible) == [a] && Independent(l, [b, c])
  {
    assert [a, b, c][..2] == [a, b] && [a, b][..1] == [a] && [a][..0] == [];
    assert Select(l, [a], eligible) == [a];
    assert Clash(l, [a][0], b) && Clash(l, [a][0], c);
    assert Select(l, [a, b], eligible) == [a];
  }

  /** An independent sequence shows as many labels of either kind as it has members. */
  lemma {:induction false} IndependentLabelsCount<T, P, Q>(l: Labels<T, P, Q>, s: seq<T>)
    requires Independent(l, s)
    ensures |Image(s, l.first)| == |Image(s, l.second)| == |s|
  {
    if s != [] {
      var n := |s| - 1;
      IndependentLabelsCount(l, s[..n]);
      ImageOfExtension(s, l.first);
      ImageOfExtension(s, l.second);
      assert forall i :: 0 <= i < n ==> !Clash(l, s[i], s[n]);
    }
  }

  /** Every candidate needs a slot of its own when each slot serves at most one value of a label. */
  lemma {:induction false} EachNeedsItsOwnSlot<T, P, Q>(
      l: Labels<T, P, Q>, s: seq<T>, slots: set<nat>, serves: (nat, T) -> bool)
    requires Independent(l, s)
    requires forall k: nat, a: T, b: T :: k in slots && a in s && b in s && serves(k, a) && serves(k, b) ==>
             l.second(a) == l.second(b)
    requires forall r :: r in s ==> exists k :: k in slots && serves(k, r)
    ensures |s| <= |slots|
    decreases |s|
  {
    if s != [] {
      var n := |s| - 1;
      assert s[n] in s;
      var k :| k in slots && serves(k, s[n]);
      forall r | r in s[..n] ensures exists m :: m in slots - {k} && serves(m, r) {
        var i :| 0 <= i < n && s[i] == r;
        assert !Clash(l, s[i], s[n]);
        assert r in s;
        var m :| m in slots && serves(m, r);
        assert m in slots - {k};
      }
      EachNeedsItsOwnSlot(l, s[..n], slots - {k}, serves);
    }
  }

  /** The slots 0..n-1. */
  function Slots(n: nat): (slots: set<nat>)
    ensures |slots| == n && forall k: nat :: k in slots <==> k < n
  {
    if n == 0 then {} else Slots(n - 1) + {n - 1}
  }

  /******* The loop *******/

  /** How a candidate stands, in the order in which the checks are made. */
  datatype Standing = Unfit | Undeclared | Conflicted | Stale | Eligible

  function IsEligible<T>(standing: T -> Standing): T -> bool { (x: T) => standing(x).Eligible? }

  predicate Occurs<T>(s: seq<T>, standing: T -> Standing, what: Standing) {
    exists k :: 0 <= k < |s| && standing(s[k]) == what
  }

  /** The dictionary holds the chosen candidates by their second label, the set their first labels. */
  ghost predicate Represents<T, P, Q>(l: Labels<T, P, Q>, chosen: seq<T>, distinct: map<Q, T>, firsts: set<P>) {
    && firsts == Image(chosen, l.first)
    && distinct.Keys == Image(chosen, l.second)
    && (forall i :: 0 <= i < |chosen| ==> distinct[l.second(chosen[i])] == chosen[i])
  }

  lemma AddingRepresents<T, P, Q>(l: Labels<T, P, Q>, chosen: seq<T>, distinct: map<Q, T>, firsts: set<P>, x: T)
    requires Represents(l, chosen, distinct, firsts)
    requires l.second(x) !in distinct && l.first(x) !in firsts
    ensures Represents(l, chosen + [x], distinct[l.second(x) := x], firsts + {l.first(x)})
    ensures forall i :: 0 <= i < |chosen| ==> !Clash(l, chosen[i], x)
  {
    ImageOfExtension(chosen + [x], l.first);
    ImageOfExtension(chosen + [x], l.second);
    assert (chosen + [x])[..|chosen|] == chosen;
    assert forall i :: 0 <= i < |chosen| ==> l.first(chosen[i]) in firsts && l.second(chosen[i]) in distinct;
  }

  /** One pass: flags for what was seen, a dictionary and a set for what was chosen. */
  method ScanDistinct<T, P(==), Q(==)>(l: Labels<T, P, Q>, s: seq<T>, standing: T -> Standing)
    returns (distinct: map<Q, T>, firsts: set<P>, undeclared: bool, conflicted: bool, stale: bool)
    ensures Represents(l, Select(l, s, IsEligible(standing)), distinct, firsts)
    ensures undeclared == Occurs(s, standing, Undeclared)
    ensures conflicted == Occurs(s, standing, Conflicted)
    ensures stale == Occurs(s, standing, Stale)
  {
    distinct, firsts := map[], {};
    undeclared, conflicted, stale := false, false, false;
    ghost var chosen: seq<T> := [];
    for i := 0 to |s|
      invariant chosen == Select(l, s[..i], IsEligible(standing))
      invariant Represents(l, chosen, distinct, firsts)
      invariant undeclared <==> exists k :: 0 <= k < i && standing(s[k]) == Undeclared
      invariant conflicted <==> exists k :: 0 <= k < i && standing(s[k]) == Conflicted
      invariant stale <==> exists k :: 0 <= k < i && standing(s[k]) == Stale
    {
      var x := s[i];
      assert s[..i + 1][..i] == s[..i];
      match standing(x)
      case Unfit =>
      case Undeclared => undeclared := true;
      case Conflicted => conflicted := true;
      case Stale => stale := true;
      case Eligible =>
        if l.second(x) !in distinct && l.first(x) !in firsts {
          AddingRepresents(l, chosen, distinct, firsts, x);
          distinct := distinct[l.second(x) := x];
          firsts := firsts + {l.first(x)};
          chosen := chosen + [x];
        }
    }
    assert s[..|s|] == s;
  }
}
