/** Vocabulary shared by every module of the model. */
module Basics {
  /** Identifiers, digests-as-text and labels: only their equality matters. */
  type Id(==, !new, 0)

  /** A SHA-256 digest in its textual form. */
  type Digest(==, !new, 0)

  /** A point in time, counted in the smallest unit of the source's clock. */
  type Time = int

  datatype Option<+T> = None | Some(value: T)

  /** Everything the first map says is still said by the second. */
  ghost predicate Extends<K, V>(before: map<K, V>, after: map<K, V>) {
    forall k :: k in before ==> k in after && after[k] == before[k]
  }

  /** No element of the sequence occurs twice. */
  predicate Distinct<T(==)>(s: seq<T>) {
    forall i, j :: 0 <= i < j < |s| ==> s[i] != s[j]
  }
}

/** Lists mapped and filtered element by element. */
module Sequences {
  import opened Basics

  function Map<T, U>(s: seq<T>, f: T -> U): (r: seq<U>)
    ensures |r| == |s| && forall i :: 0 <= i < |s| ==> r[i] == f(s[i])
  {
    if s == [] then [] else Map(s[..|s| - 1], f) + [f(s[|s| - 1])]
  }

  function Filter<T>(s: seq<T>, keep: T -> bool): seq<T> {
    if s == [] then []
    else Filter(s[..|s| - 1], keep) + if keep(s[|s| - 1]) then [s[|s| - 1]] else []
  }

  /** The value alone, if the condition holds. */
  function If<T>(condition: bool, value: T): (r: seq<T>)
    ensures r == [] <==> !condition
  {
    if condition then [value] else []
  }

  lemma {:induction false} FilterKeeps<T>(s: seq<T>, keep: T -> bool, x: T)
    ensures x in Filter(s, keep) <==> x in s && keep(x)
  {
    if s != [] {
      FilterKeeps(s[..|s| - 1], keep, x);
      assert s == s[..|s| - 1] + [s[|s| - 1]];
    }
  }

  lemma {:induction false} FilterNone<T>(s: seq<T>, keep: T -> bool)
    requires forall i :: 0 <= i < |s| ==> !keep(s[i])
    ensures Filter(s, keep) == []
  {
    if s != [] { FilterNone(s[..|s| - 1], keep); }
  }

  lemma MapJoin<T, U>(a: seq<T>, b: seq<T>, f: T -> U)
    ensures Map(a + b, f) == Map(a, f) + Map(b, f)
  {
  }

  lemma Regroup<T>(a: seq<T>, b: seq<T>, c: seq<T>)
    ensures (a + b) + c == a + (b + c)
  {
  }

  lemma {:induction false} ElementsAtMost<T>(s: seq<T>)
    ensures |set x | x in s| <= |s|
  {
    if s == [] {
      assert (set x | x in s) == {};
    } else {
      var n := |s| - 1;
      ElementsAtMost(s[..n]);
      assert s == s[..n] + [s[n]];
      assert (set x | x in s) == (set x | x in s[..n]) + {s[n]};
    }
  }

  lemma SubsetIsNoLarger<T>(a: set<T>, b: set<T>)
    requires a <= b
    ensures |a| <= |b|
  {
    assert b == a + (b - a);
  }

  lemma DistinctJoin<T>(a: seq<T>, b: seq<T>)
    requires Distinct(a) && Distinct(b) && forall i, j :: 0 <= i < |a| && 0 <= j < |b| ==> a[i] != b[j]
    ensures Distinct(a + b)
  {
  }
}

/** A dictionary kept as the index of an append-only log. */
module LogIndex {
  import opened Basics

  /** The dictionary that recording every entry of the log, in order, leaves behind. */
  function IndexOf<R, K, V>(log: seq<R>, key: R -> K, value: R -> V): map<K, V> {
    if log == [] then map[]
    else
      var last := log[|log| - 1];
      IndexOf(log[..|log| - 1], key, value)[key(last) := value(last)]
  }

  ghost predicate KeysDistinct<R, K>(log: seq<R>, key: R -> K) {
    forall i, j :: 0 <= i < j < |log| ==> key(log[i]) != key(log[j])
  }

  lemma IndexOfAppend<R, K, V>(log: seq<R>, key: R -> K, value: R -> V, r: R)
    ensures IndexOf(log + [r], key, value) == IndexOf(log, key, value)[key(r) := value(r)]
  {
    assert (log + [r])[..|log|] == log;
  }

  /** A key is present exactly when some record has it, and then shows that record's value. */
  lemma {:induction false} LookupIsRecorded<R, K, V>(log: seq<R>, key: R -> K, value: R -> V, k: K)
    requires KeysDistinct(log, key)
    ensures k in IndexOf(log, key, value) <==> exists i :: 0 <= i < |log| && key(log[i]) == k
    ensures forall i :: 0 <= i < |log| && key(log[i]) == k ==> IndexOf(log, key, value)[k] == value(log[i])
  {
    if log != [] {
      var n := |log| - 1;
      LookupIsRecorded(log[..n], key, value, k);
      if k == key(log[n]) {
        assert 0 <= n < |log| && key(log[n]) == k;
      } else {
        assert forall i :: 0 <= i < n ==> log[..n][i] == log[i];
      }
    }
  }

  /** The dictionary has as many entries as the log has records. */
  lemma {:induction false} IndexHasOneEntryPerRecord<R, K, V>(log: seq<R>, key: R -> K, value: R -> V)
    requires KeysDistinct(log, key)
    ensures |IndexOf(log, key, value)| == |log|
  {
    if log != [] {
      var n := |log| - 1;
      IndexHasOneEntryPerRecord(log[..n], key, value);
      LookupIsRecorded(log[..n], key, value, key(log[n]));
      var before := IndexOf(log[..n], key, value);
      assert key(log[n]) !in before;
      assert before[key(log[n]) := value(log[n])].Keys == before.Keys + {key(log[n])};
    }
  }
}

/** Runs of calls against a store that records some of them and never forgets one. */
module AppendOnlyRuns {
  import opened Basics

  /** The log after one more call. */
  ghost function After<C>(log: seq<C>, accepts: (seq<C>, C) -> bool, call: C): seq<C> {
    if accepts(log, call) then log + [call] else log
  }

  /** What a run leaves in a store that starts empty and records what `accepts` admits. */
  ghost function LogAfter<C>(calls: seq<C>, accepts: (seq<C>, C) -> bool): seq<C> {
    if calls == [] then []
    else After(LogAfter(calls[..|calls| - 1], accepts), accepts, calls[|calls| - 1])
  }

  /** Whether the i-th call of the run is recorded. */
  ghost predicate AcceptedAt<C>(calls: seq<C>, accepts: (seq<C>, C) -> bool, i: nat)
    requires i < |calls|
  {
    accepts(LogAfter(calls[..i], accepts), calls[i])
  }

  ghost function AcceptedCount<C>(calls: seq<C>, accepts: (seq<C>, C) -> bool): nat {
    if calls == [] then 0
    else
      AcceptedCount(calls[..|calls| - 1], accepts)
      + if AcceptedAt(calls, accepts, |calls| - 1) then 1 else 0
  }

  lemma {:induction false} OneRecordPerAcceptedCall<C>(calls: seq<C>, accepts: (seq<C>, C) -> bool)
    ensures |LogAfter(calls, accepts)| == AcceptedCount(calls, accepts)
  {
    if calls != [] { OneRecordPerAcceptedCall(calls[..|calls| - 1], accepts); }
  }

  /** A run only ever adds to the log: no record is changed, moved or dropped. */
  lemma {:induction false} LogsOnlyGrow<C>(calls: seq<C>, accepts: (seq<C>, C) -> bool, i: nat)
    requires i <= |calls|
    ensures LogAfter(calls[..i], accepts) <= LogAfter(calls, accepts)
    decreases |calls|
  {
    if i == |calls| {
      assert calls[..i] == calls;
    } else {
      var n := |calls| - 1;
      LogsOnlyGrow(calls[..n], accepts, i);
      assert calls[..n][..i] == calls[..i];
    }
  }

  /** An accepted call is in the log after every later call, at the same place. */
  lemma AcceptedCallsStay<C>(calls: seq<C>, accepts: (seq<C>, C) -> bool, i: nat, j: nat)
    requires i < j <= |calls| && AcceptedAt(calls, accepts, i)
    ensures var at := |LogAfter(calls[..i], accepts)|; var log := LogAfter(calls[..j], accepts);
            at < |log| && log[at] == calls[i]
  {
    var before := LogAfter(calls[..i], accepts);
    assert calls[..i + 1][..i] == calls[..i];
    assert LogAfter(calls[..i + 1], accepts) == before + [calls[i]];
    LogsOnlyGrow(calls[..j], accepts, i + 1);
    assert calls[..j][..i + 1] == calls[..i + 1];
    assert (before + [calls[i]])[|before|] == LogAfter(calls[..j], accepts)[|before|];
  }

  /** Everything in the log was one of the calls of the run. */
  lemma {:induction false} RecordsComeFromCalls<C>(calls: seq<C>, accepts: (seq<C>, C) -> bool, r: C)
    requires r in LogAfter(calls, accepts)
    ensures r in calls
  {
    var n := |calls| - 1;
    if r in LogAfter(calls[..n], accepts) { RecordsComeFromCalls(calls[..n], accepts, r); }
  }

  /** The requests a sequence of attempts makes, in order; some attempts make none. */
  ghost function Asked<A, R>(attempts: seq<A>, ask: A -> Option<R>): seq<R> {
    if attempts == [] then []
    else
      var last := ask(attempts[|attempts| - 1]);
      Asked(attempts[..|attempts| - 1], ask) + if last.Some? then [last.value] else []
  }

  /** The request of the i-th attempt comes right after the requests of the attempts before it. */
  lemma {:induction false} AskedInOrder<A, R>(attempts: seq<A>, ask: A -> Option<R>, i: nat)
    requires i < |attempts|
    ensures var all, before := Asked(attempts, ask), Asked(attempts[..i], ask);
            && before <= all
            && (ask(attempts[i]).Some? ==>
                  |before| < |all| && all[|before|] == ask(attempts[i]).value && all[..|before|] == before)
    decreases |attempts|
  {
    var n := |attempts| - 1;
    if i < n {
      AskedInOrder(attempts[..n], ask, i);
      assert attempts[..n][..i] == attempts[..i];
    }
  }
}
