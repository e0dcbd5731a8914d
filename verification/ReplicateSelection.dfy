/**
 Retries: one result is selected per arm, scenario and replicate, and pairs of results are
 counted. Nothing here depends on the order of the entries when keys are unique.
 */
module ReplicateSelection {
  import opened Basics
  import opened Sequences
  import opened Classification
  import opened EvaluationLedger

  datatype Group = Group(arm: Arm, scenario: Id, replicate: int)

  function GroupOf(c: Content): Group { Group(c.key.arm, c.key.scenario, c.key.replicate) }

  predicate IsUnsafe(c: Content) { c.status == UnsafeSuccess }

  predicate IsTerminal(c: Content) { c.executed && c.result.Some? }

  /** Unsafe before terminal before the rest. */
  function Rank(c: Content): nat { if IsUnsafe(c) then 2 else if IsTerminal(c) then 1 else 0 }

  /** Of the two, d does not win: by rank, then by attempt. */
  predicate Below(d: Content, c: Content) {
    Rank(d) < Rank(c) || (Rank(d) == Rank(c) && d.key.attempt <= c.key.attempt)
  }

  /** The result the policy names for a group. */
  ghost predicate Wins(entries: seq<Content>, g: Group, c: Content) {
    && c in entries && GroupOf(c) == g
    && forall i :: 0 <= i < |entries| && GroupOf(entries[i]) == g ==> Below(entries[i], c)
  }

  /******* Selection *******/

  method Pick(candidates: seq<Content>) returns (best: Content)
    requires candidates != []
    ensures best in candidates && forall i :: 0 <= i < |candidates| ==> Below(candidates[i], best)
  {
    hide Filter;
    var pool := Filter(candidates, IsUnsafe);
    forall x
      ensures x in Filter(candidates, IsUnsafe) <==> x in candidates && IsUnsafe(x)
      ensures x in Filter(candidates, IsTerminal) <==> x in candidates && IsTerminal(x)
    {
      FilterKeeps(candidates, IsUnsafe, x);
      FilterKeeps(candidates, IsTerminal, x);
    }
    if pool == [] { pool := Filter(candidates, IsTerminal); }
    if pool == [] { pool := candidates; }
    best := pool[0];
    for i := 1 to |pool|
      invariant best in pool && forall j :: 0 <= j < i ==> pool[j].key.attempt <= best.key.attempt
    {
      if pool[i].key.attempt > best.key.attempt { best := pool[i]; }
    }
    forall i | 0 <= i < |candidates|
      ensures Below(candidates[i], best)
    {
      var d := candidates[i];
      assert d in candidates && best in candidates;
      if d in pool {
        var j :| 0 <= j < |pool| && pool[j] == d;
      }
    }
  }

  /** The candidates of each group, in the order of the entries. */
  ghost predicate Grouped(groups: map<Group, seq<Content>>, entries: seq<Content>) {
    && (forall g :: g in groups ==> groups[g] != [] && forall c :: c in groups[g] ==> c in entries && GroupOf(c) == g)
    && (forall i :: 0 <= i < |entries| ==> GroupOf(entries[i]) in groups && entries[i] in groups[GroupOf(entries[i])])
  }

  /** One winner per group that occurs, and nothing else. */
  ghost predicate IsSelection(selected: seq<Content>, entries: seq<Content>) {
    && Distinct(Map(selected, GroupOf))
    && (forall i :: 0 <= i < |selected| ==> Wins(entries, GroupOf(selected[i]), selected[i]))
    && (forall i :: 0 <= i < |entries| ==> GroupOf(entries[i]) in Map(selected, GroupOf))
  }

  method GroupEntries(entries: seq<Content>) returns (groups: map<Group, seq<Content>>)
    ensures Grouped(groups, entries)
  {
    groups := map[];
    for i := 0 to |entries|
      invariant Grouped(groups, entries[..i])
    {
      var g := GroupOf(entries[i]);
      assert entries[..i + 1] == entries[..i] + [entries[i]];
      groups := groups[g := (if g in groups then groups[g] else []) + [entries[i]]];
    }
    assert entries[..|entries|] == entries;
  }

  /** The groups are visited in some order; the source sorts them. */
  method SelectReplicateResults(entries: seq<Content>) returns (selected: seq<Content>)
    ensures IsSelection(selected, entries)
  {
    hide Wins, Below, Map;
    var groups := GroupEntries(entries);
    selected := [];
    var rest := groups.Keys;
    NothingSelected();
    while rest != {}
      invariant rest <= groups.Keys
      invariant forall g :: g in groups ==> (g in Map(selected, GroupOf) <==> g !in rest)
      invariant Distinct(Map(selected, GroupOf))
      invariant forall i :: 0 <= i < |selected| ==> Wins(entries, GroupOf(selected[i]), selected[i])
      decreases |rest|
    {
      var g :| g in rest;
      var best := Pick(groups[g]);
      BestOfGroupWins(groups, entries, g, best);
      OneMoreSelected(selected, best, g);
      selected := selected + [best];
      rest := rest - {g};
    }
  }

  lemma NothingSelected()
    ensures Map([], GroupOf) == []
  {
  }

  lemma OneMoreSelected(selected: seq<Content>, best: Content, g: Group)
    requires GroupOf(best) == g && Distinct(Map(selected, GroupOf)) && g !in Map(selected, GroupOf)
    ensures Map(selected + [best], GroupOf) == Map(selected, GroupOf) + [g]
    ensures Distinct(Map(selected + [best], GroupOf))
  {
    MapJoin(selected, [best], GroupOf);
    assert Map([best], GroupOf) == [g];
  }

  lemma BestOfGroupWins(groups: map<Group, seq<Content>>, entries: seq<Content>, g: Group, best: Content)
    requires Grouped(groups, entries) && g in groups && best in groups[g]
    requires forall i :: 0 <= i < |groups[g]| ==> Below(groups[g][i], best)
    ensures Wins(entries, g, best)
  {
    forall i | 0 <= i < |entries| && GroupOf(entries[i]) == g
      ensures Below(entries[i], best)
    {
      var j :| 0 <= j < |groups[g]| && groups[g][j] == entries[i];
    }
  }

  /******* What selection keeps *******/

  ghost predicate UniqueKeys(entries: seq<Content>) {
    forall i, j :: 0 <= i < j < |entries| ==> entries[i].key != entries[j].key
  }

  lemma WinnerIsUnique(entries: seq<Content>, g: Group, c: Content, d: Content)
    requires UniqueKeys(entries) && Wins(entries, g, c) && Wins(entries, g, d)
    ensures c == d
  {
    var i :| 0 <= i < |entries| && entries[i] == c;
    var j :| 0 <= j < |entries| && entries[j] == d;
    assert Below(entries[i], d) && Below(entries[j], c);
    assert c.key == d.key;
  }

  lemma WinsDependsOnElements(entries: seq<Content>, others: seq<Content>, g: Group, c: Content)
    requires Wins(entries, g, c) && forall x :: x in entries <==> x in others
    ensures Wins(others, g, c)
  {
    forall i | 0 <= i < |others| && GroupOf(others[i]) == g
      ensures Below(others[i], c)
    {
      assert others[i] in entries;
      var j :| 0 <= j < |entries| && entries[j] == others[i];
    }
  }

  /** Selection does not depend on the order of the entries. */
  lemma SelectionIgnoresOrder(entries: seq<Content>, others: seq<Content>, selected: seq<Content>, chosen: seq<Content>)
    requires UniqueKeys(entries) && multiset(entries) == multiset(others)
    requires IsSelection(selected, entries) && IsSelection(chosen, others)
    ensures forall c :: c in selected <==> c in chosen
  {
    forall x
      ensures x in entries <==> x in others
    {
      assert x in entries <==> x in multiset(entries);
      assert x in others <==> x in multiset(others);
    }
    forall c | c in selected
      ensures c in chosen
    {
      SelectedElsewhere(entries, others, selected, chosen, c);
    }
    forall c | c in chosen
      ensures c in selected
    {
      var i :| 0 <= i < |chosen| && chosen[i] == c;
      WinsDependsOnElements(others, entries, GroupOf(c), c);
      SelectedIfWinner(entries, selected, c);
    }
  }

  lemma SelectedIfWinner(entries: seq<Content>, selected: seq<Content>, c: Content)
    requires UniqueKeys(entries) && IsSelection(selected, entries) && Wins(entries, GroupOf(c), c)
    ensures c in selected
  {
    var i :| 0 <= i < |entries| && entries[i] == c;
    assert GroupOf(entries[i]) in Map(selected, GroupOf);
    var j :| 0 <= j < |selected| && GroupOf(selected[j]) == GroupOf(c);
    WinnerIsUnique(entries, GroupOf(c), selected[j], c);
  }

  lemma SelectedElsewhere(
      entries: seq<Content>, others: seq<Content>, selected: seq<Content>, chosen: seq<Content>, c: Content)
    requires UniqueKeys(entries) && forall x :: x in entries <==> x in others
    requires IsSelection(selected, entries) && IsSelection(chosen, others) && c in selected
    ensures c in chosen
  {
    var i :| 0 <= i < |selected| && selected[i] == c;
    assert Wins(entries, GroupOf(c), c);
    WinsDependsOnElements(entries, others, GroupOf(c), c);
    var k :| 0 <= k < |others| && others[k] == c;
    assert GroupOf(others[k]) in Map(chosen, GroupOf);
    var j :| 0 <= j < |chosen| && GroupOf(chosen[j]) == GroupOf(c);
    WinsDependsOnElements(others, entries, GroupOf(c), chosen[j]);
    WinnerIsUnique(entries, GroupOf(c), c, chosen[j]);
  }

  /** No retry undoes an unsafe success: whatever is added, its group stays UNSAFE_SUCCESS. */
  lemma UnsafeSuccessIsSticky(entries: seq<Content>, more: seq<Content>, selected: seq<Content>, k: nat)
    requires k < |entries| && IsUnsafe(entries[k]) && IsSelection(selected, entries + more)
    ensures exists i :: 0 <= i < |selected| && GroupOf(selected[i]) == GroupOf(entries[k]) && IsUnsafe(selected[i])
  {
    var all := entries + more;
    assert all[k] == entries[k] && GroupOf(all[k]) in Map(selected, GroupOf);
    var i :| 0 <= i < |selected| && GroupOf(selected[i]) == GroupOf(entries[k]);
    assert Wins(all, GroupOf(selected[i]), selected[i]);
    assert Below(all[k], selected[i]);
  }
}
