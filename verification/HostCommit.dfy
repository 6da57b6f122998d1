/**
 The commit's own reading of the same hosts: it throws at the first conflict, orders the new hosts
 by their jumps and creates them.
 */
module HostCommit {
  import opened Common
  import opened SuccessorGraph
  import opened HostPlans
  import opened HostPreview

  datatype CommitError =
    | DuplicateConflict | ConnectionConflict | MissingJump | TargetConflict | Cycle | NotRebindable | DifferentJump

  // ----- plans -----

  /** The aliases in order of first appearance. */
  function Order(items: seq<Parsed>): seq<Alias> {
    if items == [] then [] else
      var order := Order(items[..|items| - 1]);
      if items[|items| - 1].alias in order then order else order + [items[|items| - 1].alias]
  }

  function NewPlan(item: Parsed, saved: map<Alias, SavedHost>): Plan {
    Plan(item, if item.alias in saved then Some(saved[item.alias]) else None)
  }

  /** The first item of each alias, paired with the saved host of that name. */
  function Plans(items: seq<Parsed>, saved: map<Alias, SavedHost>): map<Alias, Plan> {
    if items == [] then map[] else
      var plans := Plans(items[..|items| - 1], saved);
      var item := items[|items| - 1];
      if item.alias in plans then plans else plans[item.alias := NewPlan(item, saved)]
  }

  predicate Distinct<T(==)>(s: seq<T>) {
    forall i, j :: 0 <= i < j < |s| ==> s[i] != s[j]
  }

  lemma {:induction false} PlansFacts(items: seq<Parsed>, saved: map<Alias, SavedHost>)
    ensures Distinct(Order(items))
    ensures forall a :: a in Order(items) <==> a in Plans(items, saved)
    ensures forall item :: item in items ==> item.alias in Plans(items, saved)
    ensures forall a :: a in Plans(items, saved) ==>
                          && Plans(items, saved)[a].parsed in items
                          && Plans(items, saved)[a].parsed.alias == a
                          && Plans(items, saved)[a] == NewPlan(Plans(items, saved)[a].parsed, saved)
  {
    if items != [] {
      PlansFacts(items[..|items| - 1], saved);
      assert items == items[..|items| - 1] + [items[|items| - 1]];
    }
  }

  /** A plan is made from the first item of its alias. */
  lemma {:induction false} PlanIsFirst(items: seq<Parsed>, saved: map<Alias, SavedHost>, k: nat)
    requires k < |items| && forall j :: 0 <= j < k ==> items[j].alias != items[k].alias
    ensures items[k].alias in Plans(items, saved) && Plans(items, saved)[items[k].alias].parsed == items[k]
  {
    var init := items[..|items| - 1];
    if k < |init| {
      PlanIsFirst(init, saved, k);
    } else {
      PlansFacts(init, saved);
    }
  }

  predicate DistinctAliases(items: seq<Parsed>) {
    forall i, j :: 0 <= i < j < |items| ==> items[i].alias != items[j].alias
  }

  lemma {:induction false} DistinctAliasPlan(items: seq<Parsed>, saved: map<Alias, SavedHost>, k: nat)
    requires DistinctAliases(items) && k < |items|
    ensures items[k].alias in Plans(items, saved)
    ensures Plans(items, saved)[items[k].alias] == NewPlan(items[k], saved)
  {
    var init := items[..|items| - 1];
    PlansFacts(init, saved);
    if k < |init| {
      DistinctAliasPlan(init, saved, k);
    }
  }

  predicate SameParsedConnection(left: Parsed, right: Parsed) {
    && left.facts.hostname == right.facts.hostname
    && left.facts.username == right.facts.username
    && left.facts.port == right.facts.port
    && |left.proxyJumps| == |right.proxyJumps|
    && forall k :: 0 <= k < |left.proxyJumps| ==> left.proxyJumps[k].raw == right.proxyJumps[k].raw
  }

  predicate Compatible(plan: Plan) {
    plan.existing.Some? ==> plan.existing.value.facts == plan.parsed.facts
  }

  // ----- what commit accepts -----

  function PlanOrFirst(plans: map<Alias, Plan>, hosts: seq<SavedHost>, a: Alias): Option<SavedHost> {
    if a in plans && plans[a].existing.Some? then plans[a].existing
    else if a in FirstByAlias(hosts) then Some(FirstByAlias(hosts)[a])
    else None
  }

  function CommitStep(plans: map<Alias, Plan>, hosts: seq<SavedHost>, desired: map<Alias, Alias>, a: Alias)
    : Option<Alias>
  {
    if a in plans then (if a in desired then Some(desired[a]) else None)
    else SavedStep(hosts, if a in LastByAlias(hosts) then Some(LastByAlias(hosts)[a]) else None)
  }

  function CommitNext(plans: map<Alias, Plan>, hosts: seq<SavedHost>, desired: map<Alias, Alias>): map<Alias, Alias> {
    map a | a in Universe(plans, hosts, desired) && CommitStep(plans, hosts, desired, a).Some?
      :: CommitStep(plans, hosts, desired, a).value
  }

  /** A saved plan keeps exactly the jump it has. */
  predicate KeepsJump(plans: map<Alias, Plan>, hosts: seq<SavedHost>, desired: map<Alias, Alias>, a: Alias) {
    a in plans && plans[a].existing.Some? ==>
      var target := if a in desired then PlanOrFirst(plans, hosts, desired[a]) else None;
      && (a in desired ==> target.Some?)
      && plans[a].existing.value.jumpHostId == (if target.Some? then Some(target.value.id) else None)
  }

  /** Item k repeats the connection of the first item of its alias. */
  ghost predicate Agrees(items: seq<Parsed>, k: nat)
    requires k < |items|
  {
    var plans := Plans(items, map[]);
    items[k].alias in plans && SameParsedConnection(plans[items[k].alias].parsed, items[k])
  }

  ghost predicate DuplicatesAgree(items: seq<Parsed>) {
    forall k :: 0 <= k < |items| ==> Agrees(items, k)
  }

  ghost predicate Accepts(items: seq<Parsed>, hosts: seq<SavedHost>) {
    var plans := Plans(items, FirstByAlias(hosts));
    && DuplicatesAgree(items)
    && (forall a :: a in plans ==> Compatible(plans[a]))
    && EdgesClean(plans, hosts)
    && JumpsAccepted(plans, hosts, EdgeMap(AllEdges(plans, hosts)))
  }

  /** No cycle is in reach of the import, and every saved plan keeps its jump. */
  ghost predicate JumpsAccepted(plans: map<Alias, Plan>, hosts: seq<SavedHost>, desired: map<Alias, Alias>) {
    && (forall a :: a in plans ==> Terminates(CommitNext(plans, hosts, desired), a))
    && (forall a :: a in plans ==> KeepsJump(plans, hosts, desired, a))
  }

  // ----- checks -----

  /** Comparing with the first item seen so far is comparing with the first item of all. */
  lemma AgreesSoFar(items: seq<Parsed>, i: nat)
    requires i < |items|
    ensures items[i].alias in Plans(items[..i], map[]) <==> items[i].alias in Order(items[..i])
    ensures var before := Plans(items[..i], map[]);
            Agrees(items, i) <==>
            (items[i].alias in before ==> SameParsedConnection(before[items[i].alias].parsed, items[i]))
  {
    PlansFacts(items[..i], map[]);
    PlansGrow(items, i, map[]);
    PlansGrow(items, i + 1, map[]);
    assert items[..i + 1][..i] == items[..i];
    var before := Plans(items[..i], map[]);
    if items[i].alias in before {
      assert Plans(items, map[])[items[i].alias] == before[items[i].alias];
    } else {
      assert Plans(items[..i + 1], map[])[items[i].alias] == NewPlan(items[i], map[]);
      assert Plans(items, map[])[items[i].alias] == NewPlan(items[i], map[]);
    }
  }

  /** One item per alias; a repeated alias must repeat the connection of the first item. */
  method CollectSources(items: seq<Parsed>) returns (sources: Option<map<Alias, Plan>>, order: seq<Alias>)
    ensures sources.Some? <==> DuplicatesAgree(items)
    ensures sources.Some? ==> sources.value == Plans(items, map[]) && order == Order(items)
  {
    var sourceByName: map<Alias, Plan> := map[];
    order := [];
    for i := 0 to |items|
      invariant sourceByName == Plans(items[..i], map[]) && order == Order(items[..i])
      invariant forall k :: 0 <= k < i ==> Agrees(items, k)
    {
      var item := items[i];
      assert items[..i + 1][..i] == items[..i];
      AgreesSoFar(items, i);
      if item.alias !in sourceByName {
        sourceByName := sourceByName[item.alias := NewPlan(item, map[])];
        order := order + [item.alias];
      } else if !SameParsedConnection(sourceByName[item.alias].parsed, item) {
        sources := None;
        return;
      }
    }
    assert items[..|items|] == items;
    sources := Some(sourceByName);
  }

  /** The first phases of commit: one plan per alias, duplicates and saved hosts must agree with it. */
  method BuildPlans(items: seq<Parsed>, existingByName: map<Alias, SavedHost>)
    returns (r: Result<map<Alias, Plan>, CommitError>, order: seq<Alias>)
    ensures r.Ok? ==> order == Order(items)
    ensures r.Ok? <==> DuplicatesAgree(items) && forall a :: a in Plans(items, existingByName) ==>
                                                               Compatible(Plans(items, existingByName)[a])
    ensures r.Ok? ==> r.value == Plans(items, existingByName)
    ensures r.Err? ==> r.error == if DuplicatesAgree(items) then ConnectionConflict else DuplicateConflict
  {
    var sources;
    sources, order := CollectSources(items);
    if sources.None? {
      r := Err(DuplicateConflict);
      return;
    }
    SavedPlans(items, existingByName);
    var plans: map<Alias, Plan> := map[];
    for i := 0 to |order|
      invariant plans.Keys == set a | a in order[..i]
      invariant forall a :: a in plans ==> plans[a] == Plans(items, existingByName)[a] && Compatible(plans[a])
    {
      var plan := NewPlan(sources.value[order[i]].parsed, existingByName);
      if !Compatible(plan) {
        r := Err(ConnectionConflict);
        return;
      }
      plans := plans[order[i] := plan];
    }
    assert order[..|order|] == order;
    r := Ok(plans);
  }

  /** Later items never change the plan of an alias already seen. */
  lemma {:induction false} PlansGrow(items: seq<Parsed>, i: nat, saved: map<Alias, SavedHost>)
    requires i <= |items|
    ensures forall a :: a in Plans(items[..i], saved) ==>
                          a in Plans(items, saved) && Plans(items, saved)[a] == Plans(items[..i], saved)[a]
  {
    if i < |items| {
      PlansGrow(items[..|items| - 1], i, saved);
      assert items[..|items| - 1][..i] == items[..i];
    } else {
      assert items[..i] == items;
    }
  }

  lemma {:induction false} SavedPlans(items: seq<Parsed>, saved: map<Alias, SavedHost>)
    ensures Plans(items, saved).Keys == Plans(items, map[]).Keys == set a | a in Order(items)
    ensures forall a :: a in Plans(items, saved) ==>
                          && Plans(items, saved)[a] == NewPlan(Plans(items, map[])[a].parsed, saved)
  {
    PlansFacts(items, saved);
    PlansFacts(items, map[]);
    if items != [] {
      SavedPlans(items[..|items| - 1], saved);
    }
  }

  /** Records one desired edge, or fails where the original throws. */
  method SetDesiredEdge(desired: map<Alias, Alias>, source: Alias, target: Alias, ghost processed: set<Edge>)
    returns (r: Result<map<Alias, Alias>, CommitError>)
    requires Records(desired, processed)
    ensures r.Ok? ==> Records(r.value, processed + {Edge(source, target)})
    ensures r.Err? ==> !Consistent(processed + {Edge(source, target)})
    ensures r.Err? ==> r.error == if source == target then Cycle else TargetConflict
  {
    assert Edge(source, target) in processed + {Edge(source, target)};
    if source == target { return Err(Cycle); }
    if source in desired && desired[source] != target {
      assert Edge(source, desired[source]) in processed;
      return Err(TargetConflict);
    }
    r := Ok(desired[source := target]);
  }

  predicate IsEdgeError(e: CommitError) {
    e.MissingJump? || e.Cycle? || e.TargetConflict?
  }

  /** Adds the edges between the hops of one plan; last is the alias of its final hop. */
  method AddHopEdges(
    owner: Alias, plans: map<Alias, Plan>, hosts: seq<SavedHost>, resolver: AliasResolver,
    start: map<Alias, Alias>, ghost before: set<Edge>
  ) returns (r: Result<map<Alias, Alias>, CommitError>, last: Option<Alias>)
    requires owner in plans && Records(start, before)
    requires resolver.Valid() && resolver.plans == plans && resolver.hosts == hosts
    ensures r.Ok? ==>
              var hops := Hops(plans, hosts, owner);
              && hops.Some?
              && Records(r.value, before + HopEdges(hops.value))
              && last == if hops.value == [] then None else Some(hops.value[|hops.value| - 1])
    ensures r.Err? ==> HopsFail(plans, hosts, owner, before) && IsEdgeError(r.error)
  {
    var jumps := plans[owner].parsed.proxyJumps;
    ghost var hops: seq<Alias> := [];
    ghost var edges := before;
    last := None;
    r := Ok(start);
    for k := 0 to |jumps|
      invariant HopsRead(plans, hosts, jumps, k, hops, last)
      invariant r.Ok? && Records(r.value, edges) && edges == before + HopEdges(hops)
    {
      var alias := resolver.ResolveAlias(jumps[k]);
      ReadHop(plans, hosts, jumps, k, hops, last);
      if alias.None? {
        StageFails(plans, hosts, owner, before, k + 1);
        r := Err(MissingJump);
        return;
      }
      hops := hops + [alias.value];
      if last.Some? {
        r := SetDesiredEdge(r.value, alias.value, last.value, edges);
        edges := edges + {Edge(alias.value, last.value)};
        assert edges == before + HopEdges(hops);
        if r.Err? {
          StageFails(plans, hosts, owner, before, k + 1);
          return;
        }
      }
      last := alias;
    }
    assert jumps[..|jumps|] == jumps;
  }

  /** Adds the edges of one plan. */
  method AddOwnerEdges(
    owner: Alias, plans: map<Alias, Plan>, hosts: seq<SavedHost>, resolver: AliasResolver,
    start: map<Alias, Alias>, ghost done: set<Alias>
  ) returns (r: Result<map<Alias, Alias>, CommitError>)
    requires owner in plans && done <= plans.Keys && Records(start, EdgesOf(done, plans, hosts))
    requires resolver.Valid() && resolver.plans == plans && resolver.hosts == hosts
    ensures r.Ok? ==>
              Hops(plans, hosts, owner).Some? && Records(r.value, EdgesOf(done + {owner}, plans, hosts))
    ensures r.Err? ==> !EdgesClean(plans, hosts) && IsEdgeError(r.error)
  {
    var last;
    ghost var before := EdgesOf(done, plans, hosts);
    r, last := AddHopEdges(owner, plans, hosts, resolver, start, before);
    AddOwner(plans, hosts, done, owner);
    if r.Err? {
      HopsFailAll(plans, hosts, owner, before);
      return;
    }
    if last.Some? {
      r := SetDesiredEdge(r.value, owner, last.value, before + HopEdges(Hops(plans, hosts, owner).value));
    }
  }

  method CollectDesiredEdges(
    order: seq<Alias>, plans: map<Alias, Plan>, hosts: seq<SavedHost>, resolver: AliasResolver
  ) returns (r: Result<map<Alias, Alias>, CommitError>)
    requires forall a :: a in order <==> a in plans
    requires resolver.Valid() && resolver.plans == plans && resolver.hosts == hosts
    ensures r.Ok? <==> EdgesClean(plans, hosts)
    ensures r.Ok? ==> r.value == EdgeMap(AllEdges(plans, hosts))
    ensures r.Err? ==> IsEdgeError(r.error)
  {
    r := Ok(map[]);
    ghost var done: set<Alias> := {};
    for i := 0 to |order|
      invariant done == set a | a in order[..i]
      invariant r.Ok? && Records(r.value, EdgesOf(done, plans, hosts))
      invariant AllResolve(done, plans, hosts)
    {
      r := AddOwnerEdges(order[i], plans, hosts, resolver, r.value, done);
      if r.Err? { return; }
      done := done + {order[i]};
    }
    assert order[..|order|] == order;
    assert done == plans.Keys;
    RecordsFacts(r.value, AllEdges(plans, hosts));
  }

  /** Plan k is the first that does not keep its jump, and this is what is wrong with it. */
  predicate RebindFails(
    order: seq<Alias>, plans: map<Alias, Plan>, hosts: seq<SavedHost>, desired: map<Alias, Alias>, k: nat,
    e: CommitError)
    requires k < |order|
  {
    && !KeepsJump(plans, hosts, desired, order[k])
    && (forall j :: 0 <= j < k ==> KeepsJump(plans, hosts, desired, order[j]))
    && e == if order[k] in desired && PlanOrFirst(plans, hosts, desired[order[k]]).None?
            then NotRebindable else DifferentJump
  }

  /** A saved plan cannot be rebound, neither to a new host nor to another saved one. */
  method CheckSavedPlans(
    order: seq<Alias>, plans: map<Alias, Plan>, hosts: seq<SavedHost>, existingByName: map<Alias, SavedHost>,
    desired: map<Alias, Alias>
  ) returns (r: Option<CommitError>)
    requires forall a :: a in order <==> a in plans
    requires existingByName == FirstByAlias(hosts)
    ensures r.None? <==> forall a :: a in plans ==> KeepsJump(plans, hosts, desired, a)
    ensures r.Some? ==> exists k :: 0 <= k < |order| && RebindFails(order, plans, hosts, desired, k, r.value)
  {
    for i := 0 to |order|
      invariant forall k :: 0 <= k < i ==> KeepsJump(plans, hosts, desired, order[k])
    {
      var a := order[i];
      if plans[a].existing.Some? {
        var target := if a in desired then PlanOrFirst(plans, hosts, desired[a]) else None;
        if a in desired && target.None? {
          assert RebindFails(order, plans, hosts, desired, i, NotRebindable);
          return Some(NotRebindable);
        }
        if plans[a].existing.value.jumpHostId != (if target.Some? then Some(target.value.id) else None) {
          assert RebindFails(order, plans, hosts, desired, i, DifferentJump);
          return Some(DifferentJump);
        }
      }
    }
    assert forall a :: a in plans ==> a in order;
    r := None;
  }

  // ----- dependency order of the new hosts -----

  predicate IsNew(plans: map<Alias, Plan>, a: Alias) {
    a in plans && plans[a].existing.None?
  }

  ghost predicate EndsWithin(next: map<Alias, Alias>, a: Alias, n: int) {
    exists m: nat :: m <= n && Ends(next, a, m)
  }

  /** The k-th host comes after the host it jumps through, if that host is new. */
  predicate JumpBefore(plans: map<Alias, Plan>, desired: map<Alias, Alias>, output: seq<Alias>, k: nat)
    requires k < |output|
  {
    output[k] in desired && IsNew(plans, desired[output[k]]) ==> desired[output[k]] in output[..k]
  }

  predicate DependenciesFirst(plans: map<Alias, Plan>, desired: map<Alias, Alias>, output: seq<Alias>) {
    forall k :: 0 <= k < |output| ==> JumpBefore(plans, desired, output, k)
  }

  lemma AppendDependent(plans: map<Alias, Plan>, desired: map<Alias, Alias>, output: seq<Alias>, a: Alias)
    requires DependenciesFirst(plans, desired, output)
    requires a in desired && IsNew(plans, desired[a]) ==> desired[a] in output
    ensures DependenciesFirst(plans, desired, output + [a])
  {
    forall k | 0 <= k < |output + [a]| ensures JumpBefore(plans, desired, output + [a], k) {
      if k < |output| {
        assert JumpBefore(plans, desired, output, k) && (output + [a])[..k] == output[..k];
      } else {
        assert (output + [a])[..k] == output;
      }
    }
  }

  class TopologicalHosts {
    const plans: map<Alias, Plan>
    const desired: map<Alias, Alias>
    ghost const next: map<Alias, Alias>
    var output: seq<Alias>
    var visited: set<Alias>

    /** Every listed host is new, listed once, and comes after its new jump host. */
    ghost predicate Valid()
      reads this
    {
      && (forall a :: a in visited <==> a in output)
      && Distinct(output)
      && (forall a :: a in output ==> IsNew(plans, a))
      && DependenciesFirst(plans, desired, output)
      && (forall a :: a in plans ==> (a in next <==> a in desired))
      && (forall a :: a in plans && a in desired ==> next[a] == desired[a])
    }

    constructor (plans: map<Alias, Plan>, desired: map<Alias, Alias>, ghost next: map<Alias, Alias>)
      requires forall a :: a in plans ==> (a in next <==> a in desired)
      requires forall a :: a in plans && a in desired ==> next[a] == desired[a]
      ensures Valid() && this.plans == plans && this.desired == desired && this.next == next && output == []
    {
      this.plans := plans;
      this.desired := desired;
      this.next := next;
      output := [];
      visited := {};
    }

    /** The walk from alias has n steps left; everything it adds has at most n. */
    method Visit(alias: Alias, ghost n: nat)
      requires Valid() && Ends(next, alias, n)
      modifies this
      ensures Valid() && old(output) <= output
      ensures IsNew(plans, alias) ==> alias in output
      ensures forall a :: a in output && a !in old(output) ==> EndsWithin(next, a, n)
      decreases n
    {
      if alias in visited { return; }
      if alias !in plans || plans[alias].existing.Some? { return; }
      if alias in desired {
        Visit(desired[alias], n - 1);
      }
      if alias in output {
        ghost var m: nat :| m < n && Ends(next, alias, m);
        EndsOnce(next, alias, m, n);
      }
      assert EndsWithin(next, alias, n);
      AppendDependent(plans, desired, output, alias);
      visited := visited + {alias};
      output := output + [alias];
    }
  }

  /** Given an acyclic plan, lists each new host exactly once and after its new jump host. */
  method TopologicalNewHosts(
    order: seq<Alias>, plans: map<Alias, Plan>, desired: map<Alias, Alias>, ghost next: map<Alias, Alias>
  ) returns (output: seq<Alias>)
    requires forall a :: a in order <==> a in plans
    requires forall a :: a in plans ==> (a in next <==> a in desired)
    requires forall a :: a in plans && a in desired ==> next[a] == desired[a]
    requires forall a :: a in plans ==> Terminates(next, a)
    ensures Distinct(output)
    ensures forall a :: a in output <==> IsNew(plans, a)
    ensures DependenciesFirst(plans, desired, output)
  {
    var search := new TopologicalHosts(plans, desired, next);
    for i := 0 to |order|
      invariant search.Valid() && fresh(search)
      invariant search.plans == plans && search.desired == desired && search.next == next
      invariant forall a :: a in order[..i] && IsNew(plans, a) ==> a in search.output
    {
      assert Terminates(next, order[i]);
      ghost var n: nat :| Ends(next, order[i], n);
      search.Visit(order[i], n);
    }
    assert order[..|order|] == order;
    output := search.output;
  }
}
