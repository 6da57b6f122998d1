/** The preview's ProxyJump checker: it collects problems per parsed host instead of throwing. */
module HostPreview {
  import opened Common
  import opened SuccessorGraph
  import opened HostPlans

  datatype Problem =
    | MissingProxyJump(jump: string)
    | ConflictingTargets(source: Alias, first: Alias, second: Alias)
    | DifferentSavedJump(source: Alias)
    | AbsentSavedJump(source: Alias)
    | JumpCycle(through: seq<Alias>)

  function PlanOrLast(plans: map<Alias, Plan>, hosts: seq<SavedHost>, a: Alias): Option<SavedHost> {
    if a in plans && plans[a].existing.Some? then plans[a].existing
    else if a in LastByAlias(hosts) then Some(LastByAlias(hosts)[a])
    else None
  }

  function SavedStep(hosts: seq<SavedHost>, saved: Option<SavedHost>): Option<Alias> {
    if saved.Some? && saved.value.jumpHostId.Some? && saved.value.jumpHostId.value in AliasById(hosts)
    then Some(AliasById(hosts)[saved.value.jumpHostId.value])
    else None
  }

  function PreviewStep(plans: map<Alias, Plan>, hosts: seq<SavedHost>, desired: map<Alias, Alias>, a: Alias)
    : Option<Alias>
  {
    if a in desired then Some(desired[a]) else SavedStep(hosts, PlanOrLast(plans, hosts, a))
  }

  /** Every alias either checker can come across. */
  function Universe(plans: map<Alias, Plan>, hosts: seq<SavedHost>, desired: map<Alias, Alias>): set<Alias> {
    desired.Keys + plans.Keys + SavedAliases(hosts)
  }

  /** The preview's successor graph: desired edges first, then the saved jumps of everything known. */
  function PreviewNext(plans: map<Alias, Plan>, hosts: seq<SavedHost>, desired: map<Alias, Alias>): map<Alias, Alias> {
    map a | a in Universe(plans, hosts, desired) && PreviewStep(plans, hosts, desired, a).Some?
      :: PreviewStep(plans, hosts, desired, a).value
  }

  /** The edge out of a saved host must be the jump it already has. */
  predicate SavedJumpMatches(plans: map<Alias, Plan>, hosts: seq<SavedHost>, source: Alias, target: Alias) {
    var saved := PlanOrLast(plans, hosts, source);
    var jump := PlanOrLast(plans, hosts, target);
    saved.Some? ==> jump.Some? && saved.value.jumpHostId == Some(jump.value.id)
  }

  predicate SavedJumpAbsent(plans: map<Alias, Plan>, desired: map<Alias, Alias>, a: Alias) {
    a in plans && plans[a].existing.Some? && a !in desired && plans[a].existing.value.jumpHostId.Some?
  }

  ghost predicate EdgesClean(plans: map<Alias, Plan>, hosts: seq<SavedHost>) {
    AllResolve(plans.Keys, plans, hosts) && Consistent(AllEdges(plans, hosts))
  }

  /** Saved hosts keep their jumps: edges out of them match, and no saved jump is missing. */
  predicate SavedJumpsClean(plans: map<Alias, Plan>, hosts: seq<SavedHost>, desired: map<Alias, Alias>) {
    && (forall s :: s in desired ==> SavedJumpMatches(plans, hosts, s, desired[s]))
    && (forall a :: a in plans ==> !SavedJumpAbsent(plans, desired, a))
  }

  /** What a preview without ProxyJump problems means. */
  ghost predicate JumpsClean(plans: map<Alias, Plan>, hosts: seq<SavedHost>) {
    var desired := EdgeMap(AllEdges(plans, hosts));
    && EdgesClean(plans, hosts)
    && SavedJumpsClean(plans, hosts, desired)
    && (forall a :: a in plans ==> Terminates(PreviewNext(plans, hosts, desired), a))
  }

  class JumpProblems {
    const order: seq<Alias>
    const plans: map<Alias, Plan>
    const hosts: seq<SavedHost>
    var problems: map<nat, seq<Problem>>
    var desired: map<Alias, Alias>
    var owners: map<Alias, Alias>

    constructor (order: seq<Alias>, plans: map<Alias, Plan>, hosts: seq<SavedHost>)
      ensures this.order == order && this.plans == plans && this.hosts == hosts
      ensures problems == map[] && desired == map[] && owners == map[]
    {
      this.order := order;
      this.plans := plans;
      this.hosts := hosts;
      problems := map[];
      desired := map[];
      owners := map[];
    }

    ghost predicate Valid()
      reads this
    {
      && (forall a :: a in order <==> a in plans)
      && (forall s :: s in desired ==> s in owners && owners[s] in plans)
      && (forall id :: id in problems ==> exists a :: a in plans && plans[a].parsed.id == id)
    }

    /** While nothing was reported, the recorded edges are the processed ones. */
    ghost predicate Tracks(processed: set<Edge>)
      reads this
    {
      problems == map[] ==> Records(desired, processed)
    }

    method AddProblem(owner: Alias, problem: Problem)
      requires Valid() && owner in plans
      modifies this`problems
      ensures Valid() && problems != map[]
    {
      var id := plans[owner].parsed.id;
      var current := if id in problems then problems[id] else [];
      problems := problems[id := if problem in current then current else current + [problem]];
      assert id in problems;
    }

    method SetEdge(source: Alias, target: Alias, owner: Alias, ghost processed: set<Edge>)
      requires Valid() && owner in plans && Tracks(processed)
      modifies this
      ensures Valid() && Tracks(processed + {Edge(source, target)})
      ensures old(problems) != map[] ==> problems != map[]
      ensures problems != map[] ==> old(problems) != map[] || !Consistent(processed + {Edge(source, target)})
    {
      if source == target {
        AddProblem(owner, JumpCycle([source]));
        assert Edge(source, target) in processed + {Edge(source, target)};
        return;
      }
      if source in desired && desired[source] != target {
        AddProblem(owners[source], ConflictingTargets(source, desired[source], target));
        AddProblem(owner, ConflictingTargets(source, desired[source], target));
        assert Edge(source, target) in processed + {Edge(source, target)};
        return;
      }
      desired := desired[source := target];
      owners := owners[source := owner];
    }

    /** Record the edges between the hops of one plan; a missing destination ends its list. */
    method CollectHops(owner: Alias, resolver: AliasResolver, ghost before: set<Edge>) returns (last: Option<Alias>)
      requires Valid() && owner in plans && Tracks(before)
      requires resolver.Valid() && resolver.plans == plans && resolver.hosts == hosts
      modifies this
      ensures Valid()
      ensures problems == map[] ==> old(problems) == map[] && Hops(plans, hosts, owner).Some?
      ensures problems != map[] ==> old(problems) != map[] || HopsFail(plans, hosts, owner, before)
      ensures var hops := Hops(plans, hosts, owner);
              if hops.None? then last.None?
              else
                && last == (if hops.value == [] then None else Some(hops.value[|hops.value| - 1]))
                && Tracks(before + HopEdges(hops.value))
    {
      var jumps := plans[owner].parsed.proxyJumps;
      ghost var hops: seq<Alias> := [];
      ghost var edges := before;
      last := None;
      for k := 0 to |jumps|
        invariant HopsRead(plans, hosts, jumps, k, hops, last)
        invariant Valid() && Tracks(edges) && edges == before + HopEdges(hops)
        invariant problems == map[] ==> old(problems) == map[]
        invariant problems != map[] ==> old(problems) != map[] || HopsFail(plans, hosts, owner, before)
      {
        var alias := resolver.ResolveAlias(jumps[k]);
        ReadHop(plans, hosts, jumps, k, hops, last);
        if alias.None? {
          StageFails(plans, hosts, owner, before, k + 1);
          ResolveAllPrefix(plans, hosts, jumps, k + 1);
          AddProblem(owner, MissingProxyJump(jumps[k].raw));
          last := None;
          return;
        }
        hops := hops + [alias.value];
        if last.Some? {
          SetEdge(alias.value, last.value, owner, edges);
          edges := edges + {Edge(alias.value, last.value)};
          assert edges == before + HopEdges(hops);
          if !Consistent(edges) {
            StageFails(plans, hosts, owner, before, k + 1);
          }
        }
        last := alias;
      }
      assert jumps[..|jumps|] == jumps;
    }

    /** Record the edges of one plan. */
    method CollectOwner(owner: Alias, resolver: AliasResolver, ghost done: set<Alias>)
      requires Valid() && owner in plans && done <= plans.Keys && Tracks(EdgesOf(done, plans, hosts))
      requires resolver.Valid() && resolver.plans == plans && resolver.hosts == hosts
      modifies this
      ensures Valid() && Tracks(EdgesOf(done + {owner}, plans, hosts))
      ensures problems == map[] ==> old(problems) == map[] && Hops(plans, hosts, owner).Some?
      ensures problems != map[] ==> old(problems) != map[] || !EdgesClean(plans, hosts)
    {
      ghost var before := EdgesOf(done, plans, hosts);
      var last := CollectHops(owner, resolver, before);
      AddOwner(plans, hosts, done, owner);
      if HopsFail(plans, hosts, owner, before) {
        HopsFailAll(plans, hosts, owner, before);
      }
      if last.Some? {
        SetEdge(owner, last.value, owner, before + HopEdges(Hops(plans, hosts, owner).value));
      }
    }

    /** First pass: collect the desired edges of every plan. */
    method CollectEdges(resolver: AliasResolver)
      requires Valid() && problems == map[] && desired == map[]
      requires resolver.Valid() && resolver.plans == plans && resolver.hosts == hosts
      modifies this
      ensures Valid() && Tracks(AllEdges(plans, hosts))
      ensures problems == map[] <==> EdgesClean(plans, hosts)
    {
      ghost var done: set<Alias> := {};
      for i := 0 to |order|
        invariant Valid() && Tracks(EdgesOf(done, plans, hosts))
        invariant done == set a | a in order[..i]
        invariant problems == map[] ==> AllResolve(done, plans, hosts)
        invariant problems != map[] ==> !EdgesClean(plans, hosts)
      {
        CollectOwner(order[i], resolver, done);
        done := done + {order[i]};
      }
      assert order[..|order|] == order;
      assert done == plans.Keys;
      RecordsFacts(desired, AllEdges(plans, hosts));
    }

    /** Saved hosts cannot be rebound: every edge out of one is the jump it has. */
    method CheckSavedEdges()
      requires Valid()
      modifies this`problems
      ensures Valid()
      ensures problems == map[] <==>
                && old(problems) == map[]
                && forall s :: s in desired ==> SavedJumpMatches(plans, hosts, s, desired[s])
    {
      var remaining := desired.Keys;
      while remaining != {}
        invariant Valid() && remaining <= desired.Keys
        invariant problems == map[] <==>
                    && old(problems) == map[]
                    && forall s :: s in desired && s !in remaining ==>
                                     SavedJumpMatches(plans, hosts, s, desired[s])
      {
        var source :| source in remaining;
        if !SavedJumpMatches(plans, hosts, source, desired[source]) {
          AddProblem(owners[source], DifferentSavedJump(source));
        }
        remaining := remaining - {source};
      }
    }

    method CheckAbsentJumps()
      requires Valid()
      modifies this`problems
      ensures Valid()
      ensures problems == map[] <==>
                && old(problems) == map[]
                && forall a :: a in plans ==> !SavedJumpAbsent(plans, desired, a)
    {
      for i := 0 to |order|
        invariant Valid()
        invariant problems == map[] <==>
                    && old(problems) == map[]
                    && forall k :: 0 <= k < i ==> !SavedJumpAbsent(plans, desired, order[k])
      {
        if SavedJumpAbsent(plans, desired, order[i]) {
          AddProblem(order[i], AbsentSavedJump(order[i]));
        }
      }
      assert forall a :: a in plans ==> a in order;
    }

    method CheckCycles()
      requires Valid()
      modifies this`problems
      ensures Valid()
      ensures problems == map[] <==>
                && old(problems) == map[]
                && forall a :: a in plans ==> Terminates(PreviewNext(plans, hosts, desired), a)
    {
      var next := PreviewNext(plans, hosts, desired);
      for i := 0 to |order|
        invariant Valid()
        invariant problems == map[] <==>
                    && old(problems) == map[]
                    && forall k :: 0 <= k < i ==> Terminates(next, order[k])
      {
        var cycle := FindCycle(next, order[i]);
        if cycle.Some? {
          ReportCycle(order[i], cycle.value);
        }
      }
      assert forall a :: a in plans ==> a in order;
    }

    /** Every owner of an edge on the cycle is told; a cycle of saved jumps only is reported on the plan. */
    method ReportCycle(start: Alias, cycle: seq<Alias>)
      requires Valid() && start in plans
      modifies this`problems
      ensures Valid() && problems != map[]
    {
      var owned := false;
      for i := 0 to |cycle|
        invariant Valid()
        invariant owned ==> problems != map[]
        invariant !owned ==> problems == old(problems)
      {
        if cycle[i] in desired {
          AddProblem(owners[cycle[i]], JumpCycle(cycle));
          owned := true;
        }
      }
      if !owned {
        AddProblem(start, JumpCycle(cycle));
      }
    }
  }

  /** Reports no problem exactly when the jumps are clean; every report names a planned host. */
  method PreviewJumpProblems(
    order: seq<Alias>, plans: map<Alias, Plan>, hosts: seq<SavedHost>, resolver: AliasResolver
  ) returns (problems: map<nat, seq<Problem>>)
    requires forall a :: a in order <==> a in plans
    requires resolver.Valid() && resolver.plans == plans && resolver.hosts == hosts
    ensures problems == map[] <==> JumpsClean(plans, hosts)
    ensures forall id :: id in problems ==> exists a :: a in plans && plans[a].parsed.id == id
  {
    var report := new JumpProblems(order, plans, hosts);
    report.CollectEdges(resolver);
    report.CheckSavedEdges();
    report.CheckAbsentJumps();
    RecordsFacts(report.desired, AllEdges(plans, hosts));
    report.CheckCycles();
    problems := report.problems;
  }
}
