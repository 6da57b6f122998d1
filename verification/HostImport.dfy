/** The import service over a host repository, and the theorem that ties its two ProxyJump checkers. */
module HostImport {
  import opened Common
  import opened SuccessorGraph
  import opened HostPlans
  import opened HostPreview
  import opened HostCommit

  /** The saved hosts; a created host gets an id never used before. */
  class HostRepository {
    var hosts: seq<SavedHost>
    var nextId: nat

    ghost predicate Valid()
      reads this
    {
      UniqueIds(hosts) && forall h :: h in hosts ==> h.id < nextId
    }

    constructor (hosts: seq<SavedHost>, nextId: nat)
      requires UniqueIds(hosts) && forall h :: h in hosts ==> h.id < nextId
      ensures Valid() && this.hosts == hosts
    {
      this.hosts := hosts;
      this.nextId := nextId;
    }

    method CreateHost(parsed: Parsed, jumpHostId: Option<nat>) returns (host: SavedHost)
      requires Valid()
      modifies this
      ensures Valid() && hosts == old(hosts) + [host]
      ensures host == SavedHost(old(nextId), parsed.alias, parsed.hostKey, parsed.facts, jumpHostId, [])
    {
      host := SavedHost(nextId, parsed.alias, parsed.hostKey, parsed.facts, jumpHostId, []);
      hosts := hosts + [host];
      nextId := nextId + 1;
    }
  }

  function SavedFirst(hosts: seq<SavedHost>, a: Alias): Option<SavedHost> {
    var first := FirstByAlias(hosts);
    if a in first then Some(first[a]) else None
  }

  datatype Outcome = Outcome(created: seq<SavedHost>, resolved: map<Alias, SavedHost>)

  function Target(resolved: map<Alias, SavedHost>, first: map<Alias, SavedHost>, t: Alias): Option<SavedHost> {
    if t in resolved then Some(resolved[t]) else if t in first then Some(first[t]) else None
  }

  /** The host of alias a is stored with exactly the jump its desired edge names. */
  predicate JumpsAsPlanned(
    desired: map<Alias, Alias>, resolved: map<Alias, SavedHost>, first: map<Alias, SavedHost>, a: Alias)
  {
    && a in resolved && resolved[a].alias == a
    && (a in desired ==> Target(resolved, first, desired[a]).Some?)
    && resolved[a].jumpHostId ==
       if a in desired then Some(Target(resolved, first, desired[a]).value.id) else None
  }

  /** New hosts are created from their plan, saved ones are kept. */
  predicate ResolvedAs(plans: map<Alias, Plan>, o: Outcome, a: Alias)
    requires a in plans && a in o.resolved
  {
    if plans[a].existing.Some? then o.resolved[a] == plans[a].existing.value
    else
      && o.resolved[a] in o.created
      && o.resolved[a].facts == plans[a].parsed.facts && o.resolved[a].hostKey == plans[a].parsed.hostKey
      && o.resolved[a].jumpHostIds == []
  }

  /** Every plan has its host, linked as desired, and the created hosts are exactly the new plans'. */
  predicate CreatedFrom(
    plans: map<Alias, Plan>, desired: map<Alias, Alias>, first: map<Alias, SavedHost>, o: Outcome)
  {
    && o.resolved.Keys == plans.Keys
    && (forall a :: a in plans ==> ResolvedAs(plans, o, a) && JumpsAsPlanned(desired, o.resolved, first, a))
    && (forall h :: h in o.created ==> IsNew(plans, h.alias) && o.resolved[h.alias] == h)
    && (forall i, j :: 0 <= i < j < |o.created| ==> o.created[i].alias != o.created[j].alias)
  }

  /** Everything a committed import promises about the hosts it leaves behind. */
  ghost predicate ImportedAs(items: seq<Parsed>, before: seq<SavedHost>, after: seq<SavedHost>, o: Outcome) {
    var first := FirstByAlias(before);
    var plans := Plans(items, first);
    && after == before + o.created && JumpsBackward(before, o.created)
    && CreatedFrom(plans, EdgeMap(AllEdges(plans, before)), first, o)
  }

  /** Every created host jumps through a host that was there when it was created. */
  ghost predicate JumpsBackward(before: seq<SavedHost>, created: seq<SavedHost>) {
    forall k :: 0 <= k < |created| && created[k].jumpHostId.Some? ==>
                  HasId(before + created[..k], created[k].jumpHostId.value)
  }

  datatype Status = Imported | Linked | Unchanged | Skipped

  /** What a preview that skips nothing has established. */
  ghost predicate PreviewClean(items: seq<Parsed>, hosts: seq<SavedHost>) {
    var plans := Plans(items, FirstByAlias(hosts));
    && DistinctAliases(items)
    && (forall a :: a in plans ==> Compatible(plans[a]))
    && JumpsClean(plans, hosts)
  }

  /** The items whose alias an earlier item has. */
  function DuplicateIds(items: seq<Parsed>): set<nat> {
    set k | 0 <= k < |items| && items[k].alias in Order(items[..k]) :: items[k].id
  }

  lemma DuplicateIdsNext(items: seq<Parsed>, i: nat)
    requires i < |items|
    ensures DuplicateIds(items[..i + 1]) ==
            DuplicateIds(items[..i]) + if items[i].alias in Order(items[..i]) then {items[i].id} else {}
  {
    var next := items[..i + 1];
    forall k | 0 <= k <= i ensures next[..k] == items[..k] && (k < i ==> items[..i][..k] == items[..k]) {
    }
    forall id ensures id in DuplicateIds(next) <==>
                      id in DuplicateIds(items[..i]) || (items[i].alias in Order(items[..i]) && id == items[i].id)
    {
      if id in DuplicateIds(items[..i]) {
        var k :| 0 <= k < i && items[..i][k].alias in Order(items[..i][..k]) && items[..i][k].id == id;
        assert next[k].alias in Order(next[..k]);
      }
      if items[i].alias in Order(items[..i]) && id == items[i].id {
        assert next[i].alias in Order(next[..i]);
      }
    }
  }

  /** The preview's plans: the first item of each alias, the others are duplicates. */
  method PlanPreview(items: seq<Parsed>, existingByName: map<Alias, SavedHost>)
    returns (plans: map<Alias, Plan>, order: seq<Alias>, duplicates: set<nat>)
    ensures plans == Plans(items, existingByName) && order == Order(items)
    ensures duplicates == DuplicateIds(items)
    ensures DistinctAliases(items) || exists k :: 0 <= k < |items| && items[k].id in duplicates
    ensures duplicates != {} ==> !DistinctAliases(items)
  {
    hide Plans, Order, DuplicateIds, DistinctAliases;
    plans, order, duplicates := map[], [], {};
    NoItems(items, existingByName);
    for i := 0 to |items|
      invariant plans == Plans(items[..i], existingByName) && order == Order(items[..i])
      invariant duplicates == DuplicateIds(items[..i])
    {
      NextItem(items, i, existingByName);
      SeenBefore(items, i, existingByName);
      DuplicateIdsNext(items, i);
      if items[i].alias in plans {
        duplicates := duplicates + {items[i].id};
      } else {
        plans := plans[items[i].alias := NewPlan(items[i], existingByName)];
        order := order + [items[i].alias];
      }
    }
    assert items[..|items|] == items;
    RepeatedAliases(items);
  }

  lemma NoItems(items: seq<Parsed>, saved: map<Alias, SavedHost>)
    ensures Plans(items[..0], saved) == map[] && Order(items[..0]) == [] && DuplicateIds(items[..0]) == {}
  {
  }

  lemma NextItem(items: seq<Parsed>, i: nat, saved: map<Alias, SavedHost>)
    requires i < |items|
    ensures var plans, order, a := Plans(items[..i], saved), Order(items[..i]), items[i].alias;
            && Plans(items[..i + 1], saved) ==
               (if a in plans then plans else plans[a := NewPlan(items[i], saved)])
            && Order(items[..i + 1]) == if a in order then order else order + [a]
  {
    assert items[..i + 1][..i] == items[..i];
  }

  /** There are duplicates exactly when some alias is repeated. */
  lemma RepeatedAliases(items: seq<Parsed>)
    ensures DuplicateIds(items) == {} <==> DistinctAliases(items)
    ensures DistinctAliases(items) || exists k :: 0 <= k < |items| && items[k].id in DuplicateIds(items)
  {
    forall k | 0 <= k < |items|
      ensures items[k].alias in Order(items[..k]) <==> exists j :: 0 <= j < k && items[j].alias == items[k].alias
    {
      SeenBefore(items, k, map[]);
    }
    if !DistinctAliases(items) {
      var j, k :| 0 <= j < k < |items| && items[j].alias == items[k].alias;
      assert items[k].alias in Order(items[..k]) && items[k].id in DuplicateIds(items);
    }
    if DuplicateIds(items) != {} {
      var id :| id in DuplicateIds(items);
      var k :| 0 <= k < |items| && items[k].alias in Order(items[..k]) && items[k].id == id;
      var j :| 0 <= j < k && items[j].alias == items[k].alias;
    }
  }

  lemma SeenBefore(items: seq<Parsed>, i: nat, saved: map<Alias, SavedHost>)
    requires i < |items|
    ensures items[i].alias in Plans(items[..i], saved) <==> items[i].alias in Order(items[..i])
    ensures items[i].alias in Plans(items[..i], saved) <==> exists j :: 0 <= j < i && items[j].alias == items[i].alias
  {
    PlansFacts(items[..i], saved);
    if items[i].alias in Plans(items[..i], saved) {
      var first := Plans(items[..i], saved)[items[i].alias].parsed;
      var j :| 0 <= j < i && items[..i][j] == first;
      assert items[j].alias == items[i].alias;
    }
    forall j | 0 <= j < i ensures items[j].alias in Plans(items[..i], saved) {
      assert items[..i][j] == items[j];
    }
  }

  /** What the preview learns before it gives out statuses: repeated aliases and hosts with problems. */
  ghost predicate Findings(items: seq<Parsed>, hosts: seq<SavedHost>, duplicates: set<nat>, problems: set<nat>) {
    && duplicates == DuplicateIds(items)
    && (DistinctAliases(items) || exists k :: 0 <= k < |items| && items[k].id in duplicates)
    && (duplicates != {} ==> !DistinctAliases(items))
    && (problems == {} <==> JumpsClean(Plans(items, FirstByAlias(hosts)), hosts))
    && (forall id :: id in problems ==> exists i :: 0 <= i < |items| && items[i].id == id)
  }

  method Inspect(items: seq<Parsed>, hosts: seq<SavedHost>, existingByName: map<Alias, SavedHost>)
    returns (duplicates: set<nat>, problems: set<nat>)
    requires existingByName == FirstByAlias(hosts)
    ensures Findings(items, hosts, duplicates, problems) && duplicates == DuplicateIds(items)
  {
    var plans, order;
    plans, order, duplicates := PlanPreview(items, existingByName);
    PlansFacts(items, existingByName);
    var resolver := new AliasResolver(order, plans, hosts);
    var report := PreviewJumpProblems(order, plans, hosts, resolver);
    forall id | id in report.Keys ensures exists i :: 0 <= i < |items| && items[i].id == id {
      var a :| a in plans && plans[a].parsed.id == id;
      var i :| 0 <= i < |items| && items[i] == plans[a].parsed;
    }
    problems := report.Keys;
  }

  function StatusOf(
    item: Parsed, saved: map<Alias, SavedHost>, duplicates: set<nat>, problems: set<nat>, bookmarked: set<nat>
  ): Status {
    var existing := if item.alias in saved then Some(saved[item.alias]) else None;
    var incompatible := existing.Some? && existing.value.facts != item.facts;
    if item.id in duplicates || incompatible || item.id in problems then Skipped
    else if existing.None? then Imported
    else if existing.value.id in bookmarked then Unchanged
    else Status.Linked
  }

  predicate NotSkipped(item: Parsed, saved: map<Alias, SavedHost>, duplicates: set<nat>, problems: set<nat>) {
    item.id !in duplicates && item.id !in problems && (item.alias in saved ==> saved[item.alias].facts == item.facts)
  }

  /** There is no saved host of that name, or it has the same connection. */
  predicate SameAsSaved(item: Parsed, saved: map<Alias, SavedHost>) {
    item.alias in saved ==> saved[item.alias].facts == item.facts
  }

  /**
   One status per parsed host; nothing is skipped exactly when the preview is clean. Repeated aliases and hosts that
   differ from the saved one of their name are skipped, and when the jumps are clean nobody else is.
   */
  method PreviewItems(items: seq<Parsed>, hosts: seq<SavedHost>, bookmarked: set<nat>)
    returns (statuses: seq<Status>)
    ensures |statuses| == |items|
    ensures (forall i :: 0 <= i < |items| ==> statuses[i] != Skipped) <==> PreviewClean(items, hosts)
    ensures forall i :: 0 <= i < |items| && statuses[i] != Skipped ==>
              items[i].id !in DuplicateIds(items) && SameAsSaved(items[i], FirstByAlias(hosts))
    ensures JumpsClean(Plans(items, FirstByAlias(hosts)), hosts) ==>
              forall i :: 0 <= i < |items| && statuses[i] == Skipped ==>
                items[i].id in DuplicateIds(items) || !SameAsSaved(items[i], FirstByAlias(hosts))
    ensures forall i :: 0 <= i < |items| && statuses[i] != Skipped ==>
                          var saved := FirstByAlias(hosts);
                          statuses[i] == if items[i].alias !in saved then Imported
                                         else if saved[items[i].alias].id in bookmarked then Unchanged
                                         else Status.Linked
  {
    hide DuplicateIds, Findings, PreviewClean, FirstByAlias, JumpsClean, Plans;
    var existingByName := UniqueHostLookup(hosts);
    var duplicates, problems := Inspect(items, hosts, existingByName);
    statuses := [];
    for i := 0 to |items|
      invariant |statuses| == i
      invariant forall k :: 0 <= k < i ==>
                              statuses[k] == StatusOf(items[k], existingByName, duplicates, problems, bookmarked)
    {
      statuses := statuses + [StatusOf(items[i], existingByName, duplicates, problems, bookmarked)];
    }
    NoneSkipped(items, hosts, duplicates, problems);
  }

  lemma NoneSkipped(items: seq<Parsed>, hosts: seq<SavedHost>, duplicates: set<nat>, problems: set<nat>)
    requires Findings(items, hosts, duplicates, problems)
    ensures (forall i :: 0 <= i < |items| ==> NotSkipped(items[i], FirstByAlias(hosts), duplicates, problems))
            <==> PreviewClean(items, hosts)
    ensures JumpsClean(Plans(items, FirstByAlias(hosts)), hosts) ==> problems == {}
  {
    var saved := FirstByAlias(hosts);
    if forall i :: 0 <= i < |items| ==> NotSkipped(items[i], saved, duplicates, problems) {
      assert DistinctAliases(items) && problems == {};
      forall a | a in Plans(items, saved) ensures Compatible(Plans(items, saved)[a]) {
        PlansFacts(items, saved);
        var i :| 0 <= i < |items| && items[i] == Plans(items, saved)[a].parsed;
        assert NotSkipped(items[i], saved, duplicates, problems);
      }
    }
    if PreviewClean(items, hosts) {
      forall i | 0 <= i < |items| ensures NotSkipped(items[i], saved, duplicates, problems) {
        DistinctAliasPlan(items, saved, i);
        assert Compatible(Plans(items, saved)[items[i].alias]);
      }
    }
  }

  /** A plan that passed every check: what the creation loop starts from. */
  datatype Checked = Checked(plans: map<Alias, Plan>, desired: map<Alias, Alias>, sorted: seq<Alias>)

  /** How plans, saved hosts and desired edges belong together. */
  ghost predicate Planned(plans: map<Alias, Plan>, hosts: seq<SavedHost>, desired: map<Alias, Alias>) {
    && (forall a :: a in plans ==> plans[a].parsed.alias == a && plans[a].existing == SavedFirst(hosts, a))
    && Records(desired, AllEdges(plans, hosts))
  }

  lemma PlannedImport(items: seq<Parsed>, hosts: seq<SavedHost>)
    requires EdgesClean(Plans(items, FirstByAlias(hosts)), hosts)
    ensures var plans := Plans(items, FirstByAlias(hosts));
            Planned(plans, hosts, EdgeMap(AllEdges(plans, hosts)))
  {
    var plans := Plans(items, FirstByAlias(hosts));
    PlansFacts(items, FirstByAlias(hosts));
    RecordsFacts(EdgeMap(AllEdges(plans, hosts)), AllEdges(plans, hosts));
  }

  /** The new hosts in dependency order, with every jump host known and every saved plan keeping its jump. */
  ghost predicate Ready(c: Checked, hosts: seq<SavedHost>) {
    && Planned(c.plans, hosts, c.desired)
    && Distinct(c.sorted) && (forall a :: a in c.sorted <==> IsNew(c.plans, a))
    && DependenciesFirst(c.plans, c.desired, c.sorted)
    && (forall a :: a in c.plans ==> KeepsJump(c.plans, hosts, c.desired, a))
  }

  /** A host of the import follows its desired edge only. */
  lemma NextOfPlans(plans: map<Alias, Plan>, hosts: seq<SavedHost>, desired: map<Alias, Alias>)
    ensures var next := CommitNext(plans, hosts, desired);
            forall a :: a in plans ==> (a in next <==> a in desired) && (a in desired ==> next[a] == desired[a])
  {
  }

  /** Commit's cycle and rebind checks, then the order of the new hosts. */
  method CheckJumps(
    order: seq<Alias>, plans: map<Alias, Plan>, hosts: seq<SavedHost>, existingByName: map<Alias, SavedHost>,
    desired: map<Alias, Alias>
  ) returns (r: Result<Checked, CommitError>)
    requires forall a :: a in order <==> a in plans
    requires existingByName == FirstByAlias(hosts) && Planned(plans, hosts, desired)
    ensures r.Ok? <==> JumpsAccepted(plans, hosts, desired)
    ensures r.Err? ==>
              if forall a :: a in plans ==> Terminates(CommitNext(plans, hosts, desired), a)
              then exists k :: 0 <= k < |order| && RebindFails(order, plans, hosts, desired, k, r.error)
              else r.error == Cycle
    ensures r.Ok? ==> r.value.plans == plans && r.value.desired == desired && Ready(r.value, hosts)
  {
    hide CommitNext, KeepsJump, AllEdges, FirstByAlias, Planned, Terminates, RebindFails;
    var next := CommitNext(plans, hosts, desired);
    var guard := new CycleGuard(next);
    var acyclic := guard.Check(order);
    if !acyclic { return Err(Cycle); }
    var rebind := CheckSavedPlans(order, plans, hosts, existingByName, desired);
    if rebind.Some? { return Err(rebind.value); }
    NextOfPlans(plans, hosts, desired);
    var sorted := TopologicalNewHosts(order, plans, desired, next);
    r := Ok(Checked(plans, desired, sorted));
  }

  /** Every check of commit, before anything is written. */
  method PlanCommit(items: seq<Parsed>, hosts: seq<SavedHost>, existingByName: map<Alias, SavedHost>)
    returns (r: Result<Checked, CommitError>)
    requires existingByName == FirstByAlias(hosts)
    ensures r.Ok? <==> Accepts(items, hosts)
    ensures r.Ok? ==>
              && r.value.plans == Plans(items, existingByName)
              && r.value.desired == EdgeMap(AllEdges(r.value.plans, hosts))
              && Ready(r.value, hosts)
  {
    var built, order := BuildPlans(items, existingByName);
    if built.Err? { return Err(built.error); }
    var plans := built.value;
    PlansFacts(items, existingByName);
    var resolver := new AliasResolver(order, plans, hosts);
    var edges := CollectDesiredEdges(order, plans, hosts, resolver);
    if edges.Err? { return Err(edges.error); }
    PlannedImport(items, hosts);
    r := CheckJumps(order, plans, hosts, existingByName, edges.value);
  }

  /**
   Commit: either the saved hosts stay as they were, or every plan has its host, linked as desired.
   */
  method Commit(repository: HostRepository, items: seq<Parsed>) returns (r: Result<Outcome, CommitError>)
    requires repository.Valid()
    modifies repository
    ensures repository.Valid()
    ensures r.Ok? <==> Accepts(items, old(repository.hosts))
    ensures r.Ok? ==> ImportedAs(items, old(repository.hosts), repository.hosts, r.value)
    ensures r.Err? ==> repository.hosts == old(repository.hosts)
  {
    var existingByName := UniqueHostLookup(repository.hosts);
    var checked := PlanCommit(items, repository.hosts, existingByName);
    if checked.Err? { return Err(checked.error); }
    var outcome := CreateHosts(repository, checked.value, existingByName);
    r := Ok(outcome);
  }

  /**
   After a commit every submitted item has its host, with the connection it asks for, even where several items
   share one alias: all of them name the same jumps, and the first one decides the rest.
   */
  lemma EveryItemHonoured(
    items: seq<Parsed>, before: seq<SavedHost>, after: seq<SavedHost>, o: Outcome, i: nat, j: nat)
    requires Accepts(items, before) && ImportedAs(items, before, after, o)
    requires i < |items| && j < |items| && items[i].alias == items[j].alias
    ensures items[i].alias in o.resolved && o.resolved[items[i].alias].alias == items[i].alias
    ensures var facts := o.resolved[items[i].alias].facts;
            && facts.hostname == items[i].facts.hostname && facts.port == items[i].facts.port
            && facts.username == items[i].facts.username
    ensures (forall k :: 0 <= k < i ==> items[k].alias != items[i].alias) ==>
              o.resolved[items[i].alias].facts == items[i].facts
    ensures |items[i].proxyJumps| == |items[j].proxyJumps|
    ensures forall k :: 0 <= k < |items[i].proxyJumps| ==> items[i].proxyJumps[k].raw == items[j].proxyJumps[k].raw
  {
    hide AllEdges, EdgesClean, JumpsAccepted, JumpsBackward, JumpsAsPlanned, EdgeMap, Accepts, ImportedAs;
    ItemPlanned(items, before, after, o, i);
    ItemPlanned(items, before, after, o, j);
    if forall k :: 0 <= k < i ==> items[k].alias != items[i].alias {
      PlanIsFirst(items, FirstByAlias(before), i);
    }
  }

  lemma ItemPlanned(items: seq<Parsed>, before: seq<SavedHost>, after: seq<SavedHost>, o: Outcome, i: nat)
    requires Accepts(items, before) && ImportedAs(items, before, after, o) && i < |items|
    ensures var plans := Plans(items, FirstByAlias(before));
            && items[i].alias in plans && items[i].alias in o.resolved
            && o.resolved[items[i].alias].alias == items[i].alias
            && o.resolved[items[i].alias].facts == plans[items[i].alias].parsed.facts
            && SameParsedConnection(plans[items[i].alias].parsed, items[i])
  {
    hide AllEdges, EdgesClean, JumpsAccepted, JumpsBackward, EdgeMap;
    var saved := FirstByAlias(before);
    PlansFacts(items, saved);
    SavedPlans(items, saved);
    assert Agrees(items, i);
    assert Compatible(Plans(items, saved)[items[i].alias]);
  }

  lemma TargetsKnown(plans: map<Alias, Plan>, hosts: seq<SavedHost>, desired: map<Alias, Alias>)
    requires Records(desired, AllEdges(plans, hosts))
    ensures forall a :: a in desired ==> desired[a] in plans || desired[a] in FirstByAlias(hosts)
    ensures forall a :: a in desired ==> a in plans || a in LastByAlias(hosts)
  {
    AllEdgesKnown(plans, hosts);
    LookupFacts(hosts);
  }

  /**
   The creation loop. The original's "Resolved ProxyJump Host is unavailable" branch is excluded by
   JumpHostAvailable.
   */
  method CreateHosts(repository: HostRepository, c: Checked, existingByName: map<Alias, SavedHost>)
    returns (o: Outcome)
    requires repository.Valid() && Ready(c, repository.hosts)
    requires existingByName == FirstByAlias(repository.hosts)
    modifies repository
    ensures repository.Valid() && repository.hosts == old(repository.hosts) + o.created
    ensures CreatedFrom(c.plans, c.desired, existingByName, o)
    ensures JumpsBackward(old(repository.hosts), o.created)
  {
    ghost var before := repository.hosts;
    var created: seq<SavedHost> := [];
    var resolved := map a | a in c.plans && c.plans[a].existing.Some? :: c.plans[a].existing.value;
    NothingCreated(c, existingByName, resolved);
    hide Ready, CreatedUpTo, CreatedFrom, FirstByAlias, JumpsBackward;
    NoJumps(before);
    for i := 0 to |c.sorted|
      invariant repository.Valid() && repository.hosts == before + created
      invariant CreatedUpTo(c, existingByName, i, created, resolved) && JumpsBackward(before, created)
    {
      var alias := c.sorted[i];
      JumpHostAvailable(c, before, i, created, resolved);
      var jump :=
        if alias in c.desired then Some(Target(resolved, existingByName, c.desired[alias]).value.id) else None;
      var host := repository.CreateHost(c.plans[alias].parsed, jump);
      CreateOne(c, before, i, created, resolved, host);
      OneMoreJump(c, before, i, created, resolved, host);
      created := created + [host];
      resolved := resolved[alias := host];
    }
    o := Outcome(created, resolved);
    CreatedAll(c, before, o);
  }

  /** The state of the creation loop after the first i hosts of the order. */
  ghost predicate CreatedUpTo(
    c: Checked, first: map<Alias, SavedHost>, i: nat, created: seq<SavedHost>, resolved: map<Alias, SavedHost>)
  {
    && |created| == i <= |c.sorted|
    && (forall a :: a in resolved <==> a in c.plans && (c.plans[a].existing.Some? || a in c.sorted[..i]))
    && (forall a :: a in c.plans && c.plans[a].existing.Some? ==> resolved[a] == c.plans[a].existing.value)
    && (forall k :: 0 <= k < i ==> CreatedAt(c, first, c.sorted[k], created[k], resolved))
  }

  ghost predicate CreatedAt(
    c: Checked, first: map<Alias, SavedHost>, a: Alias, host: SavedHost, resolved: map<Alias, SavedHost>)
  {
    && a in c.plans && a in resolved && resolved[a] == host
    && host.alias == a && host.facts == c.plans[a].parsed.facts && host.hostKey == c.plans[a].parsed.hostKey
    && host.jumpHostIds == []
    && JumpsAsPlanned(c.desired, resolved, first, a)
  }

  lemma NothingCreated(c: Checked, first: map<Alias, SavedHost>, resolved: map<Alias, SavedHost>)
    requires resolved == map a | a in c.plans && c.plans[a].existing.Some? :: c.plans[a].existing.value
    ensures CreatedUpTo(c, first, 0, [], resolved)
  {
  }

  /** The jump host of the next host to create is saved, or new and therefore created before. */
  lemma JumpHostAvailable(
    c: Checked, hosts: seq<SavedHost>, i: nat, created: seq<SavedHost>, resolved: map<Alias, SavedHost>)
    requires Ready(c, hosts) && i < |c.sorted| && CreatedUpTo(c, FirstByAlias(hosts), i, created, resolved)
    ensures c.sorted[i] in c.plans && c.sorted[i] !in resolved && c.sorted[i] !in FirstByAlias(hosts)
    ensures c.sorted[i] in c.desired ==>
              && c.desired[c.sorted[i]] != c.sorted[i]
              && Target(resolved, FirstByAlias(hosts), c.desired[c.sorted[i]]).Some?
  {
    var alias := c.sorted[i];
    assert alias in c.sorted && IsNew(c.plans, alias);
    TargetsKnown(c.plans, hosts, c.desired);
    assert JumpBefore(c.plans, c.desired, c.sorted, i);
    if alias in c.desired {
      assert Edge(alias, c.desired[alias]) in AllEdges(c.plans, hosts);
    }
  }

  lemma CreateOne(
    c: Checked, hosts: seq<SavedHost>, i: nat, created: seq<SavedHost>, resolved: map<Alias, SavedHost>,
    host: SavedHost)
    requires Ready(c, hosts) && i < |c.sorted| && CreatedUpTo(c, FirstByAlias(hosts), i, created, resolved)
    requires c.sorted[i] in c.plans && c.sorted[i] !in resolved && c.sorted[i] !in FirstByAlias(hosts)
    requires host.alias == c.sorted[i] && host.facts == c.plans[c.sorted[i]].parsed.facts
    requires host.hostKey == c.plans[c.sorted[i]].parsed.hostKey && host.jumpHostIds == []
    requires if c.sorted[i] in c.desired
             then
               var jump := Target(resolved, FirstByAlias(hosts), c.desired[c.sorted[i]]);
               c.desired[c.sorted[i]] != c.sorted[i] && jump.Some? && host.jumpHostId == Some(jump.value.id)
             else host.jumpHostId.None?
    ensures CreatedUpTo(c, FirstByAlias(hosts), i + 1, created + [host], resolved[c.sorted[i] := host])
  {
    var first := FirstByAlias(hosts);
    var alias := c.sorted[i];
    var after := resolved[alias := host];
    assert c.sorted[..i + 1] == c.sorted[..i] + [alias];
    forall k | 0 <= k <= i
      ensures CreatedAt(c, first, c.sorted[k], (created + [host])[k], after)
    {
      if k < i {
        assert CreatedAt(c, first, c.sorted[k], created[k], resolved);
        StillLinked(c.desired, resolved, first, c.sorted[k], alias, host);
      }
    }
  }

  lemma NoJumps(before: seq<SavedHost>)
    ensures JumpsBackward(before, [])
  {
  }

  lemma OneMoreJump(
    c: Checked, hosts: seq<SavedHost>, i: nat, created: seq<SavedHost>, resolved: map<Alias, SavedHost>,
    host: SavedHost)
    requires Ready(c, hosts) && i < |c.sorted| && CreatedUpTo(c, FirstByAlias(hosts), i, created, resolved)
    requires JumpsBackward(hosts, created) && c.sorted[i] in c.plans
    requires host.jumpHostId.Some? ==>
               && c.sorted[i] in c.desired
               && Target(resolved, FirstByAlias(hosts), c.desired[c.sorted[i]]).Some?
               && host.jumpHostId.value == Target(resolved, FirstByAlias(hosts), c.desired[c.sorted[i]]).value.id
    ensures JumpsBackward(hosts, created + [host])
  {
    var more := created + [host];
    forall k | 0 <= k < |more| && more[k].jumpHostId.Some?
      ensures HasId(hosts + more[..k], more[k].jumpHostId.value)
    {
      if k < |created| {
        assert more[..k] == created[..k];
      } else {
        assert more[..k] == created;
        var t := c.desired[c.sorted[i]];
        var jump := Target(resolved, FirstByAlias(hosts), t).value;
        LookupFacts(hosts);
        if t in resolved && c.plans[t].existing.None? {
          var j :| 0 <= j < i && c.sorted[..i][j] == t;
          assert CreatedAt(c, FirstByAlias(hosts), c.sorted[j], created[j], resolved);
          assert jump == created[j] && jump in hosts + created;
        } else {
          assert jump in hosts && jump in hosts + created;
        }
      }
    }
  }

  lemma CreatedAll(c: Checked, hosts: seq<SavedHost>, o: Outcome)
    requires Ready(c, hosts) && CreatedUpTo(c, FirstByAlias(hosts), |c.sorted|, o.created, o.resolved)
    ensures CreatedFrom(c.plans, c.desired, FirstByAlias(hosts), o)
  {
    assert c.sorted[..|c.sorted|] == c.sorted;
    forall a | a in c.plans
      ensures ResolvedAs(c.plans, o, a) && JumpsAsPlanned(c.desired, o.resolved, FirstByAlias(hosts), a)
    {
      CreatedOne(c, hosts, o, a);
    }
    forall k | 0 <= k < |c.sorted|
      ensures o.created[k].alias == c.sorted[k]
      ensures IsNew(c.plans, c.sorted[k]) && o.resolved[c.sorted[k]] == o.created[k]
    {
      assert CreatedAt(c, FirstByAlias(hosts), c.sorted[k], o.created[k], o.resolved);
      assert c.sorted[k] in c.sorted;
    }
  }

  lemma CreatedOne(c: Checked, hosts: seq<SavedHost>, o: Outcome, a: Alias)
    requires Ready(c, hosts) && CreatedUpTo(c, FirstByAlias(hosts), |c.sorted|, o.created, o.resolved) && a in c.plans
    ensures a in o.resolved
    ensures ResolvedAs(c.plans, o, a) && JumpsAsPlanned(c.desired, o.resolved, FirstByAlias(hosts), a)
  {
    if IsNew(c.plans, a) {
      var k :| 0 <= k < |c.sorted| && c.sorted[k] == a;
      assert CreatedAt(c, FirstByAlias(hosts), c.sorted[k], o.created[k], o.resolved);
    } else {
      assert KeepsJump(c.plans, hosts, c.desired, a);
      LookupFacts(hosts);
      TargetsKnown(c.plans, hosts, c.desired);
    }
  }

  /** A later creation does not disturb an earlier link. */
  lemma StillLinked(
    desired: map<Alias, Alias>, resolved: map<Alias, SavedHost>, first: map<Alias, SavedHost>, a: Alias,
    added: Alias, host: SavedHost)
    requires JumpsAsPlanned(desired, resolved, first, a) && added !in resolved && added !in first
    ensures JumpsAsPlanned(desired, resolved[added := host], first, a)
  {
  }

  // ----- the two checkers agree -----

  /** Wherever a saved plan jumps outside the import, the first and the last saved host of that name agree. */
  predicate LookupsAgree(plans: map<Alias, Plan>, hosts: seq<SavedHost>, desired: map<Alias, Alias>) {
    forall a :: a in plans && plans[a].existing.Some? && a in desired ==> SameSaved(plans, hosts, desired[a])
  }

  predicate SameSaved(plans: map<Alias, Plan>, hosts: seq<SavedHost>, t: Alias) {
    var first, last := FirstByAlias(hosts), LastByAlias(hosts);
    t !in plans && t in first && t in last ==> first[t].id == last[t].id
  }

  lemma {:induction false} SameLookups(hosts: seq<SavedHost>)
    requires UniqueNames(hosts)
    ensures FirstByAlias(hosts) == LastByAlias(hosts)
  {
    if hosts != [] {
      var init := hosts[..|hosts| - 1];
      SameLookups(init);
      LookupFacts(init);
      assert hosts[|hosts| - 1].alias !in SavedAliases(init);
    }
  }

  /** The saved jump the preview insists on is the desired edge of a host outside the import. */
  lemma SavedSuccessor(plans: map<Alias, Plan>, hosts: seq<SavedHost>, desired: map<Alias, Alias>, a: Alias)
    requires UniqueIds(hosts) && Planned(plans, hosts, desired) && a in desired && a !in plans
    requires SavedJumpMatches(plans, hosts, a, desired[a])
    ensures a in LastByAlias(hosts) && SavedStep(hosts, Some(LastByAlias(hosts)[a])) == Some(desired[a])
  {
    hide AllEdges, UniqueIds, AliasById, FirstByAlias, EdgeMap;
    LookupFacts(hosts);
    TargetsKnown(plans, hosts, desired);
    AliasByIdOf(hosts, PlanOrLast(plans, hosts, desired[a]).value);
  }

  /** On a clean preview both checkers follow the same successor of every alias. */
  lemma SameSuccessor(plans: map<Alias, Plan>, hosts: seq<SavedHost>, desired: map<Alias, Alias>, a: Alias)
    requires UniqueIds(hosts) && Planned(plans, hosts, desired) && SavedJumpsClean(plans, hosts, desired)
    ensures CommitStep(plans, hosts, desired, a) == PreviewStep(plans, hosts, desired, a)
  {
    if a in plans {
      assert !SavedJumpAbsent(plans, desired, a);
      LookupFacts(hosts);
    } else if a in desired {
      SavedSuccessor(plans, hosts, desired, a);
    }
  }

  lemma SameGraph(plans: map<Alias, Plan>, hosts: seq<SavedHost>, desired: map<Alias, Alias>)
    requires UniqueIds(hosts) && Planned(plans, hosts, desired) && SavedJumpsClean(plans, hosts, desired)
    ensures CommitNext(plans, hosts, desired) == PreviewNext(plans, hosts, desired)
  {
    forall a ensures CommitStep(plans, hosts, desired, a) == PreviewStep(plans, hosts, desired, a) {
      SameSuccessor(plans, hosts, desired, a);
    }
  }

  /** A saved plan with a clean jump passes commit's check exactly when the lookups of its target agree. */
  lemma SameRebind(plans: map<Alias, Plan>, hosts: seq<SavedHost>, desired: map<Alias, Alias>, a: Alias)
    requires Planned(plans, hosts, desired) && SavedJumpsClean(plans, hosts, desired)
    requires a in plans && plans[a].existing.Some?
    ensures KeepsJump(plans, hosts, desired, a) <==> (a in desired ==> SameSaved(plans, hosts, desired[a]))
  {
    LookupFacts(hosts);
    assert !SavedJumpAbsent(plans, desired, a);
    if a in desired {
      assert SavedJumpMatches(plans, hosts, a, desired[a]);
    }
  }

  /** Commit's jump checks over all plans of a clean preview. */
  lemma SameJumps(plans: map<Alias, Plan>, hosts: seq<SavedHost>, desired: map<Alias, Alias>)
    requires UniqueIds(hosts) && Planned(plans, hosts, desired) && SavedJumpsClean(plans, hosts, desired)
    requires forall a :: a in plans ==> Terminates(PreviewNext(plans, hosts, desired), a)
    ensures JumpsAccepted(plans, hosts, desired) <==> LookupsAgree(plans, hosts, desired)
  {
    SameGraph(plans, hosts, desired);
    forall a | a in plans && plans[a].existing.Some?
      ensures KeepsJump(plans, hosts, desired, a) <==> (a in desired ==> SameSaved(plans, hosts, desired[a]))
    {
      SameRebind(plans, hosts, desired, a);
    }
  }

  lemma DistinctAgree(items: seq<Parsed>)
    requires DistinctAliases(items)
    ensures DuplicatesAgree(items)
  {
    forall k | 0 <= k < |items| ensures Agrees(items, k) {
      DistinctAliasPlan(items, map[], k);
    }
  }

  /** A clean preview commits if and only if the saved-name lookups agree where they are used. */
  lemma CleanPreviewCommits(items: seq<Parsed>, hosts: seq<SavedHost>)
    requires UniqueIds(hosts)
    requires PreviewClean(items, hosts)
    ensures var plans := Plans(items, FirstByAlias(hosts));
            Accepts(items, hosts) <==> LookupsAgree(plans, hosts, EdgeMap(AllEdges(plans, hosts)))
  {
    var plans := Plans(items, FirstByAlias(hosts));
    PlannedImport(items, hosts);
    SameJumps(plans, hosts, EdgeMap(AllEdges(plans, hosts)));
    DistinctAgree(items);
  }

  /** With unique saved names, a preview that skips nothing always commits. */
  lemma CleanPreviewCommitsUniquely(items: seq<Parsed>, hosts: seq<SavedHost>)
    requires UniqueIds(hosts) && UniqueNames(hosts)
    requires PreviewClean(items, hosts)
    ensures Accepts(items, hosts)
  {
    CleanPreviewCommits(items, hosts);
    SameLookups(hosts);
  }

  // ----- a saved name used twice -----

  lemma LookupsOfThree(first: SavedHost, second: SavedHost, third: SavedHost)
    requires first.alias == second.alias && first.alias != third.alias
    ensures FirstByAlias([first, second, third]) == map[first.alias := first, third.alias := third]
    ensures LastByAlias([first, second, third]) == map[first.alias := second, third.alias := third]
    ensures SavedAliases([first, second, third]) == {first.alias, third.alias}
  {
    var two, three := [first, second], [first, second, third];
    assert [first][..0] == [] && two[..1] == [first] && three[..2] == two;
    assert FirstByAlias([first]) == map[first.alias := first];
    assert LastByAlias([first]) == map[first.alias := first];
    assert FirstByAlias(two) == map[first.alias := first];
    assert LastByAlias(two) == map[first.alias := second];
    assert first in three && third in three;
  }

  lemma OneItemPlan(item: Parsed, saved: map<Alias, SavedHost>)
    ensures Plans([item], saved) == map[item.alias := NewPlan(item, saved)]
  {
    var items := [item];
    assert items[..|items| - 1] == [];
    assert Plans([], saved) == map[];
  }

  lemma OneHop(plans: map<Alias, Plan>, hosts: seq<SavedHost>, a: Alias, jump: Jump)
    requires a in plans && plans[a].parsed.proxyJumps == [jump] && Known(plans, hosts, jump.direct)
    ensures Hops(plans, hosts, a) == Some([jump.direct])
  {
    var jumps := plans[a].parsed.proxyJumps;
    assert jumps[..|jumps| - 1] == [];
    assert ResolveAll(plans, hosts, []) == Some([]);
    assert Resolve(plans, hosts, jump) == Some(jump.direct);
    assert [] + [jump.direct] == [jump.direct];
  }

  lemma OneEdge(plans: map<Alias, Plan>, hosts: seq<SavedHost>, a: Alias, t: Alias)
    requires plans.Keys == {a} && Hops(plans, hosts, a) == Some([t])
    ensures AllEdges(plans, hosts) == {Edge(a, t)}
    ensures a != t ==> Records(map[a := t], AllEdges(plans, hosts))
  {
    assert PlanEdges(plans, hosts, a) == {Edge(a, t)};
  }

  /**
   Two saved hosts share a name and a third jumps to the second of them: the preview accepts the
   import of that third host, the commit compares with the first and refuses it.
   */
  lemma RepeatedNameSplitsCheckers(first: SavedHost, second: SavedHost, third: SavedHost, item: Parsed, jump: Jump)
    requires UniqueIds([first, second, third])
    requires first.alias == second.alias && first.alias != third.alias
    requires second.jumpHostId.None? && third.jumpHostId == Some(second.id)
    requires item.alias == third.alias && item.facts == third.facts
    requires item.proxyJumps == [jump] && jump.direct == second.alias
    ensures PreviewClean([item], [first, second, third]) && !Accepts([item], [first, second, third])
  {
    var hosts := [first, second, third];
    LookupsOfThree(first, second, third);
    var saved := FirstByAlias(hosts);
    OneItemPlan(item, saved);
    var plans := Plans([item], saved);
    OneHop(plans, hosts, item.alias, jump);
    OneEdge(plans, hosts, item.alias, jump.direct);
    var desired := map[item.alias := jump.direct];
    RecordsFacts(desired, AllEdges(plans, hosts));
    assert hosts[0].id != hosts[1].id;
    assert !SameSaved(plans, hosts, desired[item.alias]);
    assert EdgesClean(plans, hosts);
    hide FirstByAlias, Plans, AllEdges, Hops, Accepts, EdgesClean;
    OneSavedJump(plans, hosts, desired, item.alias, jump.direct);
    CleanPreviewCommits([item], hosts);
  }

  /** A saved host that jumps to the last saved host of a name, which jumps nowhere itself. */
  lemma OneSavedJump(
    plans: map<Alias, Plan>, hosts: seq<SavedHost>, desired: map<Alias, Alias>, a: Alias, t: Alias)
    requires a != t && desired == map[a := t] && plans.Keys == {a} && plans[a].existing.Some?
    requires t in LastByAlias(hosts) && LastByAlias(hosts)[t].jumpHostId.None?
    requires plans[a].existing.value.jumpHostId == Some(LastByAlias(hosts)[t].id)
    ensures SavedJumpsClean(plans, hosts, desired)
    ensures forall b :: b in plans ==> Terminates(PreviewNext(plans, hosts, desired), b)
  {
    var next := PreviewNext(plans, hosts, desired);
    assert t !in next && a in next && next[a] == t;
    assert Ends(next, t, 0);
    assert Ends(next, a, 1);
  }

  // ----- drafts -----

  /** A submitted preview item: its content carries the id of the parsed host it edits. */
  datatype Draft = Draft(selected: bool, content: Parsed)

  datatype SubmitError = UnknownItem | SubmittedTwice

  ghost predicate SubmissionValid(base: seq<Parsed>, drafts: seq<Draft>) {
    && (forall i :: 0 <= i < |drafts| ==> exists b :: b in base && b.id == drafts[i].content.id)
    && (forall i, j :: 0 <= i < j < |drafts| ==> drafts[i].content.id != drafts[j].content.id)
  }

  /** The hosts a submission selects, in the order of the preview. */
  function Selected(base: seq<Parsed>, submitted: map<nat, Draft>): seq<Parsed> {
    if base == [] then [] else
      var b := base[|base| - 1];
      Selected(base[..|base| - 1], submitted)
      + if b.id in submitted && submitted[b.id].selected then [submitted[b.id].content] else []
  }

  method SubmitDrafts(base: seq<Parsed>, drafts: seq<Draft>) returns (r: Result<seq<Parsed>, SubmitError>)
    ensures r.Ok? <==> SubmissionValid(base, drafts)
    ensures r.Ok? ==>
              exists submitted: map<nat, Draft> ::
                && r.value == Selected(base, submitted)
                && (forall d :: d in drafts ==> d.content.id in submitted && submitted[d.content.id] == d)
                && (forall id :: id in submitted ==> submitted[id] in drafts && submitted[id].content.id == id)
  {
    var submitted: map<nat, Draft> := map[];
    for i := 0 to |drafts|
      invariant SubmissionValid(base, drafts[..i])
      invariant forall k :: 0 <= k < i ==>
                              drafts[k].content.id in submitted && submitted[drafts[k].content.id] == drafts[k]
      invariant forall id :: id in submitted ==>
                               exists k :: 0 <= k < i && submitted[id] == drafts[k] && drafts[k].content.id == id
    {
      var draft := drafts[i];
      if !exists b :: b in base && b.id == draft.content.id {
        r := Err(UnknownItem);
        return;
      }
      if draft.content.id in submitted {
        r := Err(SubmittedTwice);
        return;
      }
      submitted := submitted[draft.content.id := draft];
    }
    assert drafts[..|drafts|] == drafts;
    var hosts: seq<Parsed> := [];
    for i := 0 to |base|
      invariant hosts == Selected(base[..i], submitted)
    {
      assert base[..i + 1][..i] == base[..i];
      if base[i].id in submitted && submitted[base[i].id].selected {
        hosts := hosts + [submitted[base[i].id].content];
      }
    }
    assert base[..|base|] == base;
    r := Ok(hosts);
  }

  /** Exactly the selected drafts are submitted, as edited. */
  lemma {:induction false} SelectedTells(base: seq<Parsed>, submitted: map<nat, Draft>, item: Parsed)
    ensures item in Selected(base, submitted) <==>
            exists b :: b in base && b.id in submitted && submitted[b.id] == Draft(true, item)
  {
    if base != [] {
      var init, last := base[..|base| - 1], base[|base| - 1];
      assert base == init + [last];
      SelectedTells(init, submitted, item);
      if last.id in submitted && submitted[last.id].selected {
        assert submitted[last.id] == Draft(true, submitted[last.id].content);
      }
    }
  }

  /** They come in the order of the preview. */
  lemma {:induction false} SelectedInOrder(base: seq<Parsed>, more: seq<Parsed>, submitted: map<nat, Draft>)
    ensures Selected(base + more, submitted) == Selected(base, submitted) + Selected(more, submitted)
  {
    if more == [] {
      assert base + more == base;
    } else {
      var init := more[..|more| - 1];
      SelectedInOrder(base, init, submitted);
      assert (base + more)[..|base + more| - 1] == base + init;
    }
  }

  /** Submitting every preview item selected and unedited selects exactly the parsed hosts. */
  lemma {:induction false} UneditedSubmission(base: seq<Parsed>, submitted: map<nat, Draft>)
    requires forall b :: b in base ==> b.id in submitted && submitted[b.id] == Draft(true, b)
    ensures Selected(base, submitted) == base
  {
    if base != [] {
      UneditedSubmission(base[..|base| - 1], submitted);
      assert base == base[..|base| - 1] + [base[|base| - 1]];
    }
  }
}
