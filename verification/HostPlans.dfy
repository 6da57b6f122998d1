/**
 Planned hosts, alias resolution and the desired ProxyJump edges of one SSH-config import, as plain
 values. Lower-cased names and the parts the destination pattern extracts are fields: letter case
 and regular expressions are not part of this model.
 */
module HostPlans {
  import opened Common
  import opened SuccessorGraph

  /** proxy and options stand for the JSON text the original compares. */
  datatype Facts = Facts(
    hostname: string, port: nat, username: string, authType: string, proxy: string, options: string)

  datatype SavedHost = SavedHost(
    id: nat, alias: Alias, hostKey: string, facts: Facts, jumpHostId: Option<nat>, jumpHostIds: seq<nat>)

  /** One ProxyJump destination: its text, its lower-cased text, and the bare lower-cased destination. */
  datatype Jump = Jump(raw: string, direct: Alias, destination: Option<Alias>)

  datatype Parsed = Parsed(id: nat, alias: Alias, hostKey: string, facts: Facts, proxyJumps: seq<Jump>)

  datatype Plan = Plan(parsed: Parsed, existing: Option<SavedHost>)

  datatype Edge = Edge(source: Alias, target: Alias)

  // ----- lookups over the saved hosts -----

  function FirstByAlias(hosts: seq<SavedHost>): map<Alias, SavedHost> {
    if hosts == [] then map[] else
      var m := FirstByAlias(hosts[..|hosts| - 1]);
      var h := hosts[|hosts| - 1];
      if h.alias in m then m else m[h.alias := h]
  }

  function LastByAlias(hosts: seq<SavedHost>): map<Alias, SavedHost> {
    if hosts == [] then map[] else
      LastByAlias(hosts[..|hosts| - 1])[hosts[|hosts| - 1].alias := hosts[|hosts| - 1]]
  }

  function AliasById(hosts: seq<SavedHost>): map<nat, Alias> {
    if hosts == [] then map[] else
      AliasById(hosts[..|hosts| - 1])[hosts[|hosts| - 1].id := hosts[|hosts| - 1].alias]
  }

  function SavedAliases(hosts: seq<SavedHost>): set<Alias> {
    set h | h in hosts :: h.alias
  }

  predicate UniqueIds(hosts: seq<SavedHost>) {
    forall i, j :: 0 <= i < j < |hosts| ==> hosts[i].id != hosts[j].id
  }

  predicate HasId(hosts: seq<SavedHost>, id: nat) {
    exists h :: h in hosts && h.id == id
  }

  predicate UniqueNames(hosts: seq<SavedHost>) {
    forall i, j :: 0 <= i < j < |hosts| ==> hosts[i].alias != hosts[j].alias
  }

  /** Every saved jump points at a saved host. */
  predicate JumpsSaved(hosts: seq<SavedHost>) {
    forall h :: h in hosts && h.jumpHostId.Some? ==> exists t :: t in hosts && t.id == h.jumpHostId.value
  }

  method UniqueHostLookup(hosts: seq<SavedHost>) returns (output: map<Alias, SavedHost>)
    ensures output == FirstByAlias(hosts)
  {
    output := map[];
    for i := 0 to |hosts|
      invariant output == FirstByAlias(hosts[..i])
    {
      assert hosts[..i + 1][..i] == hosts[..i];
      if hosts[i].alias !in output {
        output := output[hosts[i].alias := hosts[i]];
      }
    }
    assert hosts[..|hosts|] == hosts;
  }

  lemma {:induction false} LookupFacts(hosts: seq<SavedHost>)
    ensures FirstByAlias(hosts).Keys == LastByAlias(hosts).Keys == SavedAliases(hosts)
    ensures forall a :: a in FirstByAlias(hosts) ==>
                          FirstByAlias(hosts)[a] in hosts && FirstByAlias(hosts)[a].alias == a
    ensures forall a :: a in LastByAlias(hosts) ==>
                          LastByAlias(hosts)[a] in hosts && LastByAlias(hosts)[a].alias == a
  {
    if hosts != [] {
      LookupFacts(hosts[..|hosts| - 1]);
      assert hosts == hosts[..|hosts| - 1] + [hosts[|hosts| - 1]];
    }
  }

  lemma {:induction false} AliasByIdOf(hosts: seq<SavedHost>, h: SavedHost)
    requires UniqueIds(hosts) && h in hosts
    ensures h.id in AliasById(hosts) && AliasById(hosts)[h.id] == h.alias
  {
    if h != hosts[|hosts| - 1] {
      assert h in hosts[..|hosts| - 1];
      AliasByIdOf(hosts[..|hosts| - 1], h);
    }
  }

  lemma {:induction false} AliasByIdFrom(hosts: seq<SavedHost>, id: nat)
    requires id in AliasById(hosts)
    ensures exists h :: h in hosts && h.id == id && h.alias == AliasById(hosts)[id]
  {
    if hosts[|hosts| - 1].id != id {
      AliasByIdFrom(hosts[..|hosts| - 1], id);
    }
  }

  // ----- alias resolution -----

  /** The aliases that share a hostname: among the listed plans, then among the saved hosts. */
  ghost function HostnameMatches(aliases: seq<Alias>, plans: map<Alias, Plan>, hosts: seq<SavedHost>, key: string)
    : set<Alias>
  {
    (set a | a in aliases && a in plans && plans[a].parsed.hostKey == key)
    + (set h | h in hosts && h.hostKey == key :: h.alias)
  }

  ghost function PlanMatches(plans: map<Alias, Plan>, hosts: seq<SavedHost>, key: string): set<Alias> {
    (set a | a in plans && plans[a].parsed.hostKey == key)
    + (set h | h in hosts && h.hostKey == key :: h.alias)
  }

  lemma MatchesAddPlan(aliases: seq<Alias>, a: Alias, plans: map<Alias, Plan>, key: string)
    requires a in plans
    ensures HostnameMatches(aliases + [a], plans, [], key) ==
            HostnameMatches(aliases, plans, [], key) + if plans[a].parsed.hostKey == key then {a} else {}
  {
  }

  lemma MatchesAddHost(aliases: seq<Alias>, plans: map<Alias, Plan>, hosts: seq<SavedHost>, h: SavedHost, key: string)
    ensures HostnameMatches(aliases, plans, hosts + [h], key) ==
            HostnameMatches(aliases, plans, hosts, key) + if h.hostKey == key then {h.alias} else {}
  {
  }

  predicate Known(plans: map<Alias, Plan>, hosts: seq<SavedHost>, a: Alias) {
    a in plans || a in SavedAliases(hosts)
  }

  /** What a jump text means: a direct name, else a bare destination name, else an unambiguous hostname. */
  ghost function Resolve(plans: map<Alias, Plan>, hosts: seq<SavedHost>, jump: Jump): (r: Option<Alias>)
    ensures r.Some? ==> Known(plans, hosts, r.value)
  {
    if Known(plans, hosts, jump.direct) then Some(jump.direct)
    else if jump.destination.None? then None
    else if Known(plans, hosts, jump.destination.value) then Some(jump.destination.value)
    else
      var matches := PlanMatches(plans, hosts, jump.destination.value);
      if |matches| == 1 then var a :| a in matches; Some(a) else None
  }

  /** An alias of the import, or of the saved hosts, has this hostname. */
  predicate HasHostname(plans: map<Alias, Plan>, hosts: seq<SavedHost>, a: Alias, key: string) {
    (a in plans && plans[a].parsed.hostKey == key) || exists h :: h in hosts && h.alias == a && h.hostKey == key
  }

  /** A jump text means a name if there is one; else a bare destination; else the only alias of that hostname. */
  ghost predicate Means(plans: map<Alias, Plan>, hosts: seq<SavedHost>, jump: Jump, a: Alias) {
    if Known(plans, hosts, jump.direct) then a == jump.direct
    else
      && jump.destination.Some?
      && if Known(plans, hosts, jump.destination.value) then a == jump.destination.value
         else
           && HasHostname(plans, hosts, a, jump.destination.value)
           && forall b :: HasHostname(plans, hosts, b, jump.destination.value) ==> b == a
  }

  /** A jump text resolves exactly to what it means. */
  lemma ResolveMeans(plans: map<Alias, Plan>, hosts: seq<SavedHost>, jump: Jump, a: Alias)
    ensures Resolve(plans, hosts, jump) == Some(a) <==> Means(plans, hosts, jump, a)
  {
    if !Known(plans, hosts, jump.direct) && jump.destination.Some? {
      var key := jump.destination.value;
      var matches := PlanMatches(plans, hosts, key);
      forall b ensures b in matches <==> HasHostname(plans, hosts, b, key) {
      }
      if Means(plans, hosts, jump, a) && !Known(plans, hosts, key) {
        assert matches == {a};
      }
      if |matches| == 1 {
        var b :| b in matches;
        Sole(matches, b);
      }
    }
  }

  class AliasResolver {
    ghost const plans: map<Alias, Plan>
    ghost const hosts: seq<SavedHost>
    var known: set<Alias>
    var hostnameAliases: map<string, set<Alias>>

    ghost predicate Valid()
      reads this
    {
      && (forall a :: a in known <==> Known(plans, hosts, a))
      && (forall key :: Entry(key) == PlanMatches(plans, hosts, key))
    }

    function Entry(key: string): set<Alias>
      reads this
    {
      if key in hostnameAliases then hostnameAliases[key] else {}
    }

    constructor (order: seq<Alias>, plans: map<Alias, Plan>, hosts: seq<SavedHost>)
      requires forall a :: a in order <==> a in plans
      ensures Valid() && this.plans == plans && this.hosts == hosts
    {
      this.plans := plans;
      this.hosts := hosts;
      known := plans.Keys + SavedAliases(hosts);
      hostnameAliases := map[];
      new;
      for i := 0 to |order|
        invariant known == plans.Keys + SavedAliases(hosts)
        invariant forall key :: Entry(key) == HostnameMatches(order[..i], plans, [], key)
      {
        forall key { MatchesAddPlan(order[..i], order[i], plans, key); }
        assert order[..i + 1] == order[..i] + [order[i]];
        AddHostname(plans[order[i]].parsed.hostKey, order[i]);
      }
      assert order[..|order|] == order;
      for i := 0 to |hosts|
        invariant known == plans.Keys + SavedAliases(hosts)
        invariant forall key :: Entry(key) == HostnameMatches(order, plans, hosts[..i], key)
      {
        forall key { MatchesAddHost(order, plans, hosts[..i], hosts[i], key); }
        assert hosts[..i + 1] == hosts[..i] + [hosts[i]];
        AddHostname(hosts[i].hostKey, hosts[i].alias);
      }
      assert hosts[..|hosts|] == hosts;
      forall key ensures HostnameMatches(order, plans, hosts, key) == PlanMatches(plans, hosts, key) {}
    }

    method AddHostname(key: string, alias: Alias)
      modifies this`hostnameAliases
      ensures forall k :: Entry(k) == old(Entry(k)) + if k == key then {alias} else {}
    {
      hostnameAliases := hostnameAliases[key := Entry(key) + {alias}];
    }

    method ResolveAlias(jump: Jump) returns (r: Option<Alias>)
      requires Valid()
      ensures r == Resolve(plans, hosts, jump)
    {
      if jump.direct in known { return Some(jump.direct); }
      if jump.destination.None? { return None; }
      var destination := jump.destination.value;
      if destination in known { return Some(destination); }
      var matches := Entry(destination);
      if |matches| != 1 {
        assert matches == PlanMatches(plans, hosts, destination);
        return None;
      }
      var a :| a in matches;
      Sole(matches, a);
      assert matches == Entry(destination) == PlanMatches(plans, hosts, destination);
      r := Some(a);
    }
  }

  lemma Sole<T>(s: set<T>, a: T)
    requires |s| == 1 && a in s
    ensures s == {a}
  {
    assert |s - {a}| == 0;
  }

  // ----- desired edges -----

  ghost function ResolveAll(plans: map<Alias, Plan>, hosts: seq<SavedHost>, jumps: seq<Jump>)
    : (r: Option<seq<Alias>>)
    ensures r.Some? ==> |r.value| == |jumps|
  {
    if jumps == [] then Some([]) else
      var before := ResolveAll(plans, hosts, jumps[..|jumps| - 1]);
      var last := Resolve(plans, hosts, jumps[|jumps| - 1]);
      if before.None? || last.None? then None else Some(before.value + [last.value])
  }

  /** The resolved jump list of one planned host. */
  ghost function Hops(plans: map<Alias, Plan>, hosts: seq<SavedHost>, owner: Alias): Option<seq<Alias>> {
    if owner in plans then ResolveAll(plans, hosts, plans[owner].parsed.proxyJumps) else None
  }

  /** Each hop connects through the hop before it. */
  function HopEdges(hops: seq<Alias>): set<Edge> {
    if |hops| < 2 then {} else
      HopEdges(hops[..|hops| - 1]) + {Edge(hops[|hops| - 1], hops[|hops| - 2])}
  }

  /** The owner connects through its last hop. */
  function OwnerEdges(owner: Alias, hops: seq<Alias>): set<Edge> {
    HopEdges(hops) + if hops == [] then {} else {Edge(owner, hops[|hops| - 1])}
  }

  ghost function PlanEdges(plans: map<Alias, Plan>, hosts: seq<SavedHost>, owner: Alias): set<Edge> {
    var hops := Hops(plans, hosts, owner);
    if hops.None? then {} else OwnerEdges(owner, hops.value)
  }

  /** The desired edges of some of the plans. */
  ghost function EdgesOf(owners: set<Alias>, plans: map<Alias, Plan>, hosts: seq<SavedHost>): set<Edge> {
    set a, e | a in owners && e in PlanEdges(plans, hosts, a) :: e
  }

  ghost function AllEdges(plans: map<Alias, Plan>, hosts: seq<SavedHost>): set<Edge> {
    EdgesOf(plans.Keys, plans, hosts)
  }

  ghost predicate AllResolve(owners: set<Alias>, plans: map<Alias, Plan>, hosts: seq<SavedHost>) {
    forall a :: a in owners ==> Hops(plans, hosts, a).Some?
  }

  /** No edge loops, and no alias is given two targets. */
  ghost predicate Consistent(edges: set<Edge>) {
    && (forall e :: e in edges ==> e.source != e.target)
    && (forall e, f :: e in edges && f in edges && e.source == f.source ==> e.target == f.target)
  }

  /** The map form of the edges. */
  ghost function EdgeMap(edges: set<Edge>): map<Alias, Alias> {
    map a | a in (set e | e in edges :: e.source) :: TargetIn(edges, a)
  }

  ghost function TargetIn(edges: set<Edge>, a: Alias): Alias
    requires exists e :: e in edges && e.source == a
  {
    var e :| e in edges && e.source == a;
    e.target
  }

  /** desired is exactly the consistent edges, as a map. */
  ghost predicate Records(desired: map<Alias, Alias>, edges: set<Edge>) {
    && (forall e :: e in edges ==> e.source != e.target && e.source in desired && desired[e.source] == e.target)
    && (forall a :: a in desired ==> Edge(a, desired[a]) in edges)
  }

  lemma RecordsFacts(desired: map<Alias, Alias>, edges: set<Edge>)
    ensures Consistent(edges) ==> Records(EdgeMap(edges), edges)
    ensures Records(desired, edges) ==> Consistent(edges) && desired == EdgeMap(edges)
  {
    if Records(desired, edges) {
      forall a | a in EdgeMap(edges) ensures a in desired && desired[a] == EdgeMap(edges)[a] {
        var e :| e in edges && e.source == a;
        assert Edge(a, TargetIn(edges, a)) in edges;
      }
      forall a | a in desired ensures a in EdgeMap(edges) {
        assert Edge(a, desired[a]) in edges;
      }
    }
  }

  lemma {:induction false} ResolveAllKnown(plans: map<Alias, Plan>, hosts: seq<SavedHost>, jumps: seq<Jump>)
    ensures var r := ResolveAll(plans, hosts, jumps);
            r.Some? ==> forall a :: a in r.value ==> Known(plans, hosts, a)
  {
    if jumps != [] {
      ResolveAllKnown(plans, hosts, jumps[..|jumps| - 1]);
    }
  }

  lemma {:induction false} ResolveAllPrefix(plans: map<Alias, Plan>, hosts: seq<SavedHost>, jumps: seq<Jump>, k: nat)
    requires k <= |jumps|
    ensures ResolveAll(plans, hosts, jumps).Some? ==>
              && ResolveAll(plans, hosts, jumps[..k]).Some?
              && ResolveAll(plans, hosts, jumps[..k]).value == ResolveAll(plans, hosts, jumps).value[..k]
  {
    if k < |jumps| {
      ResolveAllPrefix(plans, hosts, jumps[..|jumps| - 1], k);
      assert jumps[..|jumps| - 1][..k] == jumps[..k];
    } else {
      assert jumps[..k] == jumps;
    }
  }

  lemma {:induction false} HopEdgesPrefix(hops: seq<Alias>, k: nat)
    requires k <= |hops|
    ensures HopEdges(hops[..k]) <= HopEdges(hops)
  {
    if k < |hops| {
      HopEdgesPrefix(hops[..|hops| - 1], k);
      assert hops[..|hops| - 1][..k] == hops[..k];
    } else {
      assert hops[..k] == hops;
    }
  }

  lemma HopEdgesSnoc(hops: seq<Alias>, alias: Alias)
    ensures HopEdges(hops + [alias]) == HopEdges(hops) + if hops == [] then {} else {Edge(alias, hops[|hops| - 1])}
  {
    assert (hops + [alias])[..|hops|] == hops;
  }

  lemma {:induction false} HopEdgeAt(hops: seq<Alias>, i: nat)
    requires 1 <= i < |hops|
    ensures Edge(hops[i], hops[i - 1]) in HopEdges(hops)
  {
    if i < |hops| - 1 {
      HopEdgeAt(hops[..|hops| - 1], i);
    }
  }

  lemma {:induction false} HopEdgesKnown(hops: seq<Alias>)
    ensures forall e :: e in HopEdges(hops) ==> e.source in hops && e.target in hops
  {
    if |hops| >= 2 {
      HopEdgesKnown(hops[..|hops| - 1]);
    }
  }

  lemma AllEdgesKnown(plans: map<Alias, Plan>, hosts: seq<SavedHost>)
    ensures forall e :: e in AllEdges(plans, hosts) ==>
                          Known(plans, hosts, e.source) && Known(plans, hosts, e.target)
  {
    forall e | e in AllEdges(plans, hosts)
      ensures Known(plans, hosts, e.source) && Known(plans, hosts, e.target)
    {
      var a :| a in plans && e in PlanEdges(plans, hosts, a);
      ResolveAllKnown(plans, hosts, plans[a].parsed.proxyJumps);
      HopEdgesKnown(Hops(plans, hosts, a).value);
    }
  }

  /** The first k jumps resolve to hops; last is the alias of the last one. */
  ghost predicate HopsRead(
    plans: map<Alias, Plan>, hosts: seq<SavedHost>, jumps: seq<Jump>, k: nat, hops: seq<Alias>, last: Option<Alias>)
  {
    && k <= |jumps| && |hops| == k
    && ResolveAll(plans, hosts, jumps[..k]) == Some(hops)
    && last == if k == 0 then None else Some(hops[k - 1])
  }

  lemma ReadHop(
    plans: map<Alias, Plan>, hosts: seq<SavedHost>, jumps: seq<Jump>, k: nat, hops: seq<Alias>, last: Option<Alias>)
    requires k < |jumps| && HopsRead(plans, hosts, jumps, k, hops, last)
    ensures var alias := Resolve(plans, hosts, jumps[k]);
            if alias.None? then ResolveAll(plans, hosts, jumps[..k + 1]).None?
            else
              && HopsRead(plans, hosts, jumps, k + 1, hops + [alias.value], alias)
              && HopEdges(hops + [alias.value]) ==
                 HopEdges(hops) + if last.None? then {} else {Edge(alias.value, last.value)}
  {
    assert jumps[..k + 1][..k] == jumps[..k];
    var alias := Resolve(plans, hosts, jumps[k]);
    if alias.Some? {
      HopEdgesSnoc(hops, alias.value);
    }
  }

  /** The owner's hops do not resolve, or contradict the edges collected before them. */
  ghost predicate HopsFail(plans: map<Alias, Plan>, hosts: seq<SavedHost>, owner: Alias, before: set<Edge>) {
    var hops := Hops(plans, hosts, owner);
    hops.None? || !Consistent(before + HopEdges(hops.value))
  }

  /** A contradiction among the first k hops stays one. */
  lemma StageFails(plans: map<Alias, Plan>, hosts: seq<SavedHost>, owner: Alias, before: set<Edge>, k: nat)
    requires owner in plans && k <= |plans[owner].parsed.proxyJumps|
    requires var hops := ResolveAll(plans, hosts, plans[owner].parsed.proxyJumps[..k]);
             hops.None? || !Consistent(before + HopEdges(hops.value))
    ensures HopsFail(plans, hosts, owner, before)
  {
    ResolveAllPrefix(plans, hosts, plans[owner].parsed.proxyJumps, k);
    if Hops(plans, hosts, owner).Some? {
      var hops := Hops(plans, hosts, owner).value;
      HopEdgesPrefix(hops, k);
      assert before + HopEdges(hops[..k]) <= before + HopEdges(hops);
    }
  }

  lemma HopsFailAll(plans: map<Alias, Plan>, hosts: seq<SavedHost>, owner: Alias, before: set<Edge>)
    requires owner in plans && before <= AllEdges(plans, hosts) && HopsFail(plans, hosts, owner, before)
    ensures !(AllResolve(plans.Keys, plans, hosts) && Consistent(AllEdges(plans, hosts)))
  {
    if AllResolve(plans.Keys, plans, hosts) {
      var hops := Hops(plans, hosts, owner).value;
      assert HopEdges(hops) <= PlanEdges(plans, hosts, owner) <= AllEdges(plans, hosts);
      assert before + HopEdges(hops) <= AllEdges(plans, hosts);
    }
  }

  lemma AddOwner(plans: map<Alias, Plan>, hosts: seq<SavedHost>, done: set<Alias>, owner: Alias)
    requires done <= plans.Keys && owner in plans
    ensures EdgesOf(done + {owner}, plans, hosts) == EdgesOf(done, plans, hosts) + PlanEdges(plans, hosts, owner)
    ensures EdgesOf(done + {owner}, plans, hosts) <= AllEdges(plans, hosts)
    ensures var hops := Hops(plans, hosts, owner);
            hops.Some? ==>
              EdgesOf(done + {owner}, plans, hosts) ==
              EdgesOf(done, plans, hosts) + HopEdges(hops.value)
              + if hops.value == [] then {} else {Edge(owner, hops.value[|hops.value| - 1])}
  {
  }
}
