/** How a connection reads stored jumps back, and what it finds after an import. */
module ConnectionChain {
  import opened Common
  import opened SuccessorGraph
  import opened HostPlans
  import opened HostPreview
  import opened HostCommit
  import opened HostImport

  datatype ChainError = CycleDetected | HostNotFound

  /** Host k of a chain jumps through the one before it. */
  ghost predicate JumpsAt(chain: seq<SavedHost>, k: nat)
    requires 1 <= k < |chain|
  {
    chain[k].jumpHostId == Some(chain[k - 1].id)
  }

  /** A connection order: each host jumps through the one before it, the first connects directly. */
  ghost predicate IsChain(hosts: seq<SavedHost>, chain: seq<SavedHost>) {
    && chain != []
    && chain[0].jumpHostId.None?
    && (forall i :: 0 <= i < |chain| ==> chain[i] in hosts)
    && (forall k :: 1 <= k < |chain| ==> JumpsAt(chain, k))
  }

  ghost predicate IsChainTo(hosts: seq<SavedHost>, chain: seq<SavedHost>, host: SavedHost) {
    IsChain(hosts, chain) && chain[|chain| - 1] == host
  }

  ghost predicate EndsIn<T>(s: seq<T>, end: seq<T>) {
    |end| <= |s| && s[|s| - |end|..] == end
  }

  lemma SameById(hosts: seq<SavedHost>, g: SavedHost, h: SavedHost)
    requires UniqueIds(hosts) && g in hosts && h in hosts && g.id == h.id
    ensures g == h
  {
  }

  /** No host appears twice in a chain. */
  lemma {:induction false} ChainDistinct(hosts: seq<SavedHost>, chain: seq<SavedHost>, i: nat, j: nat)
    requires UniqueIds(hosts) && IsChain(hosts, chain)
    requires i < j < |chain|
    ensures chain[i].id != chain[j].id
    decreases i
  {
    if chain[i].id == chain[j].id {
      SameById(hosts, chain[i], chain[j]);
      assert JumpsAt(chain, j);
      if i > 0 {
        assert JumpsAt(chain, i);
        ChainDistinct(hosts, chain, i - 1, j - 1);
      }
    }
  }

  method GetHost(hosts: seq<SavedHost>, id: nat) returns (host: Option<SavedHost>)
    ensures host.Some? ==> host.value in hosts && host.value.id == id
    ensures host.None? ==> forall h :: h in hosts ==> h.id != id
  {
    for i := 0 to |hosts|
      invariant forall h :: h in hosts[..i] ==> h.id != id
    {
      if hosts[i].id == id { return Some(hosts[i]); }
    }
    assert hosts[..|hosts|] == hosts;
    host := None;
  }

  /** An explicit jump list names saved hosts, none of them twice and none the target itself. */
  ghost predicate ExplicitChain(hosts: seq<SavedHost>, host: SavedHost, chain: seq<SavedHost>) {
    && |chain| == |host.jumpHostIds| + 1 && chain[|chain| - 1] == host
    && (forall i :: 0 <= i < |host.jumpHostIds| ==> chain[i] in hosts && chain[i].id == host.jumpHostIds[i])
    && (forall i, j :: 0 <= i < j < |chain| ==> chain[i].id != chain[j].id)
  }

  /** What a connection to host goes through: its explicit jump list if it has one, else its stored jumps. */
  ghost predicate ConnectsThrough(hosts: seq<SavedHost>, host: SavedHost, chain: seq<SavedHost>) {
    if host.jumpHostIds != [] then ExplicitChain(hosts, host, chain) else IsChainTo(hosts, chain, host)
  }

  /** The hosts met on the way back from host, as far as the walk has come, each of them once. */
  ghost predicate OnTheWay(hosts: seq<SavedHost>, host: SavedHost, chain: seq<SavedHost>) {
    && chain != [] && chain[|chain| - 1] == host
    && (forall i :: 0 <= i < |chain| ==> chain[i] in hosts)
    && (forall k :: 1 <= k < |chain| ==> JumpsAt(chain, k))
    && (forall i, j :: 0 <= i < j < |chain| ==> chain[i].id != chain[j].id)
  }

  /** The walk comes back to a host it has met, or to an id that no host has. */
  ghost predicate WalkFails(hosts: seq<SavedHost>, host: SavedHost, e: ChainError, chain: seq<SavedHost>) {
    && OnTheWay(hosts, host, chain) && chain[0].jumpHostId.Some?
    && match e {
         case CycleDetected => HasId(chain, chain[0].jumpHostId.value)
         case HostNotFound => !HasId(hosts, chain[0].jumpHostId.value)
       }
  }

  /** Hop k of a jump list is the first that is no further saved host; the repetition is noticed first. */
  predicate ListFails(hosts: seq<SavedHost>, host: SavedHost, e: ChainError, k: nat)
    requires k < |host.jumpHostIds|
  {
    && (forall i :: 0 <= i < k ==> !Repeats(host, i) && HasId(hosts, host.jumpHostIds[i]))
    && match e {
         case CycleDetected => Repeats(host, k)
         case HostNotFound => !Repeats(host, k) && !HasId(hosts, host.jumpHostIds[k])
       }
  }

  predicate Repeats(host: SavedHost, k: nat)
    requires k < |host.jumpHostIds|
  {
    host.jumpHostIds[k] == host.id || host.jumpHostIds[k] in host.jumpHostIds[..k]
  }

  ghost predicate ResolveFails(hosts: seq<SavedHost>, host: SavedHost, e: ChainError) {
    if host.jumpHostIds != [] then exists k :: 0 <= k < |host.jumpHostIds| && ListFails(hosts, host, e, k)
    else exists chain :: WalkFails(hosts, host, e, chain)
  }

  /** The hosts to connect through, first hop first, or the reason why there are none. */
  method ResolveChain(hosts: seq<SavedHost>, host: SavedHost) returns (r: Result<seq<SavedHost>, ChainError>)
    requires UniqueIds(hosts) && host in hosts
    ensures r.Ok? <==> exists chain :: ConnectsThrough(hosts, host, chain)
    ensures r.Ok? ==> ConnectsThrough(hosts, host, r.value)
    ensures r.Err? ==> ResolveFails(hosts, host, r.error)
  {
    if host.jumpHostIds != [] {
      assert forall other :: ConnectsThrough(hosts, host, other) <==> ExplicitChain(hosts, host, other);
      r := ResolveExplicit(hosts, host);
      return;
    }
    assert forall other :: ConnectsThrough(hosts, host, other) <==> IsChainTo(hosts, other, host);
    hide ExplicitChain, ListFails;
    var chain := [host];
    var seen := {host.id};
    var jump := host.jumpHostId;
    ghost var ids := set h | h in hosts :: h.id;
    while jump.Some?
      invariant OnTheWay(hosts, host, chain) && jump == chain[0].jumpHostId
      invariant forall id :: id in seen <==> HasId(chain, id)
      invariant seen <= ids
      invariant AllEndIn(hosts, host, chain)
      decreases ids - seen
    {
      if jump.value in seen {
        Revisited(hosts, host, chain);
        assert WalkFails(hosts, host, CycleDetected, chain);
        return Err(CycleDetected);
      }
      var item := GetHost(hosts, jump.value);
      if item.None? {
        Dangling(hosts, host, chain);
        assert WalkFails(hosts, host, HostNotFound, chain);
        return Err(HostNotFound);
      }
      Prepended(hosts, host, chain, item.value);
      OneFurther(hosts, host, chain, item.value);
      seen := seen + {jump.value};
      chain := [item.value] + chain;
      jump := item.value.jumpHostId;
    }
    assert IsChainTo(hosts, chain, host);
    r := Ok(chain);
  }

  lemma OneFurther(hosts: seq<SavedHost>, host: SavedHost, chain: seq<SavedHost>, item: SavedHost)
    requires OnTheWay(hosts, host, chain) && item in hosts && chain[0].jumpHostId == Some(item.id)
    requires !HasId(chain, item.id)
    ensures OnTheWay(hosts, host, [item] + chain)
    ensures forall id :: HasId([item] + chain, id) <==> id == item.id || HasId(chain, id)
  {
    var longer := [item] + chain;
    forall k | 1 <= k < |longer| ensures JumpsAt(longer, k) {
      assert k > 1 ==> JumpsAt(chain, k - 1);
    }
    forall i | 0 <= i < |chain| ensures HasId(chain, chain[i].id) {
    }
    forall id | HasId(chain, id) ensures HasId(longer, id) {
      var h :| h in chain && h.id == id;
      assert h in longer;
    }
    assert longer[0] == item;
  }

  /** Of two walks back from the same host, the longer one ends in the shorter one. */
  lemma {:induction false} SameWay(
    hosts: seq<SavedHost>, host: SavedHost, short: seq<SavedHost>, long: seq<SavedHost>, k: nat)
    requires UniqueIds(hosts) && OnTheWay(hosts, host, short) && OnTheWay(hosts, host, long)
    requires k < |short| <= |long|
    ensures short[|short| - 1 - k] == long[|long| - 1 - k]
  {
    if k > 0 {
      SameWay(hosts, host, short, long, k - 1);
      assert JumpsAt(short, |short| - k) && JumpsAt(long, |long| - k);
      SameById(hosts, short[|short| - 1 - k], long[|long| - 1 - k]);
    }
  }

  /** A walk that fails cannot go on. */
  lemma FailedWalkEnds(
    hosts: seq<SavedHost>, host: SavedHost, e: ChainError, chain: seq<SavedHost>, other: seq<SavedHost>)
    requires UniqueIds(hosts) && WalkFails(hosts, host, e, chain) && OnTheWay(hosts, host, other)
    ensures |other| <= |chain|
  {
    if |other| > |chain| {
      var k := |other| - |chain|;
      SameWay(hosts, host, chain, other, |chain| - 1);
      assert JumpsAt(other, k) && other[k - 1] in hosts;
      if e == CycleDetected {
        var h :| h in chain && h.id == chain[0].jumpHostId.value;
        var i :| 0 <= i < |chain| && chain[i] == h;
        SameWay(hosts, host, chain, other, |chain| - 1 - i);
      }
    }
  }

  /** There is one reason at most why a connection has no chain. */
  lemma OneReason(hosts: seq<SavedHost>, host: SavedHost, e: ChainError, f: ChainError)
    requires UniqueIds(hosts) && ResolveFails(hosts, host, e) && ResolveFails(hosts, host, f)
    ensures e == f
  {
    if host.jumpHostIds != [] {
      var j :| 0 <= j < |host.jumpHostIds| && ListFails(hosts, host, e, j);
      var k :| 0 <= k < |host.jumpHostIds| && ListFails(hosts, host, f, k);
    } else {
      var a :| WalkFails(hosts, host, e, a);
      var b :| WalkFails(hosts, host, f, b);
      FailedWalkEnds(hosts, host, e, a, b);
      FailedWalkEnds(hosts, host, f, b, a);
      SameWay(hosts, host, a, b, |a| - 1);
      forall i | 0 <= i < |a| ensures a[i] == b[i] {
        SameWay(hosts, host, a, b, |a| - 1 - i);
      }
      assert a == b && forall h :: h in a ==> h in hosts;
    }
  }

  /** A complete chain that ends in an incomplete one has the missing jump host right before it. */
  lemma Longer(hosts: seq<SavedHost>, full: seq<SavedHost>, chain: seq<SavedHost>)
    requires IsChain(hosts, full) && chain != [] && EndsIn(full, chain) && chain[0].jumpHostId.Some?
    ensures |chain| < |full|
    ensures full[|full| - |chain| - 1] in hosts && full[|full| - |chain| - 1].id == chain[0].jumpHostId.value
  {
    var k := |full| - |chain|;
    assert full[k] == full[k..][0] == chain[0];
    assert k > 0 ==> JumpsAt(full, k);
  }

  /** Every complete chain to host ends in this one. */
  ghost predicate AllEndIn(hosts: seq<SavedHost>, host: SavedHost, chain: seq<SavedHost>) {
    forall full :: IsChainTo(hosts, full, host) ==> EndsIn(full, chain)
  }

  /** No complete chain exists once the next jump is already on the way. */
  lemma Revisited(hosts: seq<SavedHost>, host: SavedHost, chain: seq<SavedHost>)
    requires UniqueIds(hosts) && AllEndIn(hosts, host, chain)
    requires chain != [] && chain[0].jumpHostId.Some?
    requires HasId(chain, chain[0].jumpHostId.value)
    ensures !exists full :: IsChainTo(hosts, full, host)
  {
    if full :| IsChainTo(hosts, full, host) {
      Longer(hosts, full, chain);
      var k := |full| - |chain|;
      var h :| h in chain && h.id == chain[0].jumpHostId.value;
      var i :| 0 <= i < |chain| && chain[i] == h;
      assert full[k..][i] == full[k + i];
      ChainDistinct(hosts, full, k - 1, k + i);
    }
  }

  /** No complete chain exists when the next jump is not saved. */
  lemma Dangling(hosts: seq<SavedHost>, host: SavedHost, chain: seq<SavedHost>)
    requires AllEndIn(hosts, host, chain)
    requires chain != [] && chain[0].jumpHostId.Some?
    requires !HasId(hosts, chain[0].jumpHostId.value)
    ensures !exists full :: IsChainTo(hosts, full, host)
  {
    if full :| IsChainTo(hosts, full, host) {
      Longer(hosts, full, chain);
    }
  }

  lemma Prepended(hosts: seq<SavedHost>, host: SavedHost, chain: seq<SavedHost>, item: SavedHost)
    requires UniqueIds(hosts) && AllEndIn(hosts, host, chain)
    requires chain != [] && item in hosts && chain[0].jumpHostId == Some(item.id)
    ensures AllEndIn(hosts, host, [item] + chain)
  {
    forall full | IsChainTo(hosts, full, host) ensures EndsIn(full, [item] + chain) {
      Longer(hosts, full, chain);
      var k := |full| - |chain|;
      SameById(hosts, full[k - 1], item);
      assert full[k - 1..] == [full[k - 1]] + full[k..];
    }
  }

  /** A jump list that has a chain names saved hosts, repeats none and does not name the target. */
  lemma ExplicitHop(hosts: seq<SavedHost>, host: SavedHost, chain: seq<SavedHost>, k: nat)
    requires k < |host.jumpHostIds| && ExplicitChain(hosts, host, chain)
    ensures host.jumpHostIds[k] != host.id && host.jumpHostIds[k] !in host.jumpHostIds[..k]
    ensures exists h :: h in hosts && h.id == host.jumpHostIds[k]
  {
    assert chain[k].id != chain[|chain| - 1].id;
    forall i | 0 <= i < k ensures host.jumpHostIds[i] != host.jumpHostIds[k] {
      assert chain[i].id != chain[k].id;
    }
    assert chain[k] in hosts;
  }

  /** The first k hops of a jump list, each a further saved host. */
  ghost predicate ListedUpTo(hosts: seq<SavedHost>, host: SavedHost, chain: seq<SavedHost>, k: nat) {
    && |chain| == k <= |host.jumpHostIds|
    && forall i :: 0 <= i < k ==>
                     chain[i] in hosts && chain[i].id == host.jumpHostIds[i] && !Repeats(host, i)
  }

  /** A hop that is no further saved host leaves the list without a chain. */
  lemma BrokenList(hosts: seq<SavedHost>, host: SavedHost, chain: seq<SavedHost>, k: nat)
    requires ListedUpTo(hosts, host, chain, k) && k < |host.jumpHostIds|
    requires Repeats(host, k) || !HasId(hosts, host.jumpHostIds[k])
    ensures !exists other :: ExplicitChain(hosts, host, other)
    ensures ListFails(hosts, host, if Repeats(host, k) then CycleDetected else HostNotFound, k)
  {
    forall other | ExplicitChain(hosts, host, other)
      ensures !Repeats(host, k) && HasId(hosts, host.jumpHostIds[k])
    {
      ExplicitHop(hosts, host, other, k);
    }
    forall i | 0 <= i < k ensures HasId(hosts, host.jumpHostIds[i]) {
      assert chain[i] in hosts;
    }
  }

  lemma WholeList(hosts: seq<SavedHost>, host: SavedHost, chain: seq<SavedHost>)
    requires ListedUpTo(hosts, host, chain, |host.jumpHostIds|)
    ensures ExplicitChain(hosts, host, chain + [host])
  {
    var full := chain + [host];
    forall i, j | 0 <= i < j < |full| ensures full[i].id != full[j].id {
      assert !Repeats(host, i) && (j < |chain| ==> !Repeats(host, j));
    }
  }

  method ResolveExplicit(hosts: seq<SavedHost>, host: SavedHost) returns (r: Result<seq<SavedHost>, ChainError>)
    requires UniqueIds(hosts) && host in hosts
    ensures r.Ok? <==> exists chain :: ExplicitChain(hosts, host, chain)
    ensures r.Ok? ==> ExplicitChain(hosts, host, r.value)
    ensures r.Err? ==> exists k :: 0 <= k < |host.jumpHostIds| && ListFails(hosts, host, r.error, k)
  {
    hide ExplicitChain, ListFails, UniqueIds;
    var seen := {host.id};
    var chain: seq<SavedHost> := [];
    for k := 0 to |host.jumpHostIds|
      invariant ListedUpTo(hosts, host, chain, k)
      invariant forall id :: id in seen <==> id == host.id || id in host.jumpHostIds[..k]
    {
      var id := host.jumpHostIds[k];
      if id in seen {
        BrokenList(hosts, host, chain, k);
        return Err(CycleDetected);
      }
      var item := GetHost(hosts, id);
      if item.None? {
        BrokenList(hosts, host, chain, k);
        return Err(HostNotFound);
      }
      seen := seen + {id};
      chain := chain + [item.value];
    }
    WholeList(hosts, host, chain);
    r := Ok(chain + [host]);
  }

  // ----- after an import -----

  function AliasesOf(chain: seq<SavedHost>): seq<Alias> {
    seq(|chain|, i requires 0 <= i < |chain| => chain[i].alias)
  }

  ghost predicate IsNext(next: map<Alias, Alias>, a: Alias, target: Alias) {
    a in next && next[a] == target
  }

  /** Each alias connects through the one before it. */
  ghost predicate Follows(next: map<Alias, Alias>, path: seq<Alias>) {
    forall k :: 1 <= k < |path| ==> FollowsAt(next, path, k)
  }

  ghost predicate FollowsAt(next: map<Alias, Alias>, path: seq<Alias>, k: nat)
    requires 1 <= k < |path|
  {
    IsNext(next, path[k], path[k - 1])
  }

  /** The stored jump of h is the successor of its alias. */
  ghost predicate StoresSuccessor(hosts: seq<SavedHost>, next: map<Alias, Alias>, h: SavedHost) {
    && (h.alias in next <==> h.jumpHostId.Some?)
    && (h.jumpHostId.Some? ==>
          exists t :: t in hosts && t.alias == next[h.alias] && t.id == h.jumpHostId.value)
  }

  /** What an accepted and committed import of items leaves behind, over uniquely named saved hosts. */
  ghost predicate CommittedOver(items: seq<Parsed>, before: seq<SavedHost>, after: seq<SavedHost>, o: Outcome) {
    && UniqueIds(after) && UniqueNames(before) && JumpsSaved(before)
    && Accepts(items, before) && ImportedAs(items, before, after, o)
  }

  ghost function DesiredOf(items: seq<Parsed>, before: seq<SavedHost>): map<Alias, Alias> {
    EdgeMap(AllEdges(Plans(items, FirstByAlias(before)), before))
  }

  ghost function NextOf(items: seq<Parsed>, before: seq<SavedHost>): map<Alias, Alias> {
    CommitNext(Plans(items, FirstByAlias(before)), before, DesiredOf(items, before))
  }

  lemma UniquelyNamed(hosts: seq<SavedHost>, h: SavedHost)
    requires UniqueNames(hosts) && h in hosts
    ensures h.alias in FirstByAlias(hosts) && FirstByAlias(hosts)[h.alias] == h
    ensures h.alias in LastByAlias(hosts) && LastByAlias(hosts)[h.alias] == h
  {
    LookupFacts(hosts);
    SameLookups(hosts);
    var g := FirstByAlias(hosts)[h.alias];
    var i :| 0 <= i < |hosts| && hosts[i] == h;
    var j :| 0 <= j < |hosts| && hosts[j] == g;
  }

  /** A host of the import is the one its alias resolved to. */
  lemma ResolvedHost(items: seq<Parsed>, before: seq<SavedHost>, after: seq<SavedHost>, o: Outcome, h: SavedHost)
    requires CommittedOver(items, before, after, o) && h in after
    ensures h.alias in Plans(items, FirstByAlias(before)) ==> o.resolved[h.alias] == h
    ensures h.alias !in Plans(items, FirstByAlias(before)) ==> h in before
  {
    var first := FirstByAlias(before);
    PlansFacts(items, first);
    if h in before {
      UniquelyNamed(before, h);
    } else {
      assert h in o.created;
    }
  }

  lemma ImportStoresSuccessor(
    items: seq<Parsed>, before: seq<SavedHost>, after: seq<SavedHost>, o: Outcome, h: SavedHost)
    requires CommittedOver(items, before, after, o) && h in after
    ensures StoresSuccessor(after, NextOf(items, before), h)
  {
    var first := FirstByAlias(before);
    var plans, desired := Plans(items, first), DesiredOf(items, before);
    ResolvedHost(items, before, after, o, h);
    LookupFacts(before);
    if h.alias in plans {
      assert JumpsAsPlanned(desired, o.resolved, first, h.alias);
      if h.alias in desired {
        var t := Target(o.resolved, first, desired[h.alias]).value;
        TargetStored(items, before, after, o, desired[h.alias]);
        assert t in after && t.alias == desired[h.alias];
      }
    } else {
      UniquelyNamed(before, h);
      if h.jumpHostId.Some? {
        var t :| t in before && t.id == h.jumpHostId.value;
        BeforeUnique(before, o.created);
        AliasByIdOf(before, t);
        assert t in after;
      }
    }
  }

  lemma BeforeUnique(before: seq<SavedHost>, created: seq<SavedHost>)
    requires UniqueIds(before + created)
    ensures UniqueIds(before)
  {
    assert forall i :: 0 <= i < |before| ==> (before + created)[i] == before[i];
  }

  lemma TargetStored(
    items: seq<Parsed>, before: seq<SavedHost>, after: seq<SavedHost>, o: Outcome, t: Alias)
    requires CommittedOver(items, before, after, o)
    requires Target(o.resolved, FirstByAlias(before), t).Some?
    ensures Target(o.resolved, FirstByAlias(before), t).value in after
    ensures Target(o.resolved, FirstByAlias(before), t).value.alias == t
  {
    LookupFacts(before);
    var plans := Plans(items, FirstByAlias(before));
    PlansFacts(items, FirstByAlias(before));
    if t in o.resolved {
      assert t in plans && ResolvedAs(plans, o, t);
      assert JumpsAsPlanned(DesiredOf(items, before), o.resolved, FirstByAlias(before), t);
    }
  }

  /** A host whose walk ends after n steps has a chain of n + 1 hosts. */
  lemma {:induction false} BuildChain(hosts: seq<SavedHost>, next: map<Alias, Alias>, h: SavedHost, n: nat)
    returns (chain: seq<SavedHost>)
    requires forall g :: g in hosts ==> StoresSuccessor(hosts, next, g)
    requires h in hosts && Ends(next, h.alias, n)
    ensures IsChainTo(hosts, chain, h)
    decreases n
  {
    assert StoresSuccessor(hosts, next, h);
    if n == 0 {
      chain := [h];
    } else {
      var t :| t in hosts && t.alias == next[h.alias] && t.id == h.jumpHostId.value;
      var inner := BuildChain(hosts, next, t, n - 1);
      chain := inner + [h];
      forall k | 1 <= k < |chain| ensures JumpsAt(chain, k) {
        assert k < |inner| ==> JumpsAt(inner, k);
      }
    }
  }

  lemma ChainFollows(hosts: seq<SavedHost>, next: map<Alias, Alias>, chain: seq<SavedHost>)
    requires UniqueIds(hosts) && IsChain(hosts, chain)
    requires forall g :: g in hosts ==> StoresSuccessor(hosts, next, g)
    ensures Follows(next, AliasesOf(chain)) && AliasesOf(chain)[0] !in next
  {
    assert StoresSuccessor(hosts, next, chain[0]);
    forall k | 1 <= k < |chain|
      ensures FollowsAt(next, AliasesOf(chain), k)
    {
      assert JumpsAt(chain, k) && StoresSuccessor(hosts, next, chain[k]);
      var t :| t in hosts && t.alias == next[chain[k].alias] && t.id == chain[k].jumpHostId.value;
      SameById(hosts, t, chain[k - 1]);
    }
  }

  /** A complete backward walk ends in w exactly when w itself follows the graph. */
  lemma {:induction false} EndsInIffFollows(next: map<Alias, Alias>, path: seq<Alias>, w: seq<Alias>)
    requires path != [] && Follows(next, path) && path[0] !in next
    requires w != [] && w[|w| - 1] == path[|path| - 1]
    ensures EndsIn(path, w) <==> Follows(next, w)
    decreases |w|
  {
    var last := path[|path| - 1];
    if |w| == 1 {
      assert path[|path| - 1..] == w;
    } else if |path| == 1 {
      assert !FollowsAt(next, w, |w| - 1);
    } else {
      var p, v := path[..|path| - 1], w[..|w| - 1];
      assert path == p + [last] && w == v + [last];
      assert FollowsAt(next, path, |path| - 1);
      FollowsInit(next, path);
      FollowsInit(next, w);
      if v[|v| - 1] == p[|p| - 1] {
        EndsInIffFollows(next, p, v);
        EndsInSnoc(p, v, last);
      } else {
        assert !FollowsAt(next, w, |w| - 1);
        if EndsIn(path, w) {
          Penultimate(path, w);
        }
      }
    }
  }

  /** Following a path is following all but its end, and its last step. */
  lemma FollowsInit(next: map<Alias, Alias>, path: seq<Alias>)
    requires |path| >= 2
    ensures Follows(next, path) <==> Follows(next, path[..|path| - 1]) && FollowsAt(next, path, |path| - 1)
  {
    var init := path[..|path| - 1];
    assert forall k :: 1 <= k < |init| ==> (FollowsAt(next, init, k) <==> FollowsAt(next, path, k));
  }

  lemma Penultimate<T>(s: seq<T>, end: seq<T>)
    requires EndsIn(s, end) && |end| >= 2
    ensures end[|end| - 2] == s[|s| - 2]
  {
    assert s[|s| - |end|..][|end| - 2] == s[|s| - 2];
  }

  lemma EndsInSnoc<T>(p: seq<T>, v: seq<T>, x: T)
    ensures EndsIn(p + [x], v + [x]) <==> EndsIn(p, v)
  {
    if |v| <= |p| {
      assert (p + [x])[|p| - |v|..] == p[|p| - |v|..] + [x];
      assert (p[|p| - |v|..] + [x])[..|v|] == p[|p| - |v|..] && (v + [x])[..|v|] == v;
    }
  }

  /**
   Hop i of a jump list is stored as listed: it is part of the import, or it is a saved host that
   already jumps through the hop before it.
   */
  predicate HopStored(plans: map<Alias, Plan>, before: seq<SavedHost>, hops: seq<Alias>, i: nat)
    requires 1 <= i < |hops|
  {
    var last := LastByAlias(before);
    hops[i] in plans
    || (hops[i] in last && hops[i - 1] in last && last[hops[i]].jumpHostId == Some(last[hops[i - 1]].id))
  }

  lemma HopFollowsIffStored(
    plans: map<Alias, Plan>, before: seq<SavedHost>, desired: map<Alias, Alias>, hops: seq<Alias>, i: nat)
    requires UniqueIds(before) && UniqueNames(before)
    requires 1 <= i < |hops| && Known(plans, before, hops[i])
    requires hops[i] in desired && desired[hops[i]] == hops[i - 1]
    ensures IsNext(CommitNext(plans, before, desired), hops[i], hops[i - 1]) <==> HopStored(plans, before, hops, i)
  {
    var last := LastByAlias(before);
    LookupFacts(before);
    if hops[i] !in plans {
      var s := last[hops[i]];
      if hops[i - 1] in last {
        AliasByIdOf(before, last[hops[i - 1]]);
      }
      if s.jumpHostId.Some? && s.jumpHostId.value in AliasById(before) {
        AliasByIdFrom(before, s.jumpHostId.value);
        var t :| t in before && t.id == s.jumpHostId.value && t.alias == AliasById(before)[t.id];
        UniquelyNamed(before, t);
      }
    }
  }

  /** The desired edges contain the owner's steps: each hop to the one before it, the owner to the last. */
  lemma DesiredOwnerEdge(plans: map<Alias, Plan>, before: seq<SavedHost>, owner: Alias, e: Edge)
    requires Consistent(AllEdges(plans, before)) && Hops(plans, before, owner).Some?
    requires e in OwnerEdges(owner, Hops(plans, before, owner).value)
    ensures var desired := EdgeMap(AllEdges(plans, before));
            e.source in desired && desired[e.source] == e.target
  {
    assert e in PlanEdges(plans, before, owner) && owner in plans;
    assert e in AllEdges(plans, before);
    RecordsFacts(map[], AllEdges(plans, before));
  }

  lemma HopStep(
    plans: map<Alias, Plan>, before: seq<SavedHost>, owner: Alias, hops: seq<Alias>, i: nat)
    requires UniqueIds(before) && UniqueNames(before)
    requires Consistent(AllEdges(plans, before))
    requires Hops(plans, before, owner) == Some(hops) && 1 <= i < |hops|
    ensures IsNext(CommitNext(plans, before, EdgeMap(AllEdges(plans, before))), hops[i], hops[i - 1]) <==>
            HopStored(plans, before, hops, i)
  {
    HopEdgeAt(hops, i);
    ResolveAllKnown(plans, before, plans[owner].parsed.proxyJumps);
    DesiredOwnerEdge(plans, before, owner, Edge(hops[i], hops[i - 1]));
    assert hops[i] in hops;
    HopFollowsIffStored(plans, before, EdgeMap(AllEdges(plans, before)), hops, i);
  }

  lemma OwnerStep(plans: map<Alias, Plan>, before: seq<SavedHost>, owner: Alias, hops: seq<Alias>)
    requires Consistent(AllEdges(plans, before)) && owner in plans
    requires Hops(plans, before, owner) == Some(hops) && hops != []
    ensures IsNext(CommitNext(plans, before, EdgeMap(AllEdges(plans, before))), owner, hops[|hops| - 1])
  {
    DesiredOwnerEdge(plans, before, owner, Edge(owner, hops[|hops| - 1]));
  }

  lemma ListFollowsIffStored(
    plans: map<Alias, Plan>, before: seq<SavedHost>, owner: Alias, hops: seq<Alias>)
    requires UniqueIds(before) && UniqueNames(before)
    requires Consistent(AllEdges(plans, before)) && owner in plans
    requires Hops(plans, before, owner) == Some(hops)
    ensures Follows(CommitNext(plans, before, EdgeMap(AllEdges(plans, before))), hops + [owner]) <==>
            forall i :: 1 <= i < |hops| ==> HopStored(plans, before, hops, i)
  {
    var next := CommitNext(plans, before, EdgeMap(AllEdges(plans, before)));
    forall i | 1 <= i < |hops|
      ensures FollowsAt(next, hops, i) <==> HopStored(plans, before, hops, i)
    {
      HopStep(plans, before, owner, hops, i);
    }
    if hops != [] {
      OwnerStep(plans, before, owner, hops);
      var path := hops + [owner];
      FollowsInit(next, path);
      assert path[..|path| - 1] == hops && FollowsAt(next, path, |path| - 1);
    }
  }

  /** After a commit, the stored jumps of a host of the import come to an end. */
  lemma StoredJumpsEnd(
    items: seq<Parsed>, before: seq<SavedHost>, after: seq<SavedHost>, o: Outcome, owner: Alias)
    requires CommittedOver(items, before, after, o) && owner in Plans(items, FirstByAlias(before))
    ensures owner in o.resolved && o.resolved[owner] in after
    ensures exists chain :: IsChainTo(after, chain, o.resolved[owner])
  {
    var next := NextOf(items, before);
    OwnerStored(items, before, after, o, owner);
    forall g | g in after ensures StoresSuccessor(after, next, g) {
      ImportStoresSuccessor(items, before, after, o, g);
    }
    assert Terminates(next, owner);
    var n: nat :| Ends(next, owner, n);
    var _ := BuildChain(after, next, o.resolved[owner], n);
  }

  /** The repository's rule for a host: one kind of jump settings, and a list names further saved hosts. */
  predicate WellConfigured(hosts: seq<SavedHost>, host: SavedHost) {
    && (host.jumpHostId.None? || host.jumpHostIds == [])
    && (forall k :: 0 <= k < |host.jumpHostIds| ==> !Repeats(host, k) && HasId(hosts, host.jumpHostIds[k]))
  }

  /** The rule is not broken by an import: created hosts have no list, and no saved host goes away. */
  lemma StaysConfigured(
    items: seq<Parsed>, before: seq<SavedHost>, after: seq<SavedHost>, o: Outcome, h: SavedHost)
    requires CommittedOver(items, before, after, o) && h in after
    requires forall g :: g in before ==> WellConfigured(before, g)
    ensures WellConfigured(after, h)
  {
    forall id | HasId(before, id) ensures HasId(after, id) {
      var g :| g in before && g.id == id;
      assert g in after;
    }
    if h !in before {
      PlansFacts(items, FirstByAlias(before));
      assert h in o.created && ResolvedAs(Plans(items, FirstByAlias(before)), o, h.alias);
    } else {
      assert WellConfigured(before, h);
    }
  }

  ghost predicate HasChain(hosts: seq<SavedHost>, host: SavedHost) {
    exists chain :: IsChainTo(hosts, chain, host)
  }

  /**
   The repository's check of a created host never fails: from the host the stored jumps lead to an end, over
   hosts that are there by then.
   */
  lemma CreationAllowed(
    items: seq<Parsed>, before: seq<SavedHost>, after: seq<SavedHost>, o: Outcome, k: nat)
    requires CommittedOver(items, before, after, o) && k < |o.created|
    ensures HasChain(before + o.created[..k + 1], o.created[k])
  {
    var host := o.created[k];
    CreatedPlanned(items, before, after, o, host);
    StoredJumpsEnd(items, before, after, o, host.alias);
    var chain :| IsChainTo(after, chain, host);
    ChainCreated(before, o.created, chain, k);
  }

  lemma CreatedPlanned(
    items: seq<Parsed>, before: seq<SavedHost>, after: seq<SavedHost>, o: Outcome, host: SavedHost)
    requires CommittedOver(items, before, after, o) && host in o.created
    ensures host.alias in Plans(items, FirstByAlias(before)) && after == before + o.created
    ensures JumpsBackward(before, o.created) && host.alias in o.resolved && o.resolved[host.alias] == host
  {
    assert IsNew(Plans(items, FirstByAlias(before)), host.alias);
    assert host in after;
    ResolvedHost(items, before, after, o, host);
  }

  lemma ChainCreated(before: seq<SavedHost>, created: seq<SavedHost>, chain: seq<SavedHost>, k: nat)
    requires UniqueIds(before + created) && JumpsSaved(before) && JumpsBackward(before, created)
    requires k < |created| && IsChainTo(before + created, chain, created[k])
    ensures HasChain(before + created[..k + 1], created[k])
  {
    var known := before + created[..k + 1];
    forall i | 0 <= i < |chain| ensures chain[i] in known {
      CreatedSoFar(before, created, chain, k, |chain| - 1 - i);
    }
    assert IsChainTo(known, chain, created[k]);
  }

  /** The host that is i steps back from created host k was there when that was created. */
  lemma {:induction false} CreatedSoFar(
    before: seq<SavedHost>, created: seq<SavedHost>, chain: seq<SavedHost>, k: nat, i: nat)
    requires UniqueIds(before + created) && JumpsSaved(before) && JumpsBackward(before, created)
    requires k < |created| && IsChainTo(before + created, chain, created[k]) && i < |chain|
    ensures chain[|chain| - 1 - i] in before + created[..k + 1]
  {
    if i == 0 {
      assert created[..k + 1][k] == created[k];
    } else {
      CreatedSoFar(before, created, chain, k, i - 1);
      var n := |chain| - i;
      var h, jump := chain[n], chain[n - 1];
      assert JumpsAt(chain, n);
      if h in before {
        var t :| t in before && t.id == jump.id;
        SameById(before + created, t, jump);
      } else {
        var j :| 0 <= j < k + 1 && created[..k + 1][j] == h;
        assert HasId(before + created[..j], jump.id);
        var t :| t in before + created[..j] && t.id == jump.id;
        assert t in before + created;
        SameById(before + created, t, jump);
        assert t in created[..j] ==> t in created[..k + 1];
      }
    }
  }

  /** A list that keeps the rule can be followed. */
  lemma ListResolves(hosts: seq<SavedHost>, host: SavedHost)
    requires UniqueIds(hosts) && host in hosts && WellConfigured(hosts, host)
    ensures exists chain :: ExplicitChain(hosts, host, chain)
  {
    var listed := ListedHosts(hosts, host, |host.jumpHostIds|);
    var chain := listed + [host];
    forall i, j | 0 <= i < j < |chain| ensures chain[i].id != chain[j].id {
      assert !Repeats(host, i) && (j < |host.jumpHostIds| ==> !Repeats(host, j));
    }
    assert ExplicitChain(hosts, host, chain);
  }

  lemma {:induction false} ListedHosts(hosts: seq<SavedHost>, host: SavedHost, n: nat) returns (listed: seq<SavedHost>)
    requires WellConfigured(hosts, host) && n <= |host.jumpHostIds|
    ensures |listed| == n
    ensures forall i :: 0 <= i < n ==> listed[i] in hosts && listed[i].id == host.jumpHostIds[i]
  {
    if n == 0 {
      listed := [];
    } else {
      var init := ListedHosts(hosts, host, n - 1);
      assert HasId(hosts, host.jumpHostIds[n - 1]);
      var h :| h in hosts && h.id == host.jumpHostIds[n - 1];
      listed := init + [h];
    }
  }

  /** A host of the import whose list in the import is not empty has stored jumps, and so no explicit list. */
  lemma ListedOwnerWalks(
    items: seq<Parsed>, before: seq<SavedHost>, after: seq<SavedHost>, o: Outcome, owner: Alias)
    requires CommittedOver(items, before, after, o) && owner in Plans(items, FirstByAlias(before))
    requires forall h :: h in before ==> WellConfigured(before, h)
    ensures owner in o.resolved && Hops(Plans(items, FirstByAlias(before)), before, owner).Some?
    ensures Hops(Plans(items, FirstByAlias(before)), before, owner).value != [] ==> o.resolved[owner].jumpHostIds == []
  {
    var plans := Plans(items, FirstByAlias(before));
    OwnerStored(items, before, after, o, owner);
    var hops := Hops(plans, before, owner).value;
    if hops != [] {
      OwnerStep(plans, before, owner, hops);
      ImportStoresSuccessor(items, before, after, o, o.resolved[owner]);
      StaysConfigured(items, before, after, o, o.resolved[owner]);
    }
  }

  /** After a commit, connecting to a host of the import never runs into a cycle or an unknown host. */
  lemma ImportedHostConnects(
    items: seq<Parsed>, before: seq<SavedHost>, after: seq<SavedHost>, o: Outcome, owner: Alias)
    requires CommittedOver(items, before, after, o) && owner in Plans(items, FirstByAlias(before))
    requires forall h :: h in before ==> WellConfigured(before, h)
    ensures owner in o.resolved && o.resolved[owner] in after
    ensures exists chain :: ConnectsThrough(after, o.resolved[owner], chain)
  {
    StoredJumpsEnd(items, before, after, o, owner);
    var host := o.resolved[owner];
    StaysConfigured(items, before, after, o, host);
    ListResolves(after, host);
    if host.jumpHostIds != [] {
      var chain :| ExplicitChain(after, host, chain);
      assert ConnectsThrough(after, host, chain);
    } else {
      var chain :| IsChainTo(after, chain, host);
      assert ConnectsThrough(after, host, chain);
    }
  }

  /**
   What such a connection goes through ends with the owner's listed hops, in order, exactly when every hop
   after the first is stored as listed.
   */
  lemma ImportedChainEnds(
    items: seq<Parsed>, before: seq<SavedHost>, after: seq<SavedHost>, o: Outcome, owner: Alias, chain: seq<SavedHost>)
    requires CommittedOver(items, before, after, o) && owner in Plans(items, FirstByAlias(before))
    requires forall h :: h in before ==> WellConfigured(before, h)
    requires owner in o.resolved && ConnectsThrough(after, o.resolved[owner], chain)
    ensures var plans := Plans(items, FirstByAlias(before));
            var hops := Hops(plans, before, owner);
            && hops.Some?
            && (EndsIn(AliasesOf(chain), hops.value + [owner]) <==>
                forall i :: 1 <= i < |hops.value| ==> HopStored(plans, before, hops.value, i))
  {
    var plans := Plans(items, FirstByAlias(before));
    OwnerStored(items, before, after, o, owner);
    ListedOwnerWalks(items, before, after, o, owner);
    var hops := Hops(plans, before, owner).value;
    if o.resolved[owner].jumpHostIds == [] {
      ImportedChainFollows(items, before, after, o, chain, hops + [owner]);
      ImportedListFollows(items, before, after, o, owner);
    } else {
      assert AliasesOf(chain)[|chain| - 1..] == [owner] == hops + [owner];
    }
  }

  /** A chain on the committed hosts ends in a list of aliases exactly when the list follows the graph. */
  lemma ImportedChainFollows(
    items: seq<Parsed>, before: seq<SavedHost>, after: seq<SavedHost>, o: Outcome, chain: seq<SavedHost>, w: seq<Alias>)
    requires CommittedOver(items, before, after, o)
    requires IsChain(after, chain) && w != [] && w[|w| - 1] == chain[|chain| - 1].alias
    ensures EndsIn(AliasesOf(chain), w) <==> Follows(NextOf(items, before), w)
  {
    var next := NextOf(items, before);
    forall g | g in after ensures StoresSuccessor(after, next, g) {
      ImportStoresSuccessor(items, before, after, o, g);
    }
    ChainFollows(after, next, chain);
    EndsInIffFollows(next, AliasesOf(chain), w);
  }

  lemma ImportedListFollows(
    items: seq<Parsed>, before: seq<SavedHost>, after: seq<SavedHost>, o: Outcome, owner: Alias)
    requires CommittedOver(items, before, after, o) && owner in Plans(items, FirstByAlias(before))
    ensures var plans := Plans(items, FirstByAlias(before));
            var hops := Hops(plans, before, owner);
            && hops.Some?
            && (Follows(NextOf(items, before), hops.value + [owner]) <==>
                forall i :: 1 <= i < |hops.value| ==> HopStored(plans, before, hops.value, i))
  {
    var plans := Plans(items, FirstByAlias(before));
    PlansFacts(items, FirstByAlias(before));
    BeforeUnique(before, o.created);
    OwnerStored(items, before, after, o, owner);
    ListFollowsIffStored(plans, before, owner, Hops(plans, before, owner).value);
  }

  lemma OwnerStored(
    items: seq<Parsed>, before: seq<SavedHost>, after: seq<SavedHost>, o: Outcome, owner: Alias)
    requires CommittedOver(items, before, after, o)
    requires owner in Plans(items, FirstByAlias(before))
    ensures owner in o.resolved && o.resolved[owner] in after && o.resolved[owner].alias == owner
    ensures Hops(Plans(items, FirstByAlias(before)), before, owner).Some?
  {
    var first := FirstByAlias(before);
    var plans := Plans(items, first);
    PlansFacts(items, first);
    LookupFacts(before);
    assert ResolvedAs(plans, o, owner) && JumpsAsPlanned(DesiredOf(items, before), o.resolved, first, owner);
  }
}
