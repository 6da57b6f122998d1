/**
 Graphs in which every node has at most one successor: an alias and the alias it connects through, a
 group and its parent. Two checkers of ProxyJump planning walk such a graph, an iterative one in the
 preview and a recursive one in the commit; both decide `Terminates`.
 */
module SuccessorGraph {
  import opened Common

  type Alias = string

  /** The walk from a leaves the graph after exactly n steps. */
  ghost predicate Ends<T>(next: map<T, T>, a: T, n: nat)
    decreases n
  {
    if n == 0 then a !in next else a in next && Ends(next, next[a], n - 1)
  }

  lemma {:induction false} EndsOnce<T>(next: map<T, T>, a: T, m: nat, n: nat)
    requires Ends(next, a, m) && Ends(next, a, n)
    ensures m == n
    decreases m
  {
    if m > 0 && n > 0 {
      EndsOnce(next, next[a], m - 1, n - 1);
    }
  }

  ghost predicate Terminates<T>(next: map<T, T>, a: T) {
    exists n: nat :: Ends(next, a, n)
  }

  /** Consecutive elements of path are joined by an edge. */
  ghost predicate IsWalk<T>(next: map<T, T>, path: seq<T>) {
    forall i :: 0 <= i < |path| - 1 ==> path[i] in next && next[path[i]] == path[i + 1]
  }

  lemma TerminatesStep<T>(next: map<T, T>, a: T)
    requires a in next
    ensures Terminates(next, a) <==> Terminates(next, next[a])
  {
    if Terminates(next, next[a]) {
      var n: nat :| Ends(next, next[a], n);
      assert Ends(next, a, n + 1);
    }
    if Terminates(next, a) {
      var n: nat :| Ends(next, a, n);
      assert Ends(next, next[a], n - 1);
    }
  }

  /** Every alias on a walk terminates exactly when its first alias does. */
  lemma {:induction false} TerminatesAlong<T>(next: map<T, T>, path: seq<T>, k: nat)
    requires IsWalk(next, path) && k < |path|
    ensures Terminates(next, path[0]) <==> Terminates(next, path[k])
  {
    if k > 0 {
      TerminatesAlong(next, path, k - 1);
      assert path[k - 1] in next && next[path[k - 1]] == path[k - 1 + 1];
      TerminatesStep(next, path[k - 1]);
    }
  }

  /** A walk that returns to its start never ends, from any of its aliases. */
  lemma {:induction false} ClosedWalkNeverEnds<T>(next: map<T, T>, path: seq<T>, k: nat, n: nat)
    requires IsWalk(next, path) && |path| > 1 && path[0] == path[|path| - 1]
    requires k < |path| - 1
    ensures !Ends(next, path[k], n)
    decreases n
  {
    assert path[k] in next && next[path[k]] == path[k + 1];
    if n > 0 {
      ClosedWalkNeverEnds(next, path, if k + 1 < |path| - 1 then k + 1 else 0, n - 1);
    }
  }

  lemma ClosedWalkNeverTerminates<T>(next: map<T, T>, path: seq<T>, k: nat)
    requires IsWalk(next, path) && k < |path|
    requires path[|path| - 1] in next && next[path[|path| - 1]] == path[k]
    ensures !Terminates(next, path[0]) && !Terminates(next, path[|path| - 1])
  {
    var closed := path[k..] + [path[k]];
    assert IsWalk(next, closed);
    forall n: nat ensures !Ends(next, closed[0], n) {
      ClosedWalkNeverEnds(next, closed, 0, n);
    }
    TerminatesAlong(next, path, k);
    TerminatesAlong(next, path, |path| - 1);
  }

  /** A walk of at least one step. */
  ghost predicate Leads<T(!new)>(next: map<T, T>, a: T, b: T) {
    exists path :: |path| >= 2 && IsWalk(next, path) && path[0] == a && path[|path| - 1] == b
  }

  ghost predicate SameCycle<T(!new)>(next: map<T, T>, a: T, b: T) {
    Leads(next, a, b) && Leads(next, b, a)
  }

  lemma LeadsThrough<T(!new)>(next: map<T, T>, a: T, b: T, c: T)
    requires Leads(next, a, b) && Leads(next, b, c)
    ensures Leads(next, a, c)
  {
    var p :| |p| >= 2 && IsWalk(next, p) && p[0] == a && p[|p| - 1] == b;
    var q :| |q| >= 2 && IsWalk(next, q) && q[0] == b && q[|q| - 1] == c;
    var path := p + q[1..];
    forall i | 0 <= i < |path| - 1 ensures path[i] in next && next[path[i]] == path[i + 1] {
      if i >= |p| - 1 {
        assert q[i - |p| + 1] in next && next[q[i - |p| + 1]] == q[i - |p| + 1 + 1];
      }
    }
    assert |path| >= 2 && IsWalk(next, path) && path[0] == a && path[|path| - 1] == c;
  }

  lemma LeadsStep<T(!new)>(next: map<T, T>, a: T)
    requires a in next
    ensures Leads(next, a, next[a])
  {
    var path := [a, next[a]];
    assert |path| >= 2 && IsWalk(next, path) && path[0] == a && path[|path| - 1] == next[a];
  }

  /** A node on a cycle shares every cycle its successor is on. */
  lemma CycleOfSuccessor<T(!new)>(next: map<T, T>, a: T, r: T)
    requires Leads(next, a, a)
    ensures a in next && Leads(next, next[a], next[a]) && Leads(next, next[a], a)
    ensures SameCycle(next, next[a], r) ==> SameCycle(next, a, r)
  {
    var p :| |p| >= 2 && IsWalk(next, p) && p[0] == a && p[|p| - 1] == a;
    assert p[0] in next && next[p[0]] == p[0 + 1];
    if |p| > 2 {
      var q := p[1..];
      forall i | 0 <= i < |q| - 1 ensures q[i] in next && next[q[i]] == q[i + 1] {
        assert p[i + 1] in next && next[p[i + 1]] == p[i + 1 + 1];
      }
      assert |q| >= 2 && IsWalk(next, q) && q[0] == next[a] && q[|q| - 1] == a;
    }
    assert Leads(next, next[a], a);
    LeadsStep(next, a);
    LeadsThrough(next, next[a], a, next[a]);
    if SameCycle(next, next[a], r) {
      LeadsThrough(next, a, next[a], r);
      LeadsThrough(next, r, next[a], a);
    }
  }

  /** A walk cannot leave a set that is closed under successors. */
  lemma LeadsInside<T(!new)>(next: map<T, T>, inside: set<T>, a: T, b: T)
    requires forall x :: x in inside && x in next ==> next[x] in inside
    requires a in inside && Leads(next, a, b)
    ensures b in inside
  {
    var p :| |p| >= 2 && IsWalk(next, p) && p[0] == a && p[|p| - 1] == b;
    WalkInside(next, inside, p, |p| - 1);
  }

  lemma {:induction false} WalkInside<T>(next: map<T, T>, inside: set<T>, path: seq<T>, k: nat)
    requires forall x :: x in inside && x in next ==> next[x] in inside
    requires IsWalk(next, path) && k < |path| && path[0] in inside
    ensures path[k] in inside
  {
    if k > 0 {
      WalkInside(next, inside, path, k - 1);
      assert path[k - 1] in next && next[path[k - 1]] == path[k - 1 + 1];
    }
  }

  /** The preview's walk: follow the successors of start, remembering where each alias was seen. */
  method FindCycle(next: map<Alias, Alias>, start: Alias) returns (cycle: Option<seq<Alias>>)
    ensures cycle.None? <==> Terminates(next, start)
    ensures cycle.Some? ==>
              && |cycle.value| > 0
              && IsWalk(next, cycle.value + [cycle.value[0]])
  {
    var path: seq<Alias> := [];
    var seenAt: map<Alias, nat> := map[];
    var current := Some(start);
    while current.Some?
      invariant IsWalk(next, path)
      invariant forall a :: a in seenAt <==> a in path
      invariant forall a :: a in seenAt ==> seenAt[a] < |path| && path[seenAt[a]] == a
      invariant path == [] ==> current == Some(start)
      invariant path != [] ==> path[0] == start
      invariant path != [] && current.Some? ==>
                  path[|path| - 1] in next && current.value == next[path[|path| - 1]]
      invariant path != [] && current.None? ==> path[|path| - 1] !in next
      decreases next.Keys - seenAt.Keys, if current.Some? then 1 else 0
    {
      var alias := current.value;
      if alias in seenAt {
        ClosedWalkNeverTerminates(next, path, seenAt[alias]);
        cycle := Some(path[seenAt[alias]..]);
        return;
      }
      if alias in next {
        assert alias in next.Keys - seenAt.Keys;
      }
      seenAt := seenAt[alias := |path|];
      path := path + [alias];
      current := if alias in next then Some(next[alias]) else None;
    }
    assert Ends(next, path[|path| - 1], 0);
    TerminatesAlong(next, path, |path| - 1);
    cycle := None;
  }

  datatype Mark = Visiting | Done

  /** The commit's check: a recursive visit that marks aliases while they are on the current path. */
  class CycleGuard {
    const next: map<Alias, Alias>
    var state: map<Alias, Mark>

    constructor (next: map<Alias, Alias>)
      ensures this.next == next && state == map[]
    {
      this.next := next;
      state := map[];
    }

    /** stack lists the aliases being visited, outermost first. */
    ghost predicate Valid(stack: seq<Alias>)
      reads this
    {
      && IsWalk(next, stack)
      && (forall a :: a in state && state[a] == Visiting <==> a in stack)
      && (forall a :: a in state && state[a] == Done ==> Terminates(next, a))
    }

    /** Returns false where the original throws. */
    method Visit(alias: Alias, ghost stack: seq<Alias>) returns (ok: bool)
      requires Valid(stack)
      requires stack != [] ==> stack[|stack| - 1] in next && next[stack[|stack| - 1]] == alias
      modifies this
      ensures ok <==> Terminates(next, alias)
      ensures ok ==> Valid(stack)
      decreases next.Keys - state.Keys
    {
      if alias in state {
        if state[alias] == Visiting {
          ghost var k :| 0 <= k < |stack| && stack[k] == alias;
          ClosedWalkNeverTerminates(next, stack, k);
          TerminatesStep(next, stack[|stack| - 1]);
          return false;
        }
        return true;
      }
      ghost var inner := stack + [alias];
      state := state[alias := Visiting];
      if alias in next {
        TerminatesStep(next, alias);
        assert alias in next.Keys - old(state.Keys);
        ok := Visit(next[alias], inner);
        if !ok { return; }
      } else {
        assert Ends(next, alias, 0);
      }
      assert inner[|stack|] == alias;
      assert alias in inner;
      assert forall a :: a in inner <==> a in stack || a == alias;
      assert alias !in stack;
      state := state[alias := Done];
      ok := true;
    }

    /** True exactly when no start alias runs into a cycle. */
    method Check(starts: seq<Alias>) returns (ok: bool)
      requires state == map[]
      modifies this
      ensures ok <==> forall a :: a in starts ==> Terminates(next, a)
    {
      for i := 0 to |starts|
        invariant Valid([])
        invariant forall a :: a in starts[..i] ==> Terminates(next, a)
      {
        ok := Visit(starts[i], []);
        if !ok { return; }
      }
      assert starts[..|starts|] == starts;
      ok := true;
    }
  }
}
