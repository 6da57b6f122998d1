/**
 Directed graphs of rows that refer to rows of their own collection. An edge to an unknown id is not
 part of the graph.
 */
module ReferenceGraph {
  datatype Id = Id(number: nat)

  type Graph = map<Id, seq<Id>>

  predicate IsEdge(g: Graph, a: Id, b: Id) {
    a in g && b in g && b in g[a]
  }

  /** Consecutive elements are joined by an edge. */
  ghost predicate IsPath(g: Graph, path: seq<Id>) {
    forall k :: 0 <= k < |path| - 1 ==> StepAt(g, path, k)
  }

  predicate StepAt(g: Graph, path: seq<Id>, k: nat)
    requires k + 1 < |path|
  {
    IsEdge(g, path[k], path[k + 1])
  }

  /** A path of at least one edge that returns to its start. */
  ghost predicate HasCycle(g: Graph) {
    exists path :: |path| >= 2 && IsPath(g, path) && path[0] == path[|path| - 1]
  }

  /** Every edge out of the k-th id leads to an earlier one. */
  ghost predicate EdgesBefore(g: Graph, order: seq<Id>, k: nat)
    requires k < |order|
  {
    forall b :: IsEdge(g, order[k], b) ==> b in order[..k]
  }

  /** A listing of distinct ids in which every edge leads backwards. */
  ghost predicate Ranked(g: Graph, order: seq<Id>) {
    && (forall i, j :: 0 <= i < j < |order| ==> order[i] != order[j])
    && (forall k :: 0 <= k < |order| ==> EdgesBefore(g, order, k))
  }

  lemma ExtendRanked(g: Graph, order: seq<Id>, a: Id)
    requires Ranked(g, order) && a !in order
    requires forall b :: IsEdge(g, a, b) ==> b in order
    ensures Ranked(g, order + [a])
  {
    var longer := order + [a];
    forall k | 0 <= k < |longer| ensures EdgesBefore(g, longer, k) {
      assert k < |order| ==> EdgesBefore(g, order, k);
      assert longer[..k] == order[..k];
    }
  }

  /** Along a path the position only goes down. */
  lemma {:induction false} PathDescends(g: Graph, order: seq<Id>, path: seq<Id>, i: nat, k: nat)
    requires Ranked(g, order) && IsPath(g, path) && i < |order|
    requires 1 <= k < |path| && path[0] == order[i]
    ensures path[k] in order[..i]
  {
    assert StepAt(g, path, k - 1);
    if k == 1 {
      assert EdgesBefore(g, order, i);
    } else {
      PathDescends(g, order, path, i, k - 1);
      var j :| 0 <= j < i && order[j] == path[k - 1];
      assert EdgesBefore(g, order, j);
      assert order[..j] <= order[..i];
    }
  }

  /** A complete listing rules out every cycle. */
  lemma RankedAcyclic(g: Graph, order: seq<Id>)
    requires Ranked(g, order) && forall a :: a in g ==> a in order
    ensures !HasCycle(g)
  {
    forall path | |path| >= 2 && IsPath(g, path)
      ensures path[0] != path[|path| - 1]
    {
      assert StepAt(g, path, 0);
      var i :| 0 <= i < |order| && order[i] == path[0];
      PathDescends(g, order, path, i, |path| - 1);
    }
  }

  /** A path whose last element has an edge back into it contains a cycle. */
  lemma BackEdge(g: Graph, path: seq<Id>, b: Id)
    requires path != [] && IsPath(g, path) && b in path && IsEdge(g, path[|path| - 1], b)
    ensures HasCycle(g)
  {
    var k :| 0 <= k < |path| && path[k] == b;
    var cycle := path[k..] + [b];
    forall i | 0 <= i < |cycle| - 1 ensures StepAt(g, cycle, i) {
      if k + i + 1 < |path| {
        assert StepAt(g, path, k + i);
      }
    }
  }

  lemma ExtendPath(g: Graph, path: seq<Id>, a: Id)
    requires IsPath(g, path) && (path != [] ==> IsEdge(g, path[|path| - 1], a))
    ensures IsPath(g, path + [a])
  {
    forall k | 0 <= k < |path| ensures StepAt(g, path + [a], k) {
      assert k + 1 < |path| ==> StepAt(g, path, k);
    }
  }

  lemma PathInit(g: Graph, path: seq<Id>, a: Id)
    requires IsPath(g, path + [a])
    ensures IsPath(g, path)
  {
    forall k | 0 <= k < |path| - 1 ensures StepAt(g, path, k) {
      assert StepAt(g, path + [a], k);
    }
  }

  /** Every member of stuck has an edge to another member. */
  ghost predicate AllStuck(g: Graph, stuck: set<Id>) {
    forall a :: a in stuck ==> HasEdgeInto(g, a, stuck)
  }

  ghost predicate HasEdgeInto(g: Graph, a: Id, inside: set<Id>) {
    exists b :: b in inside && IsEdge(g, a, b)
  }

  /** Following edges inside a finite set must come back to where it has been. */
  lemma {:induction false} StuckHasCycle(g: Graph, stuck: set<Id>, path: seq<Id>)
    requires AllStuck(g, stuck)
    requires path != [] && IsPath(g, path) && forall a :: a in path ==> a in stuck
    ensures HasCycle(g)
    decreases stuck - set a | a in path
  {
    hide HasCycle;
    var last := path[|path| - 1];
    assert HasEdgeInto(g, last, stuck);
    var b :| b in stuck && IsEdge(g, last, b);
    if b in path {
      BackEdge(g, path, b);
    } else {
      ExtendPath(g, path, b);
      VisitOne(stuck, path, b);
      StuckHasCycle(g, stuck, path + [b]);
    }
  }

  lemma VisitOne(inside: set<Id>, path: seq<Id>, b: Id)
    requires b in inside && b !in path
    ensures (inside - set a | a in path) > (inside - set a | a in path + [b])
    ensures forall a :: a in path + [b] ==> a in path || a == b
  {
    var longer := path + [b];
    assert longer[|path|] == b;
    assert forall a :: a in path ==> a in longer;
    assert b in inside - (set a | a in path) && b !in inside - (set a | a in longer);
  }
}
