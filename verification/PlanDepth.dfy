/** The depth of a plan: one pass over the computed order, against the longest dependency chain. */
module PlanDepth {
  import opened PlanGraph
  import opened TopologicalOrder

  ghost predicate ChainFrom(g: Graph, p: seq<Id>, x: Id) {
    IsChain(g, p) && p[0] == x
  }

  /** n is the number of tasks on the longest dependency chain that starts at x. */
  ghost predicate LongestFrom(g: Graph, x: Id, n: nat) {
    && (forall p | ChainFrom(g, p, x) :: |p| <= n)
    && (exists p :: ChainFrom(g, p, x) && |p| == n)
  }

  /** n is the number of tasks on the longest dependency chain of the plan. */
  ghost predicate LongestChain(g: Graph, n: nat) {
    && (forall p | IsChain(g, p) :: |p| <= n)
    && (n == 0 || exists p :: IsChain(g, p) && |p| == n)
  }

  /** The table knows the longest chain from each of the given tasks. */
  ghost predicate DepthTable(g: Graph, depths: map<Id, nat>, xs: seq<Id>) {
    && depths.Keys == Elems(xs)
    && forall x | x in depths :: x in g && LongestFrom(g, x, depths[x])
  }

  /** The greatest table entry among the listed dependencies; 0 if none is in the table. */
  method DeepestDependency(deps: seq<Id>, depths: map<Id, nat>) returns (best: nat)
    ensures forall d | d in deps && d in depths :: depths[d] <= best
    ensures best == 0 || exists d :: d in deps && d in depths && depths[d] == best
  {
    best := 0;
    for k := 0 to |deps|
      invariant forall d | d in deps[..k] && d in depths :: depths[d] <= best
      invariant best == 0 || exists d :: d in deps && d in depths && depths[d] == best
    {
      assert deps[..k + 1] == deps[..k] + [deps[k]];
      if deps[k] in depths && depths[deps[k]] > best {
        best := depths[deps[k]];
      }
    }
    assert deps[..|deps|] == deps;
  }

  /** A task sits one above its deepest dependency. */
  lemma DepthStep(g: Graph, x: Id, depths: map<Id, nat>, best: nat)
    requires x in g
    requires forall d | d in depths :: d in g && LongestFrom(g, d, depths[d])
    requires forall d | d in g[x].deps && d in g :: d in depths && depths[d] <= best
    requires best == 0 || exists d :: d in g[x].deps && d in depths && depths[d] == best
    ensures LongestFrom(g, x, 1 + best)
  {
    forall p | ChainFrom(g, p, x) ensures |p| <= 1 + best {
      if |p| > 1 {
        ChainInside(g, p, 1);
        assert Edge(g, p[0], p[1]);
        SubPath(g, p, 1, |p|);
        assert ChainFrom(g, p[1..], p[1]);
      }
    }
    if best == 0 {
      assert ChainFrom(g, [x], x);
    } else {
      var d :| d in g[x].deps && d in depths && depths[d] == best;
      var q :| ChainFrom(g, q, d) && |q| == best;
      ConsPath(g, x, q);
      assert ChainFrom(g, [x] + q, x);
    }
  }

  /** max(depths.values(), default=0) */
  method MaxValue(order: seq<Id>, depths: map<Id, nat>) returns (depth: nat)
    requires depths.Keys == Elems(order)
    ensures forall x | x in order :: depths[x] <= depth
    ensures if order == [] then depth == 0 else exists x :: x in order && depths[x] == depth
  {
    depth := 0;
    for k := 0 to |order|
      invariant forall x | x in order[..k] :: depths[x] <= depth
      invariant if k == 0 then depth == 0 else exists x :: x in order && depths[x] == depth
    {
      assert order[..k + 1] == order[..k] + [order[k]];
      if k == 0 || depths[order[k]] > depth {
        depth := depths[order[k]];
      }
    }
    assert order[..|order|] == order;
  }

  /** The depth table: each ordered task against the longest chain that starts there. */
  method Depths(g: Graph, order: seq<Id>) returns (depths: map<Id, nat>)
    requires DependenciesFirst(g, order)
    ensures DepthTable(g, depths, order)
  {
    depths := map[];
    for k := 0 to |order|
      invariant DepthTable(g, depths, order[..k])
    {
      var x := order[k];
      var best := DeepestDependency(g[x].deps, depths);
      DepthStep(g, x, depths, best);
      assert order[..k + 1] == order[..k] + [x];
      depths := depths[x := 1 + best];
    }
    assert order[..|order|] == order;
  }

  /** The computed depth is the longest chain that starts at an ordered task; for a complete
      order that is the longest chain of the whole plan. */
  method MaximumDepth(g: Graph, order: seq<Id>) returns (depth: nat)
    requires DependenciesFirst(g, order)
    ensures forall x, p | x in order && ChainFrom(g, p, x) :: |p| <= depth
    ensures if order == [] then depth == 0 else exists x :: x in order && LongestFrom(g, x, depth)
    ensures IsTopologicalOrder(g, order) ==> LongestChain(g, depth)
  {
    var depths := Depths(g, order);
    depth := MaxValue(order, depths);
    forall x | x in order ensures x in depths { assert x in Elems(order); }
    CompleteOrderBounds(g, order, depth);
  }

  lemma CompleteOrderBounds(g: Graph, order: seq<Id>, depth: nat)
    requires forall x, p | x in order && ChainFrom(g, p, x) :: |p| <= depth
    requires if order == [] then depth == 0 else exists x :: x in order && LongestFrom(g, x, depth)
    ensures IsTopologicalOrder(g, order) ==> LongestChain(g, depth)
  {
    if IsTopologicalOrder(g, order) {
      forall p | IsChain(g, p) ensures |p| <= depth {
        ChainInside(g, p, 0);
        assert p[0] in Elems(order);
        assert ChainFrom(g, p, p[0]);
      }
    }
  }
}
