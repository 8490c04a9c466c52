/** The final validation sink: the ancestor worklist and the covering test built on it. */
module FinalSink {
  import opened PlanGraph
  import opened TopologicalOrder
  import opened Options

  /** Some transitive dependency of x is not a task of the plan. */
  ghost predicate ReachesMissing(g: Graph, x: Id) {
    exists y :: Reaches(g, x, y) && y !in g
  }

  /** The worklist has a complete frontier: whatever found leads to is found or pending. */
  ghost predicate Frontier(g: Graph, x: Id, found: set<Id>, pending: seq<Id>) {
    && (forall d | Edge(g, x, d) :: d in found || d in pending)
    && (forall y, d | y in found && Edge(g, y, d) :: d in found || d in pending)
  }

  ghost predicate AllReached(g: Graph, x: Id, found: set<Id>, pending: seq<Id>) {
    && (forall y | y in found :: Reaches(g, x, y))
    && (forall y | y in pending :: Reaches(g, x, y))
  }

  /** The stack walk returns exactly the transitive dependencies. It fails on a key error
      exactly when one of them is missing from the plan. */
  method Ancestors(g: Graph, x: Id) returns (r: Option<set<Id>>)
    requires x in g
    ensures r.None? <==> ReachesMissing(g, x)
    ensures r.Some? ==> forall y :: y in r.value <==> Reaches(g, x, y)
  {
    var found: set<Id> := {};
    var pending := g[x].deps;
    forall d | d in pending ensures Reaches(g, x, d) { EdgeReaches(g, x, d); }
    while pending != []
      invariant found <= g.Keys
      invariant Frontier(g, x, found, pending) && AllReached(g, x, found, pending)
      decreases g.Keys - found, |pending|
    {
      var d := pending[|pending| - 1];
      ghost var before := pending;
      pending := pending[..|pending| - 1];
      assert before == pending + [d];
      if d in found {
        continue;
      }
      if d !in g {
        return None;
      }
      FrontierStep(g, x, found, pending, d);
      found := found + {d};
      pending := pending + g[d].deps;
    }
    FrontierComplete(g, x, found);
    r := Some(found);
  }

  lemma FrontierStep(g: Graph, x: Id, found: set<Id>, pending: seq<Id>, d: Id)
    requires Frontier(g, x, found, pending + [d]) && AllReached(g, x, found, pending + [d]) && d in g
    ensures Frontier(g, x, found + {d}, pending + g[d].deps)
    ensures AllReached(g, x, found + {d}, pending + g[d].deps)
  {
    assert d in pending + [d];
    forall e | e in g[d].deps ensures Reaches(g, x, e) {
      EdgeReaches(g, d, e);
      ReachesTransitive(g, x, d, e);
    }
    forall y | y in pending ensures Reaches(g, x, y) { assert y in pending + [d]; }
  }

  /** An empty frontier means that nothing reachable is left out. */
  lemma FrontierComplete(g: Graph, x: Id, found: set<Id>)
    requires Frontier(g, x, found, []) && AllReached(g, x, found, []) && found <= g.Keys
    ensures forall y :: y in found <==> Reaches(g, x, y)
    ensures !ReachesMissing(g, x)
  {
    forall y | Reaches(g, x, y) ensures y in found {
      var p :| PathFromTo(g, p, x, y);
      FollowPath(g, x, found, p, |p| - 1);
    }
  }

  lemma {:induction false} FollowPath(g: Graph, x: Id, found: set<Id>, p: seq<Id>, k: nat)
    requires Frontier(g, x, found, []) && IsPath(g, p) && p[0] == x && 0 < k < |p|
    ensures p[k] in found
  {
    var j := k - 1;
    assert Edge(g, p[j], p[k]);
    if j > 0 {
      FollowPath(g, x, found, p, j);
    }
  }

  // ----- The covering sink

  /** Tasks that no task depends on. */
  ghost predicate IsSink(g: Graph, x: Id) {
    x in g && forall t :: !Edge(g, t, x)
  }

  /** A VALIDATION sink that transitively depends on every other task. */
  ghost predicate IsCoveringSink(g: Graph, s: Id) {
    IsSink(g, s) && g[s].kind == Validation && forall x | x in g :: x == s || Reaches(g, s, x)
  }

  ghost function CoveringSinks(g: Graph): set<Id> {
    set s | s in g && IsCoveringSink(g, s)
  }

  ghost predicate LeaksOut(g: Graph, s: Id) {
    IsSink(g, s) && g[s].kind == Validation && ReachesMissing(g, s)
  }

  /** Some VALIDATION sink leads outside the plan. */
  ghost predicate SinkLeaksOut(g: Graph) {
    exists s :: LeaksOut(g, s)
  }

  /** Every id that some task lists as a dependency. */
  method DependedOn(g: Graph) returns (r: set<Id>)
    ensures forall x :: x in r <==> exists t :: Edge(g, t, x)
  {
    r := {};
    var todo := g.Keys;
    while todo != {}
      invariant todo <= g.Keys
      invariant forall x :: x in r <==> exists t :: t !in todo && Edge(g, t, x)
      decreases todo
    {
      var t :| t in todo;
      r := r + set d | d in g[t].deps;
      todo := todo - {t};
    }
  }

  /** ancestors(s) | {s} == complete */
  method CoversPlan(g: Graph, s: Id) returns (r: Option<bool>)
    requires s in g
    ensures r.None? <==> ReachesMissing(g, s)
    ensures r.Some? ==> (r.value <==> forall x | x in g :: x == s || Reaches(g, s, x))
  {
    var found := Ancestors(g, s);
    if found == None {
      return None;
    }
    r := Some(found.value + {s} == g.Keys);
    assert found.value + {s} <= g.Keys;
    assert r.value <==> forall x | x in g :: x in found.value + {s};
  }

  /** One candidate: a VALIDATION sink that covers the plan. */
  method CandidateCovers(g: Graph, dependedOn: set<Id>, s: Id) returns (r: Option<bool>)
    requires s in g && forall x :: x in dependedOn <==> exists t :: Edge(g, t, x)
    ensures r.None? <==> LeaksOut(g, s)
    ensures r.Some? ==> (r.value <==> IsCoveringSink(g, s))
  {
    assert IsSink(g, s) <==> s !in dependedOn;
    if s in dependedOn || g[s].kind != Validation {
      return Some(false);
    }
    r := CoversPlan(g, s);
  }

  /** The test fails on a key error exactly when a VALIDATION sink leads outside the plan;
      otherwise it says whether there is exactly one covering sink. */
  method HasFinalValidationSink(g: Graph) returns (r: Option<bool>)
    requires Keyed(g)
    ensures r.None? <==> SinkLeaksOut(g)
    ensures r.Some? ==> (r.value <==> |CoveringSinks(g)| == 1)
  {
    var dependedOn := DependedOn(g);
    var covering: set<Id> := {};
    var todo := g.Keys;
    while todo != {}
      invariant todo <= g.Keys
      invariant forall s :: s in covering <==> s in g && s !in todo && IsCoveringSink(g, s)
      invariant forall s | s in g && s !in todo :: !LeaksOut(g, s)
      decreases todo
    {
      var s :| s in todo;
      var covers := CandidateCovers(g, dependedOn, s);
      if covers == None {
        return None;
      }
      if covers.value {
        covering := covering + {s};
      }
      todo := todo - {s};
    }
    assert covering == CoveringSinks(g);
    r := Some(|covering| == 1);
  }

  /** A transitive dependency is somebody's direct dependency. */
  lemma ReachedIsNoSink(g: Graph, x: Id, y: Id)
    requires Reaches(g, x, y)
    ensures !IsSink(g, y)
  {
    var p :| PathFromTo(g, p, x, y);
    var i, j := |p| - 2, |p| - 1;
    assert Edge(g, p[i], p[j]);
  }

  /** At most one sink can cover the plan, and a covering sink is the only sink. */
  lemma CoveringIsOnlySink(g: Graph, s: Id, y: Id)
    requires IsCoveringSink(g, s) && IsSink(g, y)
    ensures y == s
  {
    if y != s {
      ReachedIsNoSink(g, s, y);
    }
  }

  lemma CountsOne(g: Graph)
    ensures |CoveringSinks(g)| == 1 <==> exists s :: IsCoveringSink(g, s)
  {
    if s: Id :| IsCoveringSink(g, s) {
      forall y | y in CoveringSinks(g) ensures y == s { CoveringIsOnlySink(g, s, y); }
      assert CoveringSinks(g) == {s};
    } else {
      assert CoveringSinks(g) == {};
    }
  }

  /** In an acyclic plan everything leads up to a sink, so a single sink covers the plan. */
  lemma {:induction false} OnlySinkReaches(g: Graph, o: seq<Id>, s: Id, i: nat)
    requires IsTopologicalOrder(g, o) && i < |o| && IsSink(g, s)
    requires forall y | IsSink(g, y) :: y == s
    ensures o[i] == s || Reaches(g, s, o[i])
    decreases |o| - i
  {
    var x := o[i];
    if x != s {
      assert x in g && !IsSink(g, x);
      var t :| Edge(g, t, x);
      assert t in Elems(o);
      var j :| 0 <= j < |o| && o[j] == t;
      assert x in o[..j];
      OnlySinkReaches(g, o, s, j);
      EdgeReaches(g, t, x);
      if t != s { ReachesTransitive(g, s, t, x); }
    }
  }

  ghost predicate OnlySinkValidates(g: Graph, s: Id) {
    IsSink(g, s) && g[s].kind == Validation && forall y | IsSink(g, y) :: y == s
  }

  /** For an acyclic plan with closed dependencies the worklist test says exactly that one task
      has no dependents and that this task is a VALIDATION task. */
  lemma SinkVerdict(g: Graph)
    requires Acyclic(g) && Closed(g)
    ensures !SinkLeaksOut(g)
    ensures |CoveringSinks(g)| == 1 <==> exists s :: OnlySinkValidates(g, s)
  {
    forall s, y | Reaches(g, s, y) ensures y in g { ClosedReaches(g, s, y); }
    CountsOne(g);
    if s: Id :| IsCoveringSink(g, s) {
      forall y | IsSink(g, y) ensures y == s { CoveringIsOnlySink(g, s, y); }
      assert OnlySinkValidates(g, s);
    }
    if s: Id :| OnlySinkValidates(g, s) {
      var o := GreedyOrderExists(g);
      CompleteIffAcyclic(g, o);
      forall x | x in g ensures x == s || Reaches(g, s, x) {
        assert x in Elems(o);
        var i :| 0 <= i < |o| && o[i] == x;
        OnlySinkReaches(g, o, s, i);
      }
      assert IsCoveringSink(g, s);
    }
  }
}
