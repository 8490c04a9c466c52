/** Kahn's algorithm with a least-id-first ready heap, and what its result means. */
module TopologicalOrder {
  import opened Basics
  import opened PlanGraph

  /** Tasks that are not done and whose in-plan dependencies all are. */
  ghost function Ready(g: Graph, done: set<Id>): set<Id> {
    set x | x in g && x !in done && forall d | d in g[x].deps && d in g :: d in done
  }

  ghost predicate IsLeast(m: Id, s: set<Id>) {
    m in s && forall x | x in s :: m <= x
  }

  /** No repetition, only tasks of the plan, and every in-plan dependency comes first. */
  ghost predicate DependenciesFirst(g: Graph, o: seq<Id>) {
    && NoDup(o)
    && (forall i | 0 <= i < |o| :: o[i] in g)
    && (forall i, d | 0 <= i < |o| && d in g[o[i]].deps && d in g :: d in o[..i])
  }

  /** Each position holds the least id that was ready at that point. */
  ghost predicate LeastReadyFirst(g: Graph, o: seq<Id>) {
    forall i | 0 <= i < |o| :: IsLeast(o[i], Ready(g, Elems(o[..i])))
  }

  /** The order that the algorithm stops with. */
  ghost predicate IsGreedyOrder(g: Graph, o: seq<Id>) {
    && DependenciesFirst(g, o)
    && LeastReadyFirst(g, o)
    && Ready(g, Elems(o)) == {}
  }

  /** A complete schedule of the plan. */
  ghost predicate IsTopologicalOrder(g: Graph, o: seq<Id>) {
    DependenciesFirst(g, o) && Elems(o) == g.Keys
  }

  // ----- The algorithm

  /** How many entries of deps lie in s, counting repetitions. */
  ghost function CountIn(deps: seq<Id>, s: set<Id>): nat {
    if deps == [] then 0
    else CountIn(deps[..|deps| - 1], s) + (if deps[|deps| - 1] in s then 1 else 0)
  }

  lemma {:induction false} CountInZero(deps: seq<Id>, s: set<Id>)
    ensures CountIn(deps, s) == 0 <==> forall d | d in deps :: d !in s
  {
    if deps != [] {
      var n := |deps| - 1;
      CountInZero(deps[..n], s);
      assert deps == deps[..n] + [deps[n]];
    }
  }

  /** Finishing t removes exactly the occurrences of t from the count. */
  lemma {:induction false} CountInRemove(deps: seq<Id>, s: set<Id>, t: Id)
    requires t in s
    ensures CountIn(deps, s) == CountIn(deps, s - {t}) + CountIn(deps, {t})
  {
    if deps != [] {
      CountInRemove(deps[..|deps| - 1], s, t);
    }
  }

  lemma CountInSnoc(deps: seq<Id>, d: Id, s: set<Id>)
    ensures CountIn(deps + [d], s) == CountIn(deps, s) + (if d in s then 1 else 0)
  {
    assert (deps + [d])[..|deps|] == deps;
  }

  lemma {:induction false} CountInPrefix(deps: seq<Id>, k: nat, s: set<Id>)
    requires k <= |deps|
    ensures CountIn(deps[..k], s) <= CountIn(deps, s)
    decreases |deps|
  {
    if k < |deps| {
      var n := |deps| - 1;
      CountInPrefix(deps[..n], k, s);
      assert deps[..n][..k] == deps[..k];
    } else {
      assert deps[..k] == deps;
    }
  }

  /** The indegree table after the tasks outside todo have been counted. */
  ghost predicate Counted(g: Graph, indegree: map<Id, nat>, todo: set<Id>) {
    && indegree.Keys == g.Keys
    && forall x | x in g :: indegree[x] == if x in todo then 0 else CountIn(g[x].deps, g.Keys)
  }

  /** How often x waits for d. */
  ghost function Waiting(dependents: map<Id, seq<Id>>, d: Id, x: Id): nat {
    if d in dependents then CountIn(dependents[d], {x}) else 0
  }

  /** The waiting lists after the tasks outside todo have been counted. */
  ghost predicate Listed(g: Graph, dependents: map<Id, seq<Id>>, todo: set<Id>) {
    && dependents.Keys == g.Keys
    && forall d, x | d in g && x in g ::
         Waiting(dependents, d, x) == if x in todo then 0 else CountIn(g[x].deps, {d})
  }

  /** Every id in a waiting list is a task of the plan. */
  ghost predicate ListedInPlan(g: Graph, dependents: map<Id, seq<Id>>) {
    forall d, x | d in dependents && x in dependents[d] :: x in g
  }

  /** x repeated n times. */
  ghost function Repeated(x: Id, n: nat): seq<Id> {
    if n == 0 then [] else Repeated(x, n - 1) + [x]
  }

  lemma {:induction false} CountRepeated(s: seq<Id>, x: Id, n: nat, y: Id)
    ensures CountIn(s + Repeated(x, n), {y}) == CountIn(s, {y}) + (if x == y then n else 0)
    ensures forall z | z in s + Repeated(x, n) :: z in s || z == x
  {
    if n == 0 {
      assert s + Repeated(x, n) == s;
    } else {
      CountRepeated(s, x, n - 1, y);
      assert s + Repeated(x, n) == s + Repeated(x, n - 1) + [x];
      CountInSnoc(s + Repeated(x, n - 1), x, {y});
    }
  }

  lemma RepeatedSnoc(g: Graph, x: Id, deps: seq<Id>, d: Id)
    ensures forall e | e in g && e != d ::
              Repeated(x, CountIn(deps + [d], {e})) == Repeated(x, CountIn(deps, {e}))
    ensures Repeated(x, CountIn(deps + [d], {d})) == Repeated(x, CountIn(deps, {d})) + [x]
  {
    CountInSnoc(deps, d, {d});
    forall e | e in g && e != d
      ensures CountIn(deps + [d], {e}) == CountIn(deps, {e})
    {
      CountInSnoc(deps, d, {e});
    }
  }

  /** Edge counting: the indegree of each task and, for each task, who waits for it. The
      tasks are visited in no particular order. */
  method CountEdges(g: Graph) returns (indegree: map<Id, nat>, dependents: map<Id, seq<Id>>)
    requires Keyed(g)
    ensures Counted(g, indegree, {}) && Listed(g, dependents, {}) && ListedInPlan(g, dependents)
  {
    indegree := map x | x in g :: 0;
    dependents := map x | x in g :: [];
    var todo := g.Keys;
    while todo != {}
      invariant todo <= g.Keys
      invariant Counted(g, indegree, todo) && Listed(g, dependents, todo) && ListedInPlan(g, dependents)
      decreases todo
    {
      var x :| x in todo;
      var indegree', dependents' := CountTask(g, x, indegree, dependents);
      TaskCounted(g, x, indegree, indegree', todo);
      TaskListed(g, x, dependents, dependents', todo);
      indegree, dependents, todo := indegree', dependents', todo - {x};
    }
  }

  /** Only the entry of x has changed, by n. */
  ghost predicate Raised(before: map<Id, nat>, after: map<Id, nat>, x: Id, n: nat)
    requires x in before
  {
    && after.Keys == before.Keys
    && after[x] == before[x] + n
    && forall y | y in before && y != x :: after[y] == before[y]
  }

  lemma TaskCounted(g: Graph, x: Id, before: map<Id, nat>, after: map<Id, nat>, todo: set<Id>)
    requires x in todo && x in g && Counted(g, before, todo)
    requires Raised(before, after, x, CountIn(g[x].deps, g.Keys))
    ensures Counted(g, after, todo - {x})
  {
  }

  /** The edges of one task. */
  method CountTask(g: Graph, x: Id, indegree: map<Id, nat>, dependents: map<Id, seq<Id>>)
    returns (indegree': map<Id, nat>, dependents': map<Id, seq<Id>>)
    requires x in g && x in indegree && dependents.Keys == g.Keys
    ensures Raised(indegree, indegree', x, CountIn(g[x].deps, g.Keys))
    ensures dependents'.Keys == g.Keys
    ensures forall d | d in g :: dependents'[d] == dependents[d] + Repeated(x, CountIn(g[x].deps, {d}))
  {
    indegree', dependents' := indegree, dependents;
    var deps := g[x].deps;
    for k := 0 to |deps|
      invariant Raised(indegree, indegree', x, CountIn(deps[..k], g.Keys))
      invariant dependents'.Keys == g.Keys
      invariant forall d | d in g :: dependents'[d] == dependents[d] + Repeated(x, CountIn(deps[..k], {d}))
    {
      var d := deps[k];
      assert deps[..k + 1] == deps[..k] + [d];
      CountInSnoc(deps[..k], d, g.Keys);
      RepeatedSnoc(g, x, deps[..k], d);
      if d in g {
        indegree' := indegree'[x := indegree'[x] + 1];
        dependents' := dependents'[d := dependents'[d] + [x]];
      }
    }
    assert deps[..|deps|] == deps;
  }

  lemma TaskListed(g: Graph, x: Id, before: map<Id, seq<Id>>, after: map<Id, seq<Id>>, todo: set<Id>)
    requires x in todo && x in g && Listed(g, before, todo) && ListedInPlan(g, before)
    requires after.Keys == g.Keys
    requires forall d | d in g :: after[d] == before[d] + Repeated(x, CountIn(g[x].deps, {d}))
    ensures Listed(g, after, todo - {x}) && ListedInPlan(g, after)
  {
    forall d, y | d in g && y in g
      ensures Waiting(after, d, y) == if y in todo - {x} then 0 else CountIn(g[y].deps, {d})
    {
      assert Waiting(before, d, y) == if y in todo then 0 else CountIn(g[y].deps, {d});
      CountRepeated(before[d], x, CountIn(g[x].deps, {d}), y);
    }
    forall d, y | d in after && y in after[d]
      ensures y in g
    {
      CountRepeated(before[d], x, CountIn(g[x].deps, {d}), y);
    }
  }

  /** heappop: the least element of a non-empty ready set. */
  method PopLeast(ready: set<Id>) returns (m: Id)
    requires ready != {}
    ensures IsLeast(m, ready)
  {
    m :| m in ready;
    var rest := ready - {m};
    while rest != {}
      invariant m in ready && rest <= ready
      invariant forall x | x in ready && x !in rest :: m <= x
      decreases rest
    {
      var x :| x in rest;
      if x < m { m := x; }
      rest := rest - {x};
    }
  }

  lemma NextWaiting(waiting: seq<Id>, k: nat)
    requires k < |waiting|
    ensures waiting[..k + 1] == waiting[..k] + [waiting[k]]
    ensures forall y: Id :: CountIn(waiting[..k + 1], {y})
                         == CountIn(waiting[..k], {y}) + (if waiting[k] == y then 1 else 0)
  {
    assert waiting[..k + 1] == waiting[..k] + [waiting[k]];
    forall y: Id
      ensures CountIn(waiting[..k + 1], {y}) == CountIn(waiting[..k], {y}) + (if waiting[k] == y then 1 else 0)
    {
      CountInSnoc(waiting[..k], waiting[k], {y});
    }
  }

  /** The decrement loop for one finished task: each waiting entry lowers an indegree, and a
      task enters the heap when its own reaches zero. */
  method Release(waiting: seq<Id>, indegree: map<Id, nat>, ready: set<Id>)
    returns (indegree': map<Id, nat>, ready': set<Id>)
    requires forall x | x in waiting :: x in indegree && CountIn(waiting, {x}) <= indegree[x]
    ensures indegree'.Keys == indegree.Keys
    ensures forall x | x in indegree :: indegree'[x] == indegree[x] - CountIn(waiting, {x})
    ensures ready' == ready + set x | x in waiting && indegree[x] == CountIn(waiting, {x})
  {
    indegree', ready' := indegree, ready;
    for k := 0 to |waiting|
      invariant indegree'.Keys == indegree.Keys
      invariant forall x | x in indegree :: indegree'[x] == indegree[x] - CountIn(waiting[..k], {x})
      invariant ready' == ready + set x | x in waiting[..k] && indegree[x] == CountIn(waiting[..k], {x})
    {
      var x := waiting[k];
      NextWaiting(waiting, k);
      CountInPrefix(waiting, k + 1, {x});
      indegree' := indegree'[x := indegree'[x] - 1];
      if indegree'[x] == 0 {
        ready' := ready' + {x};
      }
    }
    assert waiting[..|waiting|] == waiting;
  }

  /** The indegree table counts the unfinished in-plan dependencies. */
  ghost predicate Counts(g: Graph, indegree: map<Id, nat>, done: set<Id>) {
    && indegree.Keys == g.Keys
    && forall x | x in g :: indegree[x] == CountIn(g[x].deps, g.Keys - done)
  }

  /** Done tasks have all their in-plan dependencies done. */
  ghost predicate Settled(g: Graph, done: set<Id>) {
    forall x, d | x in done && x in g && d in g[x].deps && d in g :: d in done
  }

  /** The computed order is the greedy one, whichever way the dictionary is iterated. */
  method TopologicalSort(g: Graph) returns (result: seq<Id>)
    requires Keyed(g)
    ensures IsGreedyOrder(g, result)
  {
    var indegree, dependents := CountEdges(g);
    result := [];
    var ready := set x | x in g && indegree[x] == 0;
    InitiallyReady(g, indegree);
    while ready != {}
      invariant Counts(g, indegree, Elems(result)) && Listed(g, dependents, {}) && ListedInPlan(g, dependents)
      invariant ready == Ready(g, Elems(result))
      invariant DependenciesFirst(g, result) && LeastReadyFirst(g, result)
      decreases g.Keys - Elems(result)
    {
      var t := PopLeast(ready);
      ghost var done := Elems(result);
      ExtendOrder(g, result, t);
      WaitingIsPending(g, indegree, dependents, done, t);
      var indegree', ready' := Release(dependents[t], indegree, ready - {t});
      ReleaseKeepsCounts(g, indegree, dependents, done, t, indegree');
      result, indegree, ready := result + [t], indegree', ready';
    }
  }

  lemma InitiallyReady(g: Graph, indegree: map<Id, nat>)
    requires Counted(g, indegree, {})
    ensures Counts(g, indegree, Elems([])) && (set x | x in g && indegree[x] == 0) == Ready(g, Elems([]))
  {
    assert g.Keys - Elems([]) == g.Keys;
    forall x | x in g ensures indegree[x] == 0 <==> x in Ready(g, Elems([])) {
      CountInZero(g[x].deps, g.Keys);
    }
  }

  /** Whoever waits for a ready task still counts that task. */
  lemma WaitingIsPending(g: Graph, indegree: map<Id, nat>, dependents: map<Id, seq<Id>>, done: set<Id>, t: Id)
    requires Counts(g, indegree, done) && Listed(g, dependents, {}) && ListedInPlan(g, dependents)
    requires t in Ready(g, done)
    ensures forall x | x in dependents[t] :: x in indegree && CountIn(dependents[t], {x}) <= indegree[x]
  {
    forall x | x in dependents[t]
      ensures x in indegree && CountIn(dependents[t], {x}) <= indegree[x]
    {
      assert Waiting(dependents, t, x) == CountIn(g[x].deps, {t});
      CountInRemove(g[x].deps, g.Keys - done, t);
    }
  }

  lemma ReleaseKeepsCounts(
    g: Graph, indegree: map<Id, nat>, dependents: map<Id, seq<Id>>, done: set<Id>, t: Id, indegree': map<Id, nat>)
    requires Counts(g, indegree, done) && Listed(g, dependents, {}) && ListedInPlan(g, dependents)
    requires t in Ready(g, done) && Settled(g, done)
    requires indegree'.Keys == indegree.Keys
    requires forall x | x in indegree :: indegree'[x] == indegree[x] - CountIn(dependents[t], {x})
    ensures Counts(g, indegree', done + {t})
    ensures Ready(g, done) - {t} + (set x | x in dependents[t] && indegree[x] == CountIn(dependents[t], {x}))
         == Ready(g, done + {t})
  {
    var left := g.Keys - done;
    assert g.Keys - (done + {t}) == left - {t};
    var released := set x | x in dependents[t] && indegree[x] == CountIn(dependents[t], {x});
    forall x | x in g
      ensures indegree'[x] == CountIn(g[x].deps, left - {t})
      ensures x in Ready(g, done) - {t} + released <==> x in Ready(g, done + {t})
    {
      assert Waiting(dependents, t, x) == CountIn(g[x].deps, {t});
      CountInRemove(g[x].deps, left, t);
      ReadyAfter(g, done, t, x);
      CountInZero(g[x].deps, left - {t});
      CountInZero(g[x].deps, {t});
      CountInZero(dependents[t], {x});
    }
  }

  /** After t is done, x is ready if it was, or if t was the last dependency it waited for. */
  lemma ReadyAfter(g: Graph, done: set<Id>, t: Id, x: Id)
    requires t in Ready(g, done) && x in g && Settled(g, done)
    ensures x in Ready(g, done + {t}) <==>
              || (x in Ready(g, done) && x != t)
              || (t in g[x].deps && forall d | d in g[x].deps :: d !in g.Keys - done - {t})
  {
    if t in g[x].deps {
      assert x !in done && x != t;
    }
  }

  /** Appending a least ready task keeps the order well formed. */
  lemma ExtendOrder(g: Graph, o: seq<Id>, t: Id)
    requires DependenciesFirst(g, o) && LeastReadyFirst(g, o)
    requires IsLeast(t, Ready(g, Elems(o)))
    ensures DependenciesFirst(g, o + [t]) && LeastReadyFirst(g, o + [t])
    ensures Settled(g, Elems(o)) && Elems(o + [t]) == Elems(o) + {t}
  {
    var o' := o + [t];
    forall i, d | 0 <= i < |o'| && d in g[o'[i]].deps && d in g
      ensures d in o'[..i]
    {
      if i < |o| { assert o'[i] == o[i] && o'[..i] == o[..i]; } else { assert o'[..i] == o; }
    }
    forall i | 0 <= i < |o'|
      ensures IsLeast(o'[i], Ready(g, Elems(o'[..i])))
    {
      if i < |o| { assert o'[i] == o[i] && o'[..i] == o[..i]; } else { assert o'[..i] == o; }
    }
  }

  // ----- What the order means

  lemma LeastExists(s: set<Id>) returns (m: Id)
    requires s != {}
    ensures IsLeast(m, s)
  {
    m :| m in s;
    while !IsLeast(m, s)
      invariant m in s
      decreases m
    {
      var k :| k in s && k < m;
      m := k;
    }
  }

  /** Every plan has a greedy order. */
  lemma GreedyOrderExists(g: Graph) returns (o: seq<Id>)
    ensures IsGreedyOrder(g, o)
  {
    o := [];
    while Ready(g, Elems(o)) != {}
      invariant DependenciesFirst(g, o) && LeastReadyFirst(g, o)
      decreases g.Keys - Elems(o)
    {
      var t := LeastExists(Ready(g, Elems(o)));
      ExtendOrder(g, o, t);
      o := o + [t];
    }
  }

  /** A greedy order is determined by the plan alone. */
  lemma {:induction false} GreedyOrderUnique(g: Graph, a: seq<Id>, b: seq<Id>)
    requires IsGreedyOrder(g, a) && IsGreedyOrder(g, b)
    ensures a == b
  {
    NotLonger(g, a, b);
    NotLonger(g, b, a);
    SamePrefix(g, a, b, |a|);
  }

  lemma NotLonger(g: Graph, a: seq<Id>, b: seq<Id>)
    requires IsGreedyOrder(g, a) && IsGreedyOrder(g, b)
    ensures |b| <= |a|
  {
    assert a[..|a|] == a;
    if |a| < |b| {
      assert IsLeast(b[|a|], Ready(g, Elems(b[..|a|])));
      SamePrefix(g, a, b, |a|);
      assert false;
    }
  }

  lemma {:induction false} SamePrefix(g: Graph, a: seq<Id>, b: seq<Id>, n: nat)
    requires LeastReadyFirst(g, a) && LeastReadyFirst(g, b) && n <= |a| && n <= |b|
    ensures a[..n] == b[..n]
  {
    if n > 0 {
      var k := n - 1;
      SamePrefix(g, a, b, k);
      assert IsLeast(a[k], Ready(g, Elems(a[..k]))) && IsLeast(b[k], Ready(g, Elems(b[..k])));
      assert a[..n] == a[..k] + [a[k]] && b[..n] == b[..k] + [b[k]];
    }
  }

  ghost predicate LexLess(a: seq<Id>, b: seq<Id>) {
    exists k :: 0 <= k < |a| && k < |b| && a[..k] == b[..k] && a[k] < b[k]
  }

  /** Among all complete schedules the computed one is lexicographically least. */
  lemma GreedyIsLexLeast(g: Graph, o: seq<Id>, v: seq<Id>)
    requires IsGreedyOrder(g, o) && IsTopologicalOrder(g, o) && IsTopologicalOrder(g, v)
    ensures o == v || LexLess(o, v)
  {
    NoDupLength(o);
    NoDupLength(v);
    if o != v {
      var k := FirstDifference(o, v);
      NextIsReady(g, v, k);
      assert IsLeast(o[k], Ready(g, Elems(o[..k])));
    }
  }

  /** In a well-formed order each task is ready when its turn comes. */
  lemma NextIsReady(g: Graph, v: seq<Id>, k: nat)
    requires DependenciesFirst(g, v) && k < |v|
    ensures v[k] in Ready(g, Elems(v[..k]))
  {
    assert v[k] !in v[..k];
  }

  lemma FirstDifference(a: seq<Id>, b: seq<Id>) returns (k: nat)
    requires |a| == |b| && a != b
    ensures k < |a| && a[..k] == b[..k] && a[k] != b[k]
  {
    k :| 0 <= k < |a| && a[k] != b[k];
    while a[..k] != b[..k]
      invariant 0 <= k < |a| && a[k] != b[k]
      decreases k
    {
      var k' :| 0 <= k' < k && a[k'] != b[k'];
      k := k';
    }
  }

  /** Along a dependency chain, positions in a well-formed order strictly fall. */
  lemma {:induction false} ChainDescends(g: Graph, o: seq<Id>, p: seq<Id>, i: nat) returns (j: nat)
    requires DependenciesFirst(g, o) && IsChain(g, p)
    requires i < |o| && o[i] == p[0]
    ensures j < |o| && o[j] == p[|p| - 1] && j + |p| - 1 <= i
    decreases |p|
  {
    if |p| == 1 {
      j := i;
    } else {
      ChainInside(g, p, 1);
      assert Edge(g, p[0], p[1]);
      assert p[1] in o[..i];
      var k :| 0 <= k < i && o[k] == p[1];
      SubPath(g, p, 1, |p|);
      j := ChainDescends(g, o, p[1..], k);
    }
  }

  /** An ordered task is on no cycle. */
  lemma OrderedNotOnCycle(g: Graph, o: seq<Id>, x: Id)
    requires DependenciesFirst(g, o) && x in o
    ensures !Reaches(g, x, x)
  {
    if Reaches(g, x, x) {
      var p :| PathFromTo(g, p, x, x);
      assert Edge(g, p[0], p[1]);
      var i :| 0 <= i < |o| && o[i] == x;
      var j := ChainDescends(g, o, p, i);
      assert false;
    }
  }

  ghost predicate WaitsWithin(g: Graph, rest: set<Id>, y: Id) {
    exists d :: d in rest && Edge(g, y, d)
  }

  /** A walk of n steps through tasks that the algorithm never released. */
  lemma {:induction false} StuckWalk(g: Graph, rest: set<Id>, x: Id, n: nat) returns (p: seq<Id>)
    requires x in rest && rest <= g.Keys
    requires forall y | y in rest :: WaitsWithin(g, rest, y)
    ensures |p| == n + 1 && p[0] == x && IsPath(g, p) && forall k | 0 <= k < |p| :: p[k] in rest
    decreases n
  {
    if n == 0 {
      p := [x];
    } else {
      var d :| d in rest && Edge(g, x, d);
      var q := StuckWalk(g, rest, d, n - 1);
      ConsPath(g, x, q);
      p := [x] + q;
    }
  }

  /** The order is complete exactly when the dependencies have no cycle. */
  lemma CompleteIffAcyclic(g: Graph, o: seq<Id>)
    requires IsGreedyOrder(g, o)
    ensures |o| == |g| <==> Acyclic(g)
    ensures |o| == |g| <==> IsTopologicalOrder(g, o)
  {
    NoDupLength(o);
    assert Elems(o) <= g.Keys;
    SubsetSize(Elems(o), g.Keys);
    assert |g| == |g.Keys|;
    if Elems(o) == g.Keys {
      forall x ensures !Reaches(g, x, x) {
        if x in g {
          OrderedNotOnCycle(g, o, x);
        } else if Reaches(g, x, x) {
          var d := ReachesUnfold(g, x, x);
          assert false;
        }
      }
    } else {
      UnorderedHasCycle(g, o);
    }
  }

  lemma UnorderedHasCycle(g: Graph, o: seq<Id>)
    requires IsGreedyOrder(g, o) && Elems(o) != g.Keys
    ensures !Acyclic(g)
  {
    var done := Elems(o);
    assert done <= g.Keys;
    var rest := g.Keys - done;
    assert g.Keys == done + rest;
    forall y | y in rest ensures WaitsWithin(g, rest, y) {
      assert y !in Ready(g, done);
      var d :| d in g[y].deps && d in g && d !in done;
      assert d in rest && Edge(g, y, d);
    }
    StuckHasCycle(g, rest);
  }

  lemma LoopIsCycle(g: Graph, p: seq<Id>, i: nat, j: nat)
    requires IsPath(g, p) && i < j < |p| && p[i] == p[j]
    ensures Reaches(g, p[i], p[i])
  {
    SubPath(g, p, i, j + 1);
    assert PathFromTo(g, p[i..j + 1], p[i], p[i]);
  }

  lemma StuckHasCycle(g: Graph, rest: set<Id>)
    requires rest != {} && rest <= g.Keys && forall y | y in rest :: WaitsWithin(g, rest, y)
    ensures !Acyclic(g)
  {
    var x :| x in rest;
    var p := StuckWalk(g, rest, x, |rest|);
    var i, j := Pigeonhole(p, rest);
    LoopIsCycle(g, p, i, j);
  }
}
