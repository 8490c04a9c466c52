/** The task graph of a plan: tasks keyed by id, dependency edges, paths and reachability.
    A dependency edge points from a task to a task it waits for. */
module PlanGraph {
  import opened Basics

  /** A UUID, seen through the integer that the planner sorts by. */
  type Id = nat

  datatype TaskType = Research | Implementation | Test | Refactor | Documentation | Validation

  /** The fields of a task specification that plan validation reads. The field policyIssues is
      the list of issue codes that the checks of capability, tools, risk and acceptance criteria
      report for this task; these checks never raise. */
  datatype Task = Task(
    id: Id,
    deps: seq<Id>,
    kind: TaskType,
    planRevision: nat,
    projectId: nat,
    repositoryId: nat,
    costUsd: real,
    wallSeconds: nat,
    paths: seq<string>,
    policyIssues: seq<string>)

  type Graph = map<Id, Task>

  /** Every entry is stored under its own id. */
  ghost predicate Keyed(g: Graph) {
    forall x | x in g :: g[x].id == x
  }

  /** Every dependency of every task is itself a task of the plan. */
  ghost predicate Closed(g: Graph) {
    forall x, d | x in g && d in g[x].deps :: d in g
  }

  predicate Edge(g: Graph, x: Id, y: Id) {
    x in g && y in g[x].deps
  }

  /** p follows dependency edges. Only its last element may lie outside the plan. */
  ghost predicate IsPath(g: Graph, p: seq<Id>) {
    && |p| > 0
    && forall i, j | 0 <= i < j < |p| && j == i + 1 :: Edge(g, p[i], p[j])
  }

  /** A path that stays inside the plan: one dependency chain. */
  ghost predicate IsChain(g: Graph, p: seq<Id>) {
    IsPath(g, p) && p[|p| - 1] in g
  }

  ghost predicate PathFromTo(g: Graph, p: seq<Id>, x: Id, y: Id) {
    IsPath(g, p) && |p| >= 2 && p[0] == x && p[|p| - 1] == y
  }

  /** y is a transitive dependency of x. */
  ghost predicate Reaches(g: Graph, x: Id, y: Id) {
    exists p :: PathFromTo(g, p, x, y)
  }

  ghost predicate Acyclic(g: Graph) {
    forall x :: !Reaches(g, x, x)
  }

  ghost function Elems<T(!new)>(s: seq<T>): set<T> {
    set x | x in s
  }

  ghost predicate NoDup<T>(s: seq<T>) {
    forall i, j | 0 <= i < j < |s| :: s[i] != s[j]
  }

  lemma EdgeReaches(g: Graph, x: Id, y: Id)
    requires Edge(g, x, y)
    ensures Reaches(g, x, y)
  {
    assert PathFromTo(g, [x, y], x, y);
  }

  lemma ReachesTransitive(g: Graph, x: Id, y: Id, z: Id)
    requires Reaches(g, x, y) && Reaches(g, y, z)
    ensures Reaches(g, x, z)
  {
    var p :| PathFromTo(g, p, x, y);
    var q :| PathFromTo(g, q, y, z);
    var r := p + q[1..];
    forall i, j | 0 <= i < j < |r| && j == i + 1
      ensures Edge(g, r[i], r[j])
    {
      if j < |p| {
      } else {
        assert r[i] == q[i - |p| + 1] && r[j] == q[j - |p| + 1];
      }
    }
    assert PathFromTo(g, r, x, z);
  }

  lemma SubPath(g: Graph, p: seq<Id>, a: nat, b: nat)
    requires IsPath(g, p) && a < b <= |p|
    ensures IsPath(g, p[a..b])
  {
    var q := p[a..b];
    forall i, j | 0 <= i < j < |q| && j == i + 1
      ensures Edge(g, q[i], q[j])
    {
      assert q[i] == p[a + i] && q[j] == p[a + j];
    }
  }

  /** Every step of a chain is a task of the plan. */
  lemma ChainInside(g: Graph, p: seq<Id>, i: nat)
    requires IsChain(g, p) && i < |p|
    ensures p[i] in g
  {
    if i + 1 < |p| {
      var j := i + 1;
      assert Edge(g, p[i], p[j]);
    }
  }

  /** Prepending a task to a path that starts at one of its dependencies. */
  lemma ConsPath(g: Graph, x: Id, p: seq<Id>)
    requires IsPath(g, p) && Edge(g, x, p[0])
    ensures IsPath(g, [x] + p)
  {
    var q := [x] + p;
    forall i, j | 0 <= i < j < |q| && j == i + 1
      ensures Edge(g, q[i], q[j])
    {
      assert q[j] == p[i];
      if i > 0 {
        assert q[i] == p[i - 1];
      }
    }
  }

  /** The first step of a transitive dependency. */
  lemma ReachesUnfold(g: Graph, x: Id, y: Id) returns (d: Id)
    requires Reaches(g, x, y)
    ensures Edge(g, x, d) && (d == y || Reaches(g, d, y))
  {
    var p :| PathFromTo(g, p, x, y);
    d := p[1];
    assert Edge(g, p[0], p[1]);
    if |p| > 2 {
      SubPath(g, p, 1, |p|);
      assert PathFromTo(g, p[1..], d, y);
    }
  }

  /** In a closed plan every transitive dependency is a task of the plan. */
  lemma ClosedReaches(g: Graph, x: Id, y: Id)
    requires Closed(g) && Reaches(g, x, y)
    ensures x in g && y in g
  {
    var p :| PathFromTo(g, p, x, y);
    var i, j := |p| - 2, |p| - 1;
    assert Edge(g, p[i], p[j]);
    assert Edge(g, p[0], p[1]);
  }

  /** Dropping an element from a set that holds every element of a sequence once. */
  lemma NoDupLength<T(!new)>(s: seq<T>)
    requires NoDup(s)
    ensures |Elems(s)| == |s|
  {
    if s != [] {
      var n := |s| - 1;
      assert Elems(s) == Elems(s[..n]) + {s[n]};
      assert s[n] !in Elems(s[..n]);
      NoDupLength(s[..n]);
    } else {
      assert Elems(s) == {};
    }
  }

  /** A sequence over s that is longer than s repeats itself. */
  lemma Pigeonhole<T(!new)>(p: seq<T>, s: set<T>) returns (i: nat, j: nat)
    requires |p| > |s| && forall k | 0 <= k < |p| :: p[k] in s
    ensures i < j < |p| && p[i] == p[j]
  {
    if NoDup(p) {
      NoDupLength(p);
      SubsetSize(Elems(p), s);
      assert false;
    }
    i, j :| 0 <= i < j < |p| && p[i] == p[j];
  }
}
