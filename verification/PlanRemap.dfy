/** Storing the first plan of a run: task ids that other runs already use are replaced by derived
    ids before the plan is checked again and written. */
module PlanRemap {
  import opened PlanGraph
  import opened PlanDepth
  import opened FinalSink
  import opened PlanValidator
  import opened Options

  type IdMap = map<Id, Id>

  ghost predicate Injective(f: IdMap) {
    forall x, y | x in f && y in f && f[x] == f[y] :: x == y
  }

  /** id_map.get(d, d) for each dependency. */
  function MapIds(f: IdMap, ids: seq<Id>): (r: seq<Id>)
    ensures |r| == |ids|
    ensures forall i | 0 <= i < |ids| :: r[i] == if ids[i] in f then f[ids[i]] else ids[i]
  {
    seq(|ids|, i requires 0 <= i < |ids| => if ids[i] in f then f[ids[i]] else ids[i])
  }

  function RenameTask(f: IdMap, t: Task): Task
    requires t.id in f
  {
    t.(id := f[t.id], deps := MapIds(f, t.deps))
  }

  ghost predicate IsRenaming(f: IdMap, tasks: seq<Task>, renamed: seq<Task>) {
    && (forall t | t in tasks :: t.id in f)
    && |renamed| == |tasks|
    && forall i | 0 <= i < |tasks| :: renamed[i] == RenameTask(f, tasks[i])
  }

  // ----- Renaming is an isomorphism of task graphs

  /** g2 is g1 with every id x replaced by f[x]. */
  ghost predicate Iso(g1: Graph, g2: Graph, f: IdMap, h: IdMap) {
    && f.Keys == g1.Keys && h.Keys == g2.Keys
    && (forall x | x in g1 :: f[x] in g2 && h[f[x]] == x)
    && (forall y | y in g2 :: h[y] in g1 && f[h[y]] == y)
    && (forall x | x in g1 :: g2[f[x]].kind == g1[x].kind && g2[f[x]].deps == MapIds(f, g1[x].deps))
  }

  lemma IsoEdge(g1: Graph, g2: Graph, f: IdMap, h: IdMap, x: Id, y: Id)
    requires Iso(g1, g2, f, h) && Closed(g1) && Edge(g1, x, y)
    ensures Edge(g2, f[x], f[y])
  {
    var i :| 0 <= i < |g1[x].deps| && g1[x].deps[i] == y;
    assert MapIds(f, g1[x].deps)[i] == f[y];
  }

  lemma IsoClosed(g1: Graph, g2: Graph, f: IdMap, h: IdMap)
    requires Iso(g1, g2, f, h) && Closed(g1)
    ensures Closed(g2)
  {
    forall y, e | y in g2 && e in g2[y].deps ensures e in g2 {
      var x := h[y];
      var i :| 0 <= i < |g2[y].deps| && g2[y].deps[i] == e;
      assert g1[x].deps[i] in g1[x].deps;
      assert e == f[g1[x].deps[i]];
    }
  }

  /** An isomorphism can be read backwards. */
  lemma IsoInverse(g1: Graph, g2: Graph, f: IdMap, h: IdMap)
    requires Iso(g1, g2, f, h) && Closed(g1)
    ensures Iso(g2, g1, h, f) && Closed(g2)
  {
    IsoClosed(g1, g2, f, h);
    forall y | y in g2 ensures g1[h[y]].kind == g2[y].kind && g1[h[y]].deps == MapIds(h, g2[y].deps) {
      var x := h[y];
      forall i | 0 <= i < |g1[x].deps| ensures g1[x].deps[i] == MapIds(h, g2[y].deps)[i] {
        assert g1[x].deps[i] in g1[x].deps;
        assert g2[y].deps[i] == f[g1[x].deps[i]];
      }
    }
  }

  lemma IsoPath(g1: Graph, g2: Graph, f: IdMap, h: IdMap, p: seq<Id>)
    requires Iso(g1, g2, f, h) && Closed(g1) && IsChain(g1, p)
    ensures IsChain(g2, MapIds(f, p))
    ensures forall i | 0 <= i < |p| :: p[i] in g1 && MapIds(f, p)[i] == f[p[i]]
  {
    var q := MapIds(f, p);
    forall i | 0 <= i < |p| ensures p[i] in g1 && q[i] == f[p[i]] { ChainInside(g1, p, i); }
    forall i, j | 0 <= i < j < |q| && j == i + 1 ensures Edge(g2, q[i], q[j]) {
      IsoEdge(g1, g2, f, h, p[i], p[j]);
    }
  }

  lemma IsoReaches(g1: Graph, g2: Graph, f: IdMap, h: IdMap, x: Id, y: Id)
    requires Iso(g1, g2, f, h) && Closed(g1) && Reaches(g1, x, y)
    ensures x in g1 && y in g1 && Reaches(g2, f[x], f[y])
  {
    ClosedReaches(g1, x, y);
    var p :| PathFromTo(g1, p, x, y);
    IsoPath(g1, g2, f, h, p);
    assert PathFromTo(g2, MapIds(f, p), f[x], f[y]);
  }

  lemma IsoAcyclic(g1: Graph, g2: Graph, f: IdMap, h: IdMap)
    requires Iso(g1, g2, f, h) && Closed(g1) && Acyclic(g1)
    ensures Acyclic(g2)
  {
    IsoInverse(g1, g2, f, h);
    forall y ensures !Reaches(g2, y, y) {
      if Reaches(g2, y, y) {
        IsoReaches(g2, g1, h, f, y, y);
        assert false;
      }
    }
  }

  lemma IsoSink(g1: Graph, g2: Graph, f: IdMap, h: IdMap, s: Id)
    requires Iso(g1, g2, f, h) && Closed(g1) && IsSink(g1, s)
    ensures IsSink(g2, f[s])
  {
    IsoInverse(g1, g2, f, h);
    forall t ensures !Edge(g2, t, f[s]) {
      if Edge(g2, t, f[s]) {
        IsoEdge(g2, g1, h, f, t, f[s]);
        assert false;
      }
    }
  }

  lemma IsoOnlySink(g1: Graph, g2: Graph, f: IdMap, h: IdMap, s: Id)
    requires Iso(g1, g2, f, h) && Closed(g1) && OnlySinkValidates(g1, s)
    ensures OnlySinkValidates(g2, f[s])
  {
    IsoInverse(g1, g2, f, h);
    IsoSink(g1, g2, f, h, s);
    forall y | IsSink(g2, y) ensures y == f[s] { IsoSink(g2, g1, h, f, y); }
  }

  lemma IsoChainsBounded(g1: Graph, g2: Graph, f: IdMap, h: IdMap, n: nat)
    requires Iso(g1, g2, f, h) && Closed(g1) && forall p | IsChain(g1, p) :: |p| <= n
    ensures forall q | IsChain(g2, q) :: |q| <= n
  {
    IsoInverse(g1, g2, f, h);
    forall q | IsChain(g2, q) ensures |q| <= n { IsoPath(g2, g1, h, f, q); }
  }

  /** Renaming keeps the depth of the plan. */
  lemma IsoDepth(g1: Graph, g2: Graph, f: IdMap, h: IdMap, n: nat)
    requires Iso(g1, g2, f, h) && Closed(g1) && LongestChain(g1, n)
    ensures LongestChain(g2, n)
  {
    IsoChainsBounded(g1, g2, f, h, n);
    if n > 0 {
      var p :| IsChain(g1, p) && |p| == n;
      IsoPath(g1, g2, f, h, p);
    }
  }

  /** Renaming keeps every graph property that validation established. */
  lemma IsoSound(requireSink: bool, g1: Graph, g2: Graph, f: IdMap, h: IdMap, maxDepth: nat)
    requires Iso(g1, g2, f, h) && SoundGraph(requireSink, g1, maxDepth)
    ensures SoundGraph(requireSink, g2, maxDepth)
  {
    IsoClosed(g1, g2, f, h);
    IsoAcyclic(g1, g2, f, h);
    IsoChainsBounded(g1, g2, f, h, maxDepth);
    if requireSink {
      var s :| OnlySinkValidates(g1, s);
      IsoOnlySink(g1, g2, f, h, s);
    }
  }

  // ----- The renamed task list

  lemma RenamedUnique(f: IdMap, tasks: seq<Task>, renamed: seq<Task>)
    requires IsRenaming(f, tasks, renamed) && UniqueIds(tasks) && Injective(f)
    ensures UniqueIds(renamed)
  {
    forall i, j | 0 <= i < j < |renamed| ensures renamed[i].id != renamed[j].id {
      assert tasks[i].id != tasks[j].id;
    }
  }

  ghost function Inverse(f: IdMap): (h: IdMap)
    requires Injective(f)
    ensures h.Keys == f.Values
    ensures forall x | x in f :: h[f[x]] == x
    ensures forall y | y in h :: h[y] in f && f[h[y]] == y
  {
    map y | y in f.Values :: var x :| x in f && f[x] == y; x
  }

  lemma RenamedEntry(f: IdMap, tasks: seq<Task>, renamed: seq<Task>, x: Id)
    requires IsRenaming(f, tasks, renamed) && UniqueIds(tasks) && UniqueIds(renamed)
    requires x in TasksById(tasks)
    ensures x in f && f[x] in TasksById(renamed)
    ensures TasksById(renamed)[f[x]].kind == TasksById(tasks)[x].kind
    ensures TasksById(renamed)[f[x]].deps == MapIds(f, TasksById(tasks)[x].deps)
  {
    TasksByIdKeyed(tasks);
    TasksByIdUnique(renamed);
    var i :| 0 <= i < |tasks| && tasks[i] == TasksById(tasks)[x];
    assert renamed[i] in renamed;
  }

  lemma RenamedKeys(f: IdMap, tasks: seq<Task>, renamed: seq<Task>)
    requires IsRenaming(f, tasks, renamed) && UniqueIds(tasks) && UniqueIds(renamed)
    requires f.Keys == TasksById(tasks).Keys
    ensures TasksById(renamed).Keys == f.Values
  {
    var g2 := TasksById(renamed);
    TasksByIdKeyed(renamed);
    forall y | y in f.Values ensures y in g2 {
      var x :| x in f && f[x] == y;
      RenamedEntry(f, tasks, renamed, x);
    }
    forall y | y in g2 ensures y in f.Values {
      var i :| 0 <= i < |renamed| && renamed[i] == g2[y];
      assert tasks[i] in tasks && f[tasks[i].id] == y;
    }
  }

  /** The dictionary of the renamed tasks is the renamed dictionary. */
  lemma RenamingIsIso(f: IdMap, tasks: seq<Task>, renamed: seq<Task>)
    requires IsRenaming(f, tasks, renamed) && UniqueIds(tasks) && Injective(f)
    requires f.Keys == TasksById(tasks).Keys
    ensures Iso(TasksById(tasks), TasksById(renamed), f, Inverse(f))
  {
    RenamedUnique(f, tasks, renamed);
    RenamedKeys(f, tasks, renamed);
    var g1, g2 := TasksById(tasks), TasksById(renamed);
    forall x | x in g1
      ensures f[x] in g2 && g2[f[x]].kind == g1[x].kind && g2[f[x]].deps == MapIds(f, g1[x].deps)
    {
      RenamedEntry(f, tasks, renamed, x);
    }
  }

  // ----- Storing the plan

  /** The id map: an id that is already stored is replaced by a derived one. */
  function IdMapFor(tasks: seq<Task>, stored: set<Id>, derive: Id -> Id): (f: IdMap)
    ensures forall x :: x in f <==> exists t :: t in tasks && t.id == x
    ensures forall x | x in f :: f[x] == if x in stored then derive(x) else x
  {
    map t | t in tasks :: t.id := if t.id in stored then derive(t.id) else t.id
  }

  /** Tasks in list order, each with its id and dependencies mapped. */
  method Remap(f: IdMap, tasks: seq<Task>) returns (renamed: seq<Task>)
    requires forall t | t in tasks :: t.id in f
    ensures IsRenaming(f, tasks, renamed)
  {
    renamed := [];
    for k := 0 to |tasks|
      invariant |renamed| == k
      invariant forall i | 0 <= i < k :: renamed[i] == RenameTask(f, tasks[i])
    {
      renamed := renamed + [RenameTask(f, tasks[k])];
    }
  }

  /** The dictionary of the second sink check: the last task with an id wins. */
  method LastById(tasks: seq<Task>) returns (g: Graph)
    ensures forall t | t in tasks :: t.id in g
    ensures UniqueIds(tasks) ==> g == TasksById(tasks)
  {
    g := map[];
    for k := 0 to |tasks|
      invariant forall t | t in tasks[..k] :: t.id in g
      invariant UniqueIds(tasks) ==> g == TasksById(tasks[..k])
    {
      assert tasks[..k + 1] == tasks[..k] + [tasks[k]];
      ByIdStep(tasks, k);
      g := g[tasks[k].id := tasks[k]];
    }
    assert tasks[..|tasks|] == tasks;
  }

  /** One candidate of the second sink check. */
  method ListedCandidateCovers(tasks: seq<Task>, g: Graph, dependedOn: set<Id>, t: Task) returns (r: Option<bool>)
    requires t in tasks && t.id in g && (UniqueIds(tasks) ==> g == TasksById(tasks))
    requires dependedOn == set t, d | t in tasks && d in t.deps :: d
    ensures UniqueIds(tasks) && !SinkLeaksOut(g) ==> r == Some(IsCoveringSink(g, t.id))
  {
    if UniqueIds(tasks) { SinkByList(tasks, t, dependedOn); }
    assert !SinkLeaksOut(g) ==> !LeaksOut(g, t.id);
    if t.id in dependedOn || t.kind != Validation {
      return Some(false);
    }
    r := CoversPlan(g, t.id);
  }

  /** _require_integration_sink; a false result stands for an exception. Where no sink leads
      outside the plan, the check passes exactly if some sink covers the plan. */
  method RequireIntegrationSink(tasks: seq<Task>) returns (ok: bool)
    ensures UniqueIds(tasks) && !SinkLeaksOut(TasksById(tasks)) ==>
              (ok <==> exists s :: IsCoveringSink(TasksById(tasks), s))
  {
    var g := LastById(tasks);
    var dependedOn := set t, d | t in tasks && d in t.deps :: d;
    ghost var decided := UniqueIds(tasks) && !SinkLeaksOut(g);
    for k := 0 to |tasks|
      invariant decided ==> forall i | 0 <= i < k :: !IsCoveringSink(g, tasks[i].id)
    {
      var covers := ListedCandidateCovers(tasks, g, dependedOn, tasks[k]);
      if covers == None {
        return false;
      }
      if covers.value {
        assert decided ==> IsCoveringSink(g, tasks[k].id);
        return true;
      }
    }
    ok := false;
    NoneCovers(tasks, g);
  }

  lemma SinkByList(tasks: seq<Task>, t: Task, dependedOn: set<Id>)
    requires UniqueIds(tasks) && t in tasks
    requires dependedOn == set t, d | t in tasks && d in t.deps :: d
    ensures t.id in TasksById(tasks) && TasksById(tasks)[t.id] == t
    ensures t.id !in dependedOn <==> IsSink(TasksById(tasks), t.id)
  {
    var g := TasksById(tasks);
    TasksByIdUnique(tasks);
    TasksByIdKeyed(tasks);
    if t.id in dependedOn {
      var u, d :| u in tasks && d in u.deps && d == t.id;
      assert Edge(g, u.id, t.id);
    }
    if !IsSink(g, t.id) {
      var u :| Edge(g, u, t.id);
      assert g[u] in tasks && t.id in g[u].deps;
    }
  }

  lemma NoneCovers(tasks: seq<Task>, g: Graph)
    requires UniqueIds(tasks) ==> g == TasksById(tasks)
    requires UniqueIds(tasks) && !SinkLeaksOut(g) ==> forall i | 0 <= i < |tasks| :: !IsCoveringSink(g, tasks[i].id)
    ensures UniqueIds(tasks) && !SinkLeaksOut(g) ==> !exists s :: IsCoveringSink(TasksById(tasks), s)
  {
    if UniqueIds(tasks) && !SinkLeaksOut(g) {
      TasksByIdKeyed(tasks);
      forall s ensures !IsCoveringSink(g, s) {
        if s in g {
          var i :| 0 <= i < |tasks| && tasks[i] == g[s];
        }
      }
    }
  }

  ghost predicate FreshIds(tasks: seq<Task>, stored: set<Id>) {
    UniqueIds(tasks) && forall t | t in tasks :: t.id !in stored
  }

  /** One insert per task; the primary key refuses a stored id and undoes the transaction. */
  method InsertTasks(tasks: seq<Task>, stored: set<Id>) returns (ok: bool)
    ensures ok <==> FreshIds(tasks, stored)
  {
    var ids := stored;
    for k := 0 to |tasks|
      invariant FreshIds(tasks[..k], stored)
      invariant forall x :: x in ids <==> x in stored || exists i :: 0 <= i < k && tasks[i].id == x
    {
      if tasks[k].id in ids {
        assert !FreshIds(tasks, stored);
        return false;
      }
      assert tasks[..k + 1] == tasks[..k] + [tasks[k]];
      ids := ids + {tasks[k].id};
    }
    assert tasks[..|tasks|] == tasks;
    ok := true;
  }

  lemma IndexOfId(tasks: seq<Task>, x: Id) returns (i: nat)
    requires x in TasksById(tasks)
    ensures i < |tasks| && tasks[i].id == x
  {
    TasksByIdKeyed(tasks);
    var t :| t in tasks && t.id == x;
    i :| 0 <= i < |tasks| && tasks[i] == t;
  }

  /** The renamed ids are all new exactly when the map is injective and avoids stored ids. */
  lemma FreshIffInjective(f: IdMap, tasks: seq<Task>, renamed: seq<Task>, stored: set<Id>)
    requires IsRenaming(f, tasks, renamed) && UniqueIds(tasks) && f.Keys == TasksById(tasks).Keys
    ensures FreshIds(renamed, stored) <==> Injective(f) && forall x | x in f :: f[x] !in stored
  {
    if FreshIds(renamed, stored) {
      forall x, y | x in f && y in f && f[x] == f[y] ensures x == y {
        var i := IndexOfId(tasks, x);
        var j := IndexOfId(tasks, y);
        assert renamed[i].id == renamed[j].id;
      }
      forall x | x in f ensures f[x] !in stored {
        var i := IndexOfId(tasks, x);
        assert renamed[i] in renamed;
      }
    }
    if Injective(f) && forall x | x in f :: f[x] !in stored {
      RenamedUnique(f, tasks, renamed);
    }
  }

  /** A plan that the validator accepted passes the second sink check after an injective renaming. */
  lemma RenamedPlanIsSound(plan: Plan, f: IdMap, renamed: seq<Task>)
    requires ValidPlan(true, plan) && IsRenaming(f, plan.tasks, renamed)
    requires f.Keys == TasksById(plan.tasks).Keys && Injective(f)
    ensures UniqueIds(renamed) && !SinkLeaksOut(TasksById(renamed))
    ensures SoundGraph(true, TasksById(renamed), plan.limits.maxPlanDepth)
    ensures exists s :: IsCoveringSink(TasksById(renamed), s)
    ensures forall n | LongestChain(TasksById(plan.tasks), n) :: LongestChain(TasksById(renamed), n)
  {
    var g1, g2 := TasksById(plan.tasks), TasksById(renamed);
    RenamedUnique(f, plan.tasks, renamed);
    RenamingIsIso(f, plan.tasks, renamed);
    IsoSound(true, g1, g2, f, Inverse(f), plan.limits.maxPlanDepth);
    SinkVerdict(g2);
    CountsOne(g2);
    forall n | LongestChain(g1, n) ensures LongestChain(g2, n) { IsoDepth(g1, g2, f, Inverse(f), n); }
  }

  lemma {:induction false} TotalsKept(f: IdMap, tasks: seq<Task>, renamed: seq<Task>)
    requires IsRenaming(f, tasks, renamed)
    ensures DynamicTasks(renamed) == DynamicTasks(tasks)
    ensures TotalCost(renamed) == TotalCost(tasks) && TotalSeconds(renamed) == TotalSeconds(tasks)
  {
    if tasks != [] {
      var n := |tasks| - 1;
      TotalsKept(f, tasks[..n], renamed[..n]);
      assert renamed[n] == RenameTask(f, tasks[n]);
    }
  }

  /** A renamed valid plan is a valid plan. */
  lemma RenamedPlanIsValid(plan: Plan, f: IdMap, renamed: seq<Task>)
    requires ValidPlan(true, plan) && IsRenaming(f, plan.tasks, renamed)
    requires f.Keys == TasksById(plan.tasks).Keys && Injective(f)
    ensures ValidPlan(true, plan.(tasks := renamed))
  {
    RenamedPlanIsSound(plan, f, renamed);
    TotalsKept(f, plan.tasks, renamed);
    var result := plan.(tasks := renamed);
    forall t | t in renamed ensures InScope(result, t) && IsPermitted(t) {
      var i :| 0 <= i < |renamed| && renamed[i] == t;
      assert plan.tasks[i] in plan.tasks && t == RenameTask(f, plan.tasks[i]);
    }
  }

  /** No two plan tasks get the same id, and no new id is already stored. */
  ghost predicate RemapIsClean(plan: Plan, stored: set<Id>, derive: Id -> Id) {
    var f := IdMapFor(plan.tasks, stored, derive);
    Injective(f) && forall x | x in f :: f[x] !in stored
  }

  ghost predicate StoredAs(plan: Plan, stored: set<Id>, derive: Id -> Id, result: Plan) {
    && result == plan.(tasks := result.tasks)
    && IsRenaming(IdMapFor(plan.tasks, stored, derive), plan.tasks, result.tasks)
  }

  lemma StoredPlanIsValid(plan: Plan, stored: set<Id>, derive: Id -> Id, result: Plan)
    requires ValidPlan(true, plan) && RemapIsClean(plan, stored, derive) && StoredAs(plan, stored, derive, result)
    ensures ValidPlan(true, result) && result.revision == plan.revision
  {
    var f := IdMapFor(plan.tasks, stored, derive);
    TasksByIdKeyed(plan.tasks);
    assert f.Keys == TasksById(plan.tasks).Keys;
    RenamedPlanIsValid(plan, f, result.tasks);
  }

  /** From a validated plan to its stored rows; None stands for an exception, after which nothing
      is stored. The plan is stored exactly when the remap is clean, never because the second
      sink check fails, and what is stored is the plan up to renaming. */
  method PreparePlan(plan: Plan, stored: set<Id>, derive: Id -> Id) returns (r: Option<Plan>)
    requires ValidPlan(true, plan)
    ensures r.Some? <==> RemapIsClean(plan, stored, derive)
    ensures r.Some? ==> StoredAs(plan, stored, derive, r.value)
    ensures r.Some? ==> FreshIds(r.value.tasks, stored)
    ensures r.Some? ==> ValidPlan(true, r.value)
  {
    var f := IdMapFor(plan.tasks, stored, derive);
    TasksByIdKeyed(plan.tasks);
    assert f.Keys == TasksById(plan.tasks).Keys;
    var tasks := plan.tasks;
    if exists t :: t in plan.tasks && t.id in stored {
      tasks := Remap(f, plan.tasks);
    } else {
      IdentityRenaming(f, plan.tasks, stored, derive);
    }
    FreshIffInjective(f, plan.tasks, tasks, stored);
    var covered := RequireIntegrationSink(tasks);
    if Injective(f) {
      RenamedPlanIsSound(plan, f, tasks);
      RenamedPlanIsValid(plan, f, tasks);
    }
    if !covered {
      return None;
    }
    var inserted := InsertTasks(tasks, stored);
    if !inserted {
      return None;
    }
    r := Some(plan.(tasks := tasks));
  }

  lemma IdentityRenaming(f: IdMap, tasks: seq<Task>, stored: set<Id>, derive: Id -> Id)
    requires f == IdMapFor(tasks, stored, derive) && forall t | t in tasks :: t.id !in stored
    ensures IsRenaming(f, tasks, tasks)
  {
    forall i | 0 <= i < |tasks| ensures tasks[i] == RenameTask(f, tasks[i]) {
      assert tasks[i] in tasks;
      assert MapIds(f, tasks[i].deps) == tasks[i].deps;
    }
  }

  lemma TwoTasks(x: Task, y: Task)
    requires x.id != y.id
    ensures TasksById([x, y]) == map[x.id := x, y.id := y]
  {
    var n := |[x, y]| - 1;
    assert [x, y][..n] == [x];
    SingleTask(x);
  }

  lemma TwoEdges(g: Graph, p: seq<Id>)
    requires IsPath(g, p) && |p| > 2
    ensures Edge(g, p[0], p[1]) && Edge(g, p[1], p[2])
  {
  }

  /** A task and a VALIDATION task that waits for it. */
  lemma TwoTasksAreSound(x: Task, y: Task, limit: nat)
    requires x.id != y.id && x.deps == [] && y.deps == [x.id] && y.kind == Validation && limit >= 2
    ensures SoundGraph(true, TasksById([x, y]), limit)
  {
    var g := TasksById([x, y]);
    TwoTasks(x, y);
    forall a, b ensures Edge(g, a, b) <==> a == y.id && b == x.id {}
    forall a ensures !Reaches(g, a, a) {
      if Reaches(g, a, a) {
        var b := ReachesUnfold(g, a, a);
        if b != a { var c := ReachesUnfold(g, b, a); }
      }
    }
    forall p | IsChain(g, p) ensures |p| <= limit {
      if |p| > 2 {
        TwoEdges(g, p);
        assert false;
      }
    }
    assert Edge(g, y.id, x.id);
    assert OnlySinkValidates(g, y.id);
  }

  /** A remap is not always clean: the plan is valid, but the derived id of its first task is the id
      of its second. */
  lemma DerivedIdMayCollide(plan: Plan, x: Task, y: Task, stored: set<Id>, derive: Id -> Id)
    requires plan.tasks == [x, y] && plan.limits.maxPlanDepth >= 2 && WithinTotals(plan)
    requires InScope(plan, x) && IsPermitted(x) && InScope(plan, y) && IsPermitted(y)
    requires x.id != y.id && x.deps == [] && y.deps == [x.id] && y.kind == Validation
    requires x.id in stored && y.id !in stored && derive(x.id) == y.id
    ensures ValidPlan(true, plan) && !RemapIsClean(plan, stored, derive)
  {
    TwoTasksAreSound(x, y, plan.limits.maxPlanDepth);
    var f := IdMapFor([x, y], stored, derive);
    assert x in [x, y] && y in [x, y];
    assert x.id in f && y.id in f && f[x.id] == f[y.id];
  }
}
