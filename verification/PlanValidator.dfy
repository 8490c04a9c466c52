/** Plan validation: which issues are reported, when a plan is accepted, and append-only
    mutations of an accepted plan. */
module PlanValidator {
  import opened PlanGraph
  import opened TopologicalOrder
  import opened PlanDepth
  import opened FinalSink
  import opened RepositoryPaths
  import opened Options

  datatype Limits = Limits(maxDynamicTasks: nat, maxPlanDepth: nat, maxTotalBudgetUsd: real, maxTotalSeconds: nat)

  datatype Plan = Plan(
    runId: nat, projectId: nat, repositoryId: nat, baseline: nat,
    revision: nat, tasks: seq<Task>, limits: Limits)

  datatype Mutation = Mutation(mutationId: nat, baseRevision: nat, tasks: seq<Task>)

  datatype Issue =
    | DuplicateTaskId(id: Id)
    | ProjectScope(id: Id)
    | RepositoryScope(id: Id)
    | TaskRevision(id: Id)
    | Policy(id: Id, code: string)
    | RepositoryPathEscape(id: Id, path: string)
    | SelfDependency(id: Id)
    | MissingDependency(id: Id, dependency: Id)
    | Cycle
    | FinalValidationSink
    | MaxPlanDepth
    | MaxDynamicTasks
    | MaxTotalBudget
    | MaxTotalExecutionTime
    | StalePlanRevision
    | ExistingTaskMutation(id: Id)

  /** The report of one validation, the key error of the ancestor walk, or the index error of the
      path test. */
  datatype Verdict = Report(issues: seq<Issue>, order: seq<Id>, depth: nat) | MissingTask | EmptyPath

  // ----- The task dictionary

  /** The dictionary that the validator builds: the first task with an id wins. */
  function TasksById(tasks: seq<Task>): Graph {
    if tasks == [] then map[]
    else
      var t := tasks[|tasks| - 1];
      var g := TasksById(tasks[..|tasks| - 1]);
      if t.id in g then g else g[t.id := t]
  }

  ghost predicate UniqueIds(tasks: seq<Task>) {
    forall i, j | 0 <= i < j < |tasks| :: tasks[i].id != tasks[j].id
  }

  ghost predicate Repeats(tasks: seq<Task>, x: Id) {
    exists i, j :: 0 <= i < j < |tasks| && tasks[i].id == x && tasks[j].id == x
  }

  lemma RepeatsGrow(tasks: seq<Task>, t: Task, x: Id)
    ensures Repeats(tasks + [t], x) <==> Repeats(tasks, x) || (t.id == x && x in set u | u in tasks :: u.id)
  {
    var more := tasks + [t];
    if Repeats(more, x) && !Repeats(tasks, x) {
      var i, j :| 0 <= i < j < |more| && more[i].id == x && more[j].id == x;
      assert j == |tasks| && tasks[i] in tasks;
    }
    if Repeats(tasks, x) {
      var i, j :| 0 <= i < j < |tasks| && tasks[i].id == x && tasks[j].id == x;
      assert more[i].id == x && more[j].id == x;
    }
    if t.id == x && x in set u | u in tasks :: u.id {
      var i :| 0 <= i < |tasks| && tasks[i].id == x;
      assert more[i].id == x && more[|tasks|].id == x;
    }
  }

  lemma {:induction false} TasksByIdKeyed(tasks: seq<Task>)
    ensures Keyed(TasksById(tasks))
    ensures forall x :: x in TasksById(tasks) <==> exists t :: t in tasks && t.id == x
    ensures forall x | x in TasksById(tasks) :: TasksById(tasks)[x] in tasks
  {
    if tasks != [] {
      var n := |tasks| - 1;
      TasksByIdKeyed(tasks[..n]);
      assert tasks == tasks[..n] + [tasks[n]];
    }
  }

  /** One more task in the dictionary. */
  lemma ByIdStep(tasks: seq<Task>, k: nat)
    requires k < |tasks|
    ensures var g, t := TasksById(tasks[..k]), tasks[k];
            && TasksById(tasks[..k + 1]) == (if t.id in g then g else g[t.id := t])
            && (t.id in g <==> exists i :: 0 <= i < k && tasks[i].id == t.id)
  {
    TasksByIdKeyed(tasks[..k]);
    assert tasks[..k + 1][..k] == tasks[..k];
    if tasks[k].id in TasksById(tasks[..k]) {
      var u :| u in tasks[..k] && u.id == tasks[k].id;
      var i :| 0 <= i < k && tasks[..k][i] == u;
      assert tasks[i].id == tasks[k].id;
    }
    if i :| 0 <= i < k && tasks[i].id == tasks[k].id {
      assert tasks[i] in tasks[..k];
    }
  }

  lemma RepeatsStep(tasks: seq<Task>, k: nat, x: Id)
    requires k < |tasks|
    ensures Repeats(tasks[..k + 1], x) <==>
              Repeats(tasks[..k], x) || (x == tasks[k].id && x in TasksById(tasks[..k]))
  {
    assert tasks[..k + 1] == tasks[..k] + [tasks[k]];
    RepeatsGrow(tasks[..k], tasks[k], x);
    TasksByIdKeyed(tasks[..k]);
  }

  lemma {:induction false} TasksByIdUnique(tasks: seq<Task>)
    requires UniqueIds(tasks)
    ensures forall t | t in tasks :: t.id in TasksById(tasks) && TasksById(tasks)[t.id] == t
  {
    if tasks != [] {
      var n := |tasks| - 1;
      TasksByIdUnique(tasks[..n]);
      TasksByIdKeyed(tasks[..n]);
      assert tasks == tasks[..n] + [tasks[n]];
    }
  }

  /** With distinct ids, one listing's dictionary is part of the other's. */
  lemma ListingWithin(tasks: seq<Task>, tasks': seq<Task>, x: Id)
    requires UniqueIds(tasks') && (forall t | t in tasks :: t in tasks') && x in TasksById(tasks)
    ensures x in TasksById(tasks') && TasksById(tasks')[x] == TasksById(tasks)[x]
  {
    TasksByIdKeyed(tasks);
    TasksByIdUnique(tasks');
    var t := TasksById(tasks)[x];
    assert t in tasks && t.id == x;
  }

  /** With distinct ids the dictionary, and so the computed order, ignores how tasks are listed. */
  lemma ListingIrrelevant(tasks: seq<Task>, tasks': seq<Task>, o: seq<Id>, o': seq<Id>)
    requires UniqueIds(tasks) && UniqueIds(tasks') && Elems(tasks) == Elems(tasks')
    requires IsGreedyOrder(TasksById(tasks), o) && IsGreedyOrder(TasksById(tasks'), o')
    ensures TasksById(tasks) == TasksById(tasks') && o == o'
  {
    var g, g' := TasksById(tasks), TasksById(tasks');
    assert g == g' by {
      assert forall t | t in tasks :: t in Elems(tasks');
      assert forall t | t in tasks' :: t in Elems(tasks);
      forall x | x in g ensures x in g' && g'[x] == g[x] { ListingWithin(tasks, tasks', x); }
      forall x | x in g' ensures x in g { ListingWithin(tasks', tasks, x); }
    }
    GreedyOrderUnique(g, o, o');
  }

  // ----- What each issue means

  function DynamicTasks(tasks: seq<Task>): nat {
    if tasks == [] then 0
    else DynamicTasks(tasks[..|tasks| - 1]) + (if tasks[|tasks| - 1].planRevision > 1 then 1 else 0)
  }

  function TotalCost(tasks: seq<Task>): real {
    if tasks == [] then 0.0 else TotalCost(tasks[..|tasks| - 1]) + tasks[|tasks| - 1].costUsd
  }

  function TotalSeconds(tasks: seq<Task>): nat {
    if tasks == [] then 0 else TotalSeconds(tasks[..|tasks| - 1]) + tasks[|tasks| - 1].wallSeconds
  }

  ghost predicate TooDeep(g: Graph, limit: nat) {
    exists o, x, p :: IsGreedyOrder(g, o) && x in o && ChainFrom(g, p, x) && |p| > limit
  }

  /** The issues that concern one task of the plan. */
  predicate TaskIssue(plan: Plan, g: Graph, t: Task, issue: Issue) {
    match issue
    case ProjectScope(x) => x == t.id && t.projectId != plan.projectId
    case RepositoryScope(x) => x == t.id && t.repositoryId != plan.repositoryId
    case TaskRevision(x) => x == t.id && t.planRevision > plan.revision
    case Policy(x, code) => x == t.id && code in t.policyIssues
    case RepositoryPathEscape(x, path) => x == t.id && path in t.paths && CheckPath(path) == Escapes
    case SelfDependency(x) => x == t.id && x in t.deps
    case MissingDependency(x, d) => x == t.id && d in t.deps && d != x && d !in g
    case _ => false
  }

  /** The path test raises on one of the task's paths. */
  predicate HasEmptyPath(t: Task) {
    exists path :: path in t.paths && CheckPath(path) == IndexError
  }

  ghost predicate PathsRaise(tasks: seq<Task>) {
    exists t :: t in tasks && HasEmptyPath(t)
  }

  /** The ancestor walk raises: the sink rule is on, there is no cycle, and a VALIDATION sink leads
      outside the plan. */
  ghost predicate WalkRaises(requireSink: bool, g: Graph) {
    requireSink && Acyclic(g) && SinkLeaksOut(g)
  }

  /** Validation raises instead of reporting. */
  ghost predicate Raises(requireSink: bool, plan: Plan) {
    PathsRaise(plan.tasks) || WalkRaises(requireSink, TasksById(plan.tasks))
  }

  /** The issues that concern the plan as a whole. */
  ghost predicate PlanIssue(requireSink: bool, plan: Plan, issue: Issue) {
    var g := TasksById(plan.tasks);
    match issue
    case DuplicateTaskId(x) => Repeats(plan.tasks, x)
    case Cycle => !Acyclic(g)
    case FinalValidationSink => requireSink && Acyclic(g) && |CoveringSinks(g)| != 1
    case MaxPlanDepth => TooDeep(g, plan.limits.maxPlanDepth)
    case MaxDynamicTasks => DynamicTasks(plan.tasks) > plan.limits.maxDynamicTasks
    case MaxTotalBudget => TotalCost(plan.tasks) > plan.limits.maxTotalBudgetUsd
    case MaxTotalExecutionTime => TotalSeconds(plan.tasks) > plan.limits.maxTotalSeconds
    case _ => false
  }

  /** The plan shows this issue. */
  ghost predicate HasIssue(requireSink: bool, plan: Plan, issue: Issue) {
    || PlanIssue(requireSink, plan, issue)
    || exists t :: t in plan.tasks && TaskIssue(plan, TasksById(plan.tasks), t, issue)
  }

  /** Every dependency exists, there is no cycle, the sink rule holds and chains are short. */
  ghost predicate SoundGraph(requireSink: bool, g: Graph, maxDepth: nat) {
    && Closed(g) && Acyclic(g)
    && (requireSink ==> exists s :: OnlySinkValidates(g, s))
    && (forall p | IsChain(g, p) :: |p| <= maxDepth)
  }

  /** A plan that scheduling may rely on. */
  ghost predicate ValidPlan(requireSink: bool, plan: Plan) {
    && UniqueIds(plan.tasks)
    && SoundGraph(requireSink, TasksById(plan.tasks), plan.limits.maxPlanDepth)
    && (forall t | t in plan.tasks :: InScope(plan, t) && IsPermitted(t))
    && WithinTotals(plan)
  }

  /** The policy has nothing against the task, and its paths stay inside the repository. */
  ghost predicate IsPermitted(t: Task) {
    t.policyIssues == [] && forall path | path in t.paths :: CheckPath(path) == Inside
  }

  predicate InScope(plan: Plan, t: Task) {
    t.projectId == plan.projectId && t.repositoryId == plan.repositoryId && t.planRevision <= plan.revision
  }

  predicate WithinTotals(plan: Plan) {
    && DynamicTasks(plan.tasks) <= plan.limits.maxDynamicTasks
    && TotalCost(plan.tasks) <= plan.limits.maxTotalBudgetUsd
    && TotalSeconds(plan.tasks) <= plan.limits.maxTotalSeconds
  }

  // ----- Validation

  /** The ids listed more than once. */
  method DuplicateIds(tasks: seq<Task>) returns (g: Graph, duplicates: set<Id>)
    ensures g == TasksById(tasks)
    ensures forall x :: x in duplicates <==> Repeats(tasks, x)
  {
    g, duplicates := map[], {};
    for k := 0 to |tasks|
      invariant g == TasksById(tasks[..k])
      invariant forall x :: x in duplicates <==> Repeats(tasks[..k], x)
    {
      var t := tasks[k];
      ByIdStep(tasks, k);
      forall x { RepeatsStep(tasks, k, x); }
      if t.id in g {
        duplicates := duplicates + {t.id};
      } else {
        g := g[t.id := t];
      }
    }
    assert tasks[..|tasks|] == tasks;
  }

  /** The dependency part of the semantic checks of one task. */
  method DependencyIssues(g: Graph, t: Task) returns (issues: seq<Issue>)
    ensures forall i :: i in issues <==>
              || (i == SelfDependency(t.id) && t.id in t.deps)
              || (i.MissingDependency? && i.id == t.id
                  && i.dependency in t.deps && i.dependency != t.id && i.dependency !in g)
  {
    issues := [];
    for k := 0 to |t.deps|
      invariant forall i :: i in issues <==>
                  || (i == SelfDependency(t.id) && t.id in t.deps[..k])
                  || (i.MissingDependency? && i.id == t.id
                      && i.dependency in t.deps[..k] && i.dependency != t.id && i.dependency !in g)
    {
      assert t.deps[..k + 1] == t.deps[..k] + [t.deps[k]];
      if t.deps[k] == t.id {
        issues := issues + [SelfDependency(t.id)];
      } else if t.deps[k] !in g {
        issues := issues + [MissingDependency(t.id, t.deps[k])];
      }
    }
    assert t.deps[..|t.deps|] == t.deps;
  }

  /** The path part of the semantic checks of one task; None stands for the index error. */
  method PathIssues(t: Task) returns (r: Option<seq<Issue>>)
    ensures r.None? <==> HasEmptyPath(t)
    ensures r.Some? ==> forall i :: i in r.value <==>
              i.RepositoryPathEscape? && i.id == t.id && i.path in t.paths && CheckPath(i.path) == Escapes
  {
    var issues: seq<Issue> := [];
    for k := 0 to |t.paths|
      invariant forall path | path in t.paths[..k] :: CheckPath(path) != IndexError
      invariant forall i :: i in issues <==>
                  i.RepositoryPathEscape? && i.id == t.id && i.path in t.paths[..k] && CheckPath(i.path) == Escapes
    {
      assert t.paths[..k + 1] == t.paths[..k] + [t.paths[k]];
      match CheckPath(t.paths[k]) {
        case IndexError =>
          return None;
        case Escapes =>
          issues := issues + [RepositoryPathEscape(t.id, t.paths[k])];
        case Inside =>
      }
    }
    assert t.paths[..|t.paths|] == t.paths;
    r := Some(issues);
  }

  method ScopeIssues(plan: Plan, t: Task) returns (issues: seq<Issue>)
    ensures forall i :: i in issues <==>
              || (i == ProjectScope(t.id) && t.projectId != plan.projectId)
              || (i == RepositoryScope(t.id) && t.repositoryId != plan.repositoryId)
              || (i == TaskRevision(t.id) && t.planRevision > plan.revision)
  {
    issues := [];
    if t.projectId != plan.projectId { issues := issues + [ProjectScope(t.id)]; }
    if t.repositoryId != plan.repositoryId { issues := issues + [RepositoryScope(t.id)]; }
    if t.planRevision > plan.revision { issues := issues + [TaskRevision(t.id)]; }
  }

  method PolicyIssues(t: Task) returns (issues: seq<Issue>)
    ensures forall i :: i in issues <==> i.Policy? && i.id == t.id && i.code in t.policyIssues
  {
    issues := seq(|t.policyIssues|, k requires 0 <= k < |t.policyIssues| => Policy(t.id, t.policyIssues[k]));
    forall code | code in t.policyIssues ensures Policy(t.id, code) in issues {
      var k :| 0 <= k < |t.policyIssues| && t.policyIssues[k] == code;
      assert issues[k] == Policy(t.id, code);
    }
  }

  /** The scope, policy, path and dependency checks of one task; None stands for the index error. */
  method TaskIssues(plan: Plan, g: Graph, t: Task) returns (r: Option<seq<Issue>>)
    ensures r.None? <==> HasEmptyPath(t)
    ensures r.Some? ==> forall i :: i in r.value <==> TaskIssue(plan, g, t, i)
  {
    var scope := ScopeIssues(plan, t);
    var policy := PolicyIssues(t);
    var paths := PathIssues(t);
    if paths == None {
      return None;
    }
    var dependencies := DependencyIssues(g, t);
    r := Some(scope + policy + paths.value + dependencies);
  }

  /** All tasks, in list order; the first index error ends the validation. */
  method AllTaskIssues(plan: Plan, g: Graph) returns (r: Option<seq<Issue>>)
    ensures r.None? <==> PathsRaise(plan.tasks)
    ensures r.Some? ==> forall i :: i in r.value <==> exists t :: t in plan.tasks && TaskIssue(plan, g, t, i)
  {
    var issues: seq<Issue> := [];
    for k := 0 to |plan.tasks|
      invariant !PathsRaise(plan.tasks[..k])
      invariant forall i :: i in issues <==> exists t :: t in plan.tasks[..k] && TaskIssue(plan, g, t, i)
    {
      assert plan.tasks[..k + 1] == plan.tasks[..k] + [plan.tasks[k]];
      var more := TaskIssues(plan, g, plan.tasks[k]);
      if more == None {
        return None;
      }
      issues := issues + more.value;
    }
    assert plan.tasks[..|plan.tasks|] == plan.tasks;
    r := Some(issues);
  }

  ghost function CycleOrSinkIssues(requireSink: bool, g: Graph): seq<Issue> {
    if !Acyclic(g) then [Cycle]
    else if requireSink && |CoveringSinks(g)| != 1 then [FinalValidationSink]
    else []
  }

  /** The cycle test and, without a cycle, the sink rule. */
  method CycleOrSink(requireSink: bool, g: Graph, order: seq<Id>) returns (r: Option<seq<Issue>>)
    requires Keyed(g) && IsGreedyOrder(g, order)
    ensures r.None? <==> WalkRaises(requireSink, g)
    ensures r.Some? ==> r.value == CycleOrSinkIssues(requireSink, g)
  {
    CompleteIffAcyclic(g, order);
    if |order| != |g| {
      return Some([Cycle]);
    }
    if !requireSink {
      return Some([]);
    }
    var sink := HasFinalValidationSink(g);
    if sink == None {
      return None;
    }
    r := Some(if sink.value then [] else [FinalValidationSink]);
  }

  /** The checks of the dependency graph: cycle or sink, then depth. */
  method GraphIssues(requireSink: bool, g: Graph, limit: nat) returns (v: Verdict)
    requires Keyed(g)
    ensures v != EmptyPath && (v.MissingTask? <==> WalkRaises(requireSink, g))
    ensures v.Report? ==> IsGreedyOrder(g, v.order)
    ensures v.Report? && Acyclic(g) ==> LongestChain(g, v.depth)
    ensures v.Report? ==>
              v.issues == CycleOrSinkIssues(requireSink, g) + (if TooDeep(g, limit) then [MaxPlanDepth] else [])
  {
    var order := TopologicalSort(g);
    var first := CycleOrSink(requireSink, g, order);
    if first == None {
      return MissingTask;
    }
    var depth := MaximumDepth(g, order);
    DepthTest(g, order, depth, limit);
    CompleteIffAcyclic(g, order);
    v := Report(first.value + (if depth > limit then [MaxPlanDepth] else []), order, depth);
  }

  lemma DepthTest(g: Graph, order: seq<Id>, depth: nat, limit: nat)
    requires IsGreedyOrder(g, order)
    requires forall x, p | x in order && ChainFrom(g, p, x) :: |p| <= depth
    requires if order == [] then depth == 0 else exists x :: x in order && LongestFrom(g, x, depth)
    ensures depth > limit <==> TooDeep(g, limit)
  {
    if depth > limit {
      var x :| x in order && LongestFrom(g, x, depth);
      var p :| ChainFrom(g, p, x) && |p| == depth;
    }
    if TooDeep(g, limit) {
      var o, x, p :| IsGreedyOrder(g, o) && x in o && ChainFrom(g, p, x) && |p| > limit;
      GreedyOrderUnique(g, o, order);
    }
  }

  /** Validation reports exactly the issues the plan has. It fails on an index error exactly when
      some task has a path without parts, and otherwise on a key error exactly when the sink rule is
      on, there is no cycle and a VALIDATION sink leads outside the plan. */
  method Validate(requireSink: bool, plan: Plan) returns (v: Verdict)
    ensures v.EmptyPath? <==> PathsRaise(plan.tasks)
    ensures v.MissingTask? <==> !PathsRaise(plan.tasks) && WalkRaises(requireSink, TasksById(plan.tasks))
    ensures v.Report? ==> IsGreedyOrder(TasksById(plan.tasks), v.order)
    ensures v.Report? && Acyclic(TasksById(plan.tasks)) ==> LongestChain(TasksById(plan.tasks), v.depth)
    ensures v.Report? ==> forall i :: i in v.issues <==> HasIssue(requireSink, plan, i)
  {
    var g, duplicates := DuplicateIds(plan.tasks);
    TasksByIdKeyed(plan.tasks);
    var repeated := ListDuplicates(duplicates);
    var own := AllTaskIssues(plan, g);
    if own == None {
      return EmptyPath;
    }
    var graph := GraphIssues(requireSink, g, plan.limits.maxPlanDepth);
    if graph == MissingTask {
      return MissingTask;
    }
    var totals := TotalIssues(plan);
    forall i ensures i in repeated + own.value + graph.issues + totals <==> HasIssue(requireSink, plan, i) {
      ReportIsComplete(requireSink, plan, repeated, own.value, graph.issues, totals, i);
    }
    v := graph.(issues := repeated + own.value + graph.issues + totals);
  }

  /** The four groups of issues make up the report. */
  lemma ReportIsComplete(
    requireSink: bool, plan: Plan, repeated: seq<Issue>, own: seq<Issue>, graph: seq<Issue>, totals: seq<Issue>,
    i: Issue)
    requires i in repeated <==> i.DuplicateTaskId? && Repeats(plan.tasks, i.id)
    requires i in own <==> exists t :: t in plan.tasks && TaskIssue(plan, TasksById(plan.tasks), t, i)
    requires graph == CycleOrSinkIssues(requireSink, TasksById(plan.tasks))
                      + (if TooDeep(TasksById(plan.tasks), plan.limits.maxPlanDepth) then [MaxPlanDepth] else [])
    requires i in totals <==>
               || (i == MaxDynamicTasks && DynamicTasks(plan.tasks) > plan.limits.maxDynamicTasks)
               || (i == MaxTotalBudget && TotalCost(plan.tasks) > plan.limits.maxTotalBudgetUsd)
               || (i == MaxTotalExecutionTime && TotalSeconds(plan.tasks) > plan.limits.maxTotalSeconds)
    ensures i in repeated + own + graph + totals <==> HasIssue(requireSink, plan, i)
  {
  }

  method ListDuplicates(duplicates: set<Id>) returns (issues: seq<Issue>)
    ensures forall i :: i in issues <==> i.DuplicateTaskId? && i.id in duplicates
  {
    issues := [];
    var todo := duplicates;
    while todo != {}
      invariant todo <= duplicates
      invariant forall i :: i in issues <==> i.DuplicateTaskId? && i.id in duplicates - todo
      decreases todo
    {
      var x :| x in todo;
      issues := issues + [DuplicateTaskId(x)];
      todo := todo - {x};
    }
  }

  method TotalIssues(plan: Plan) returns (issues: seq<Issue>)
    ensures forall i :: i in issues <==>
              || (i == MaxDynamicTasks && DynamicTasks(plan.tasks) > plan.limits.maxDynamicTasks)
              || (i == MaxTotalBudget && TotalCost(plan.tasks) > plan.limits.maxTotalBudgetUsd)
              || (i == MaxTotalExecutionTime && TotalSeconds(plan.tasks) > plan.limits.maxTotalSeconds)
  {
    issues := [];
    if DynamicTasks(plan.tasks) > plan.limits.maxDynamicTasks { issues := issues + [MaxDynamicTasks]; }
    if TotalCost(plan.tasks) > plan.limits.maxTotalBudgetUsd { issues := issues + [MaxTotalBudget]; }
    if TotalSeconds(plan.tasks) > plan.limits.maxTotalSeconds { issues := issues + [MaxTotalExecutionTime]; }
  }

  /** A plan that scheduling may rely on is one that is validated without raising and without an
      issue. */
  lemma ValidIffNoIssue(requireSink: bool, plan: Plan)
    ensures ValidPlan(requireSink, plan) <==>
              !Raises(requireSink, plan) && forall i :: !HasIssue(requireSink, plan, i)
  {
    if ValidPlan(requireSink, plan) {
      ValidHasNoIssue(requireSink, plan);
      SinkVerdict(TasksById(plan.tasks));
    }
    if !Raises(requireSink, plan) && forall i :: !HasIssue(requireSink, plan, i) {
      NoIssueIsValid(requireSink, plan);
    }
  }

  lemma ValidHasNoIssue(requireSink: bool, plan: Plan)
    requires UniqueIds(plan.tasks) && WithinTotals(plan)
    requires SoundGraph(requireSink, TasksById(plan.tasks), plan.limits.maxPlanDepth)
    requires forall t | t in plan.tasks :: InScope(plan, t) && t.policyIssues == []
    requires forall t, path | t in plan.tasks && path in t.paths :: CheckPath(path) != Escapes
    ensures forall i :: !HasIssue(requireSink, plan, i)
  {
    var g := TasksById(plan.tasks);
    TasksByIdUnique(plan.tasks);
    SinkVerdict(g);
    forall i ensures !PlanIssue(requireSink, plan, i) {
      assert !TooDeep(g, plan.limits.maxPlanDepth);
    }
    forall t, i | t in plan.tasks ensures !TaskIssue(plan, g, t, i) {
      assert t.id !in t.deps by {
        assert g[t.id] == t && !Reaches(g, t.id, t.id);
        if t.id in t.deps { EdgeReaches(g, t.id, t.id); }
      }
    }
  }

  lemma NoIssueMeansUnique(requireSink: bool, plan: Plan)
    requires forall i :: !HasIssue(requireSink, plan, i)
    ensures UniqueIds(plan.tasks)
  {
    forall i, j | 0 <= i < j < |plan.tasks| ensures plan.tasks[i].id != plan.tasks[j].id {
      assert !HasIssue(requireSink, plan, DuplicateTaskId(plan.tasks[i].id));
    }
  }

  lemma NoIssueMeansInScope(requireSink: bool, plan: Plan, t: Task)
    requires t in plan.tasks && forall i :: !HasIssue(requireSink, plan, i)
    requires !HasEmptyPath(t)
    ensures InScope(plan, t) && IsPermitted(t)
  {
    assert !HasIssue(requireSink, plan, ProjectScope(t.id));
    assert !HasIssue(requireSink, plan, RepositoryScope(t.id));
    assert !HasIssue(requireSink, plan, TaskRevision(t.id));
    assert |t.policyIssues| > 0 ==> !HasIssue(requireSink, plan, Policy(t.id, t.policyIssues[0]));
    forall path | path in t.paths ensures CheckPath(path) == Inside {
      assert !HasIssue(requireSink, plan, RepositoryPathEscape(t.id, path));
    }
  }

  lemma NoIssueMeansClosed(requireSink: bool, plan: Plan)
    requires forall i :: !HasIssue(requireSink, plan, i)
    ensures Closed(TasksById(plan.tasks))
  {
    var g := TasksById(plan.tasks);
    TasksByIdKeyed(plan.tasks);
    forall x, d | x in g && d in g[x].deps ensures d in g {
      assert !HasIssue(requireSink, plan, MissingDependency(x, d));
      assert g[x] in plan.tasks;
    }
  }

  lemma NoIssueMeansSound(requireSink: bool, plan: Plan)
    requires forall i :: !HasIssue(requireSink, plan, i)
    ensures SoundGraph(requireSink, TasksById(plan.tasks), plan.limits.maxPlanDepth)
  {
    var g := TasksById(plan.tasks);
    NoIssueMeansClosed(requireSink, plan);
    NoPlanIssue(requireSink, plan, Cycle);
    NoPlanIssue(requireSink, plan, FinalValidationSink);
    NoPlanIssue(requireSink, plan, MaxPlanDepth);
    SinkVerdict(g);
    ShallowChains(g, plan.limits.maxPlanDepth);
  }

  lemma NoIssueIsValid(requireSink: bool, plan: Plan)
    requires !PathsRaise(plan.tasks) && forall i :: !HasIssue(requireSink, plan, i)
    ensures ValidPlan(requireSink, plan)
  {
    NoIssueMeansUnique(requireSink, plan);
    NoIssueMeansSound(requireSink, plan);
    forall t | t in plan.tasks ensures InScope(plan, t) && IsPermitted(t) {
      NoIssueMeansInScope(requireSink, plan, t);
    }
    NoPlanIssue(requireSink, plan, MaxDynamicTasks);
    NoPlanIssue(requireSink, plan, MaxTotalBudget);
    NoPlanIssue(requireSink, plan, MaxTotalExecutionTime);
  }

  lemma NoPlanIssue(requireSink: bool, plan: Plan, i: Issue)
    requires forall i :: !HasIssue(requireSink, plan, i)
    ensures !PlanIssue(requireSink, plan, i)
  {
    assert !HasIssue(requireSink, plan, i);
  }

  lemma ShallowChains(g: Graph, limit: nat)
    requires Acyclic(g) && !TooDeep(g, limit)
    ensures forall p | IsChain(g, p) :: |p| <= limit
  {
    var o := GreedyOrderExists(g);
    CompleteIffAcyclic(g, o);
    forall p | IsChain(g, p) ensures |p| <= limit {
      ChainInside(g, p, 0);
      assert p[0] in Elems(o);
      assert ChainFrom(g, p, p[0]);
    }
  }

  // ----- Mutation

  datatype MutationVerdict = Accepted(plan: Plan) | Rejected(issues: seq<Issue>) | Raised

  /** The plan a mutation proposes: same identity and limits, tasks appended. */
  function Extended(current: Plan, m: Mutation): Plan {
    current.(revision := current.revision + 1, tasks := current.tasks + m.tasks)
  }

  ghost predicate ListsTask(tasks: seq<Task>, x: Id) {
    exists t :: t in tasks && t.id == x
  }

  /** The mutation targets the current revision and only adds new tasks of the next one. */
  ghost predicate Additive(current: Plan, m: Mutation) {
    && m.baseRevision == current.revision
    && UniqueIds(m.tasks)
    && forall t | t in m.tasks :: t.planRevision == current.revision + 1 && !ListsTask(current.tasks, t.id)
  }

  /** What the plan model itself demands: at most 500 tasks, distinct ids, matching scope. */
  ghost predicate Constructible(plan: Plan) {
    1 <= |plan.tasks| <= 500 && UniqueIds(plan.tasks) && forall t | t in plan.tasks :: InScope(plan, t)
  }

  ghost predicate AcceptsMutation(requireSink: bool, current: Plan, m: Mutation) {
    Additive(current, m) && Constructible(Extended(current, m)) && ValidPlan(requireSink, Extended(current, m))
  }

  ghost predicate OffRevision(current: Plan, tasks: seq<Task>, x: Id) {
    exists t :: t in tasks && t.id == x && t.planRevision != current.revision + 1
  }

  /** What the first stage holds against a mutation that adds these tasks to this base. */
  ghost predicate AdditionIssue(current: Plan, base: int, tasks: seq<Task>, issue: Issue) {
    match issue
    case StalePlanRevision => base != current.revision
    case ExistingTaskMutation(x) => ListsTask(tasks, x) && ListsTask(current.tasks, x)
    case DuplicateTaskId(x) => Repeats(tasks, x)
    case TaskRevision(x) => OffRevision(current, tasks, x)
    case _ => false
  }

  /** The issues that one more task brings. */
  function NewIssues(current: Plan, seen: set<Id>, t: Task): seq<Issue> {
    (if exists u :: u in current.tasks && u.id == t.id then [ExistingTaskMutation(t.id)] else [])
    + (if t.id in seen then [DuplicateTaskId(t.id)] else [])
    + (if t.planRevision != current.revision + 1 then [TaskRevision(t.id)] else [])
  }

  lemma IssuesGrow(current: Plan, base: int, tasks: seq<Task>, t: Task, i: Issue)
    ensures AdditionIssue(current, base, tasks + [t], i) <==>
              AdditionIssue(current, base, tasks, i) || i in NewIssues(current, set u | u in tasks :: u.id, t)
  {
    RepeatsGrow(tasks, t, t.id);
    match i
    case DuplicateTaskId(x) => RepeatsGrow(tasks, t, x);
    case ExistingTaskMutation(x) => assert ListsTask(tasks + [t], x) <==> ListsTask(tasks, x) || t.id == x by {
      assert t in tasks + [t];
    }
    case TaskRevision(x) => assert t in tasks + [t];
    case _ =>
  }

  /** The first stage of mutation checking: stale base, edited tasks, repeated ids, revisions. */
  method AdditionIssues(current: Plan, m: Mutation) returns (issues: seq<Issue>)
    ensures forall i :: i in issues <==> AdditionIssue(current, m.baseRevision, m.tasks, i)
  {
    issues := if m.baseRevision != current.revision then [StalePlanRevision] else [];
    var seen: set<Id> := {};
    for k := 0 to |m.tasks|
      invariant seen == set t | t in m.tasks[..k] :: t.id
      invariant forall i :: i in issues <==> AdditionIssue(current, m.baseRevision, m.tasks[..k], i)
    {
      var t := m.tasks[k];
      assert m.tasks[..k + 1] == m.tasks[..k] + [t];
      forall i { IssuesGrow(current, m.baseRevision, m.tasks[..k], t, i); }
      issues := issues + NewIssues(current, seen, t);
      seen := seen + {t.id};
    }
    assert m.tasks[..|m.tasks|] == m.tasks;
  }

  /** The first stage finds nothing exactly when the mutation only adds. */
  lemma AdditiveIffNoIssue(current: Plan, m: Mutation)
    ensures Additive(current, m) <==> forall i :: !AdditionIssue(current, m.baseRevision, m.tasks, i)
  {
    if forall i :: !AdditionIssue(current, m.baseRevision, m.tasks, i) {
      assert !AdditionIssue(current, m.baseRevision, m.tasks, StalePlanRevision);
      forall i, j | 0 <= i < j < |m.tasks| ensures m.tasks[i].id != m.tasks[j].id {
        assert !AdditionIssue(current, m.baseRevision, m.tasks, DuplicateTaskId(m.tasks[i].id));
      }
      forall t | t in m.tasks ensures t.planRevision == current.revision + 1 && !ListsTask(current.tasks, t.id) {
        assert !AdditionIssue(current, m.baseRevision, m.tasks, ExistingTaskMutation(t.id));
        assert !AdditionIssue(current, m.baseRevision, m.tasks, TaskRevision(t.id));
      }
    }
  }

  /** Whether the plan model can be constructed. */
  method CanConstruct(plan: Plan) returns (ok: bool)
    ensures ok <==> Constructible(plan)
  {
    var g, duplicates := DuplicateIds(plan.tasks);
    var scoped := forall t | t in plan.tasks :: InScope(plan, t);
    ok := 1 <= |plan.tasks| <= 500 && duplicates == {} && scoped;
    assert duplicates == {} <==> UniqueIds(plan.tasks) by {
      if duplicates == {} {
        forall i, j | 0 <= i < j < |plan.tasks| ensures plan.tasks[i].id != plan.tasks[j].id {
          assert plan.tasks[i].id !in duplicates;
        }
      }
    }
  }

  /** A plan on which the validator raises instead of reporting: a single VALIDATION task that waits
      for a task outside the plan. */
  lemma MissingDependencyRaises(t: Task, d: Id)
    requires t.kind == Validation && t.deps == [d] && d != t.id
    ensures Acyclic(TasksById([t])) && SinkLeaksOut(TasksById([t]))
  {
    var g := TasksById([t]);
    SingleTask(t);
    forall x ensures !Reaches(g, x, x) {
      if Reaches(g, x, x) {
        var y := ReachesUnfold(g, x, x);
        assert y == d;
        if d != x {
          var z := ReachesUnfold(g, d, x);
        }
      }
    }
    EdgeReaches(g, t.id, d);
    assert ReachesMissing(g, t.id) && LeaksOut(g, t.id);
  }

  /** A plan on which the validator raises although it has no issue at all: a single VALIDATION task
      of the whole repository. */
  lemma DotPathRaises(plan: Plan, t: Task)
    requires plan.tasks == [t] && t.kind == Validation && t.deps == [] && t.paths == ["."]
    requires InScope(plan, t) && t.policyIssues == [] && WithinTotals(plan) && plan.limits.maxPlanDepth >= 1
    ensures PathsRaise(plan.tasks) && forall i :: !HasIssue(true, plan, i)
  {
    RaisesIff(".");
    assert "." in t.paths && t in plan.tasks;
    SingleTaskIsSound(t, plan.limits.maxPlanDepth);
    ValidHasNoIssue(true, plan);
  }

  lemma SingleTask(t: Task)
    ensures TasksById([t]) == map[t.id := t]
  {
    var n := |[t]| - 1;
    assert [t][..n] == [];
    assert TasksById([t][..n]) == map[];
  }

  lemma SingleTaskIsSound(t: Task, limit: nat)
    requires t.kind == Validation && t.deps == [] && limit >= 1
    ensures SoundGraph(true, TasksById([t]), limit)
  {
    var g := TasksById([t]);
    SingleTask(t);
    forall x ensures !Reaches(g, x, x) {
      if Reaches(g, x, x) {
        var y := ReachesUnfold(g, x, x);
      }
    }
    forall p | IsChain(g, p) ensures |p| <= limit {
      assert |p| > 1 ==> Edge(g, p[0], p[1]);
    }
    assert OnlySinkValidates(g, t.id);
  }

  /** The validator as its callers use it: the report is empty exactly for a valid plan. */
  method CheckPlan(requireSink: bool, plan: Plan) returns (v: Verdict)
    ensures v.Report? <==> !Raises(requireSink, plan)
    ensures v.Report? ==> (v.issues == [] <==> ValidPlan(requireSink, plan))
    ensures v.Report? ==> forall i :: i in v.issues <==> HasIssue(requireSink, plan, i)
    ensures ValidPlan(requireSink, plan) ==> v.Report?
  {
    v := Validate(requireSink, plan);
    ValidIffNoIssue(requireSink, plan);
    if v.Report? {
      assert v.issues == [] <==> forall i :: i !in v.issues by {
        if v.issues != [] { assert v.issues[0] in v.issues; }
      }
    }
  }

  /** The mutation gets past the first stage but the plan cannot be built or validated. */
  ghost predicate MutationRaises(requireSink: bool, current: Plan, m: Mutation) {
    var proposed := Extended(current, m);
    Additive(current, m) && (Constructible(proposed) ==> Raises(requireSink, proposed))
  }

  /** What a rejected mutation is charged with: the first stage, or else the extended plan. */
  ghost predicate MutationIssue(requireSink: bool, current: Plan, m: Mutation, issue: Issue) {
    if Additive(current, m) then HasIssue(requireSink, Extended(current, m), issue)
    else AdditionIssue(current, m.baseRevision, m.tasks, issue)
  }

  /** A mutation is accepted exactly when it only adds tasks and the extended plan is valid. */
  method ValidateMutation(requireSink: bool, current: Plan, m: Mutation) returns (v: MutationVerdict)
    ensures v.Accepted? <==> AcceptsMutation(requireSink, current, m)
    ensures v.Accepted? ==> v.plan == Extended(current, m)
    ensures v.Rejected? ==> v.issues != [] && forall i :: i in v.issues <==> MutationIssue(requireSink, current, m, i)
    ensures v.Raised? <==> MutationRaises(requireSink, current, m)
  {
    var issues := AdditionIssues(current, m);
    AdditiveIffNoIssue(current, m);
    assert issues == [] <==> forall i :: i !in issues by {
      if issues != [] { assert issues[0] in issues; }
    }
    if issues != [] {
      return Rejected(issues);
    }
    var proposed := Extended(current, m);
    var constructed := CanConstruct(proposed);
    if !constructed {
      return Raised;
    }
    var validation := CheckPlan(requireSink, proposed);
    match validation
    case MissingTask => v := Raised;
    case EmptyPath => v := Raised;
    case Report(found, _, _) => v := if found == [] then Accepted(proposed) else Rejected(found);
  }
}
