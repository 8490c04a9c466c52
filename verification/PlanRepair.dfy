/** Plan repair: the decision on one failed verification, the durable record of repairs, and what
    every run of repairs keeps. A digest stands for the content it was computed from. */
module PlanRepair {
  import opened PlanGraph
  import opened FinalSink
  import opened PlanValidator
  import opened Options

  type Digest = nat

  datatype VerificationOutcome =
    | Passed(fingerprint: Digest, artifacts: seq<nat>)
    | Failed(signature: Digest, fingerprint: Digest, artifacts: seq<nat>)

  datatype Action = Complete | ApplyMutation | Terminate

  datatype Decision = Decision(action: Action, reasons: seq<string>, plan: Option<Plan>, mutationId: Option<nat>)

  /** The failure signature and progress fingerprint of one accepted repair. */
  datatype Attempt = Attempt(signature: Digest, fingerprint: Digest)

  // ----- The decision

  function CodeOf(issue: Issue): string {
    match issue
    case DuplicateTaskId(_) => "DUPLICATE_TASK_ID"
    case ProjectScope(_) => "PROJECT_SCOPE"
    case RepositoryScope(_) => "REPOSITORY_SCOPE"
    case TaskRevision(_) => "PLAN_REVISION"
    case Policy(_, code) => code
    case RepositoryPathEscape(_, _) => "REPOSITORY_PATH_ESCAPE"
    case SelfDependency(_) => "SELF_DEPENDENCY"
    case MissingDependency(_, _) => "MISSING_DEPENDENCY"
    case Cycle => "CYCLE"
    case FinalValidationSink => "FINAL_VALIDATION_SINK"
    case MaxPlanDepth => "MAX_PLAN_DEPTH"
    case MaxDynamicTasks => "MAX_DYNAMIC_TASKS"
    case MaxTotalBudget => "MAX_TOTAL_BUDGET"
    case MaxTotalExecutionTime => "MAX_TOTAL_EXECUTION_TIME"
    case StalePlanRevision => "STALE_PLAN_REVISION"
    case ExistingTaskMutation(_) => "EXISTING_TASK_MUTATION"
  }

  /** The issue codes in first-seen order, each once. */
  method DistinctCodes(issues: seq<Issue>) returns (codes: seq<string>)
    ensures NoDup(codes)
    ensures forall c :: c in codes <==> exists i :: i in issues && CodeOf(i) == c
  {
    codes := [];
    for k := 0 to |issues|
      invariant NoDup(codes)
      invariant forall c :: c in codes <==> exists i :: i in issues[..k] && CodeOf(i) == c
    {
      assert issues[..k + 1] == issues[..k] + [issues[k]];
      var c := CodeOf(issues[k]);
      if c !in codes {
        codes := codes + [c];
      }
    }
    assert issues[..|issues|] == issues;
  }

  /** The validator as the repair policy sees it. */
  datatype Validator = Validator(
    valid: Plan -> bool, accepts: (Plan, Mutation) -> bool, raises: (Plan, Mutation) -> bool)

  ghost function PlanRules(requireSink: bool): Validator {
    Validator(
      plan => ValidPlan(requireSink, plan),
      (current, m) => AcceptsMutation(requireSink, current, m),
      (current, m) => MutationRaises(requireSink, current, m))
  }

  function IdOf(m: Option<Mutation>): Option<nat> {
    if m.Some? then Some(m.value.mutationId) else None
  }

  /** What one decision may be; None stands for an exception of the validator. */
  ghost predicate Decides(
    rules: Validator, current: Plan, outcome: VerificationOutcome, m: Option<Mutation>,
    history: seq<Attempt>, r: Option<Decision>)
  {
    if outcome.Passed? then
      r == Some(Decision(Complete, [], Some(current), None))
    else if exists a :: a in history && a.signature == outcome.signature then
      r == Some(Decision(Terminate, ["REPEATED_FAILURE_SIGNATURE"], None, IdOf(m)))
    else if exists a :: a in history && a.fingerprint == outcome.fingerprint then
      r == Some(Decision(Terminate, ["NO_PROGRESS"], None, IdOf(m)))
    else if m == None then
      r == Some(Decision(Terminate, ["MISSING_REPAIR_MUTATION"], None, None))
    else if rules.accepts(current, m.value) then
      r == Some(Decision(ApplyMutation, [], Some(Extended(current, m.value)), IdOf(m)))
    else if rules.raises(current, m.value) then
      r == None
    else
      r.Some? && r.value == Decision(Terminate, r.value.reasons, None, IdOf(m)) && r.value.reasons != []
  }

  /** No earlier check settles the decision. */
  ghost predicate AsksValidator(outcome: VerificationOutcome, m: Option<Mutation>, history: seq<Attempt>) {
    !outcome.Passed? && m.Some?
    && forall a | a in history :: a.signature != outcome.signature && a.fingerprint != outcome.fingerprint
  }

  /** The codes of exactly the issues the mutation has, each once. */
  ghost predicate NamesIssues(requireSink: bool, current: Plan, m: Mutation, reasons: seq<string>) {
    NoDup(reasons)
    && forall c :: c in reasons <==> exists i :: MutationIssue(requireSink, current, m, i) && CodeOf(i) == c
  }

  /** RepairPolicy.decide */
  method Decide(
    requireSink: bool, current: Plan, outcome: VerificationOutcome, m: Option<Mutation>, history: seq<Attempt>)
    returns (r: Option<Decision>)
    ensures Decides(PlanRules(requireSink), current, outcome, m, history, r)
    ensures AsksValidator(outcome, m, history) && r.Some? && r.value.action == Terminate ==>
              NamesIssues(requireSink, current, m.value, r.value.reasons)
  {
    if outcome.Passed? {
      return Some(Decision(Complete, [], Some(current), None));
    }
    if exists a :: a in history && a.signature == outcome.signature {
      return Some(Decision(Terminate, ["REPEATED_FAILURE_SIGNATURE"], None, IdOf(m)));
    }
    if exists a :: a in history && a.fingerprint == outcome.fingerprint {
      return Some(Decision(Terminate, ["NO_PROGRESS"], None, IdOf(m)));
    }
    if m == None {
      return Some(Decision(Terminate, ["MISSING_REPAIR_MUTATION"], None, None));
    }
    var verdict := ValidateMutation(requireSink, current, m.value);
    match verdict
    case Accepted(plan) => r := Some(Decision(ApplyMutation, [], Some(plan), IdOf(m)));
    case Raised => r := None;
    case Rejected(issues) =>
      var codes := DistinctCodes(issues);
      assert CodeOf(issues[0]) in codes;
      r := Some(Decision(Terminate, codes, None, IdOf(m)));
  }

  // ----- The durable record

  /** One row of the repair table. */
  datatype Repair = Repair(
    runId: nat, mutation: Mutation, outcome: VerificationOutcome,
    action: Action, acceptedRevision: Option<nat>, reasons: seq<string>)

  /** The tables that repairs of one run touch: the plan revisions of the run, the repairs of all
      runs by mutation id, and the ids of all stored tasks. */
  datatype Store = Store(revisions: map<nat, Plan>, repairs: map<nat, Repair>, taskIds: set<Id>)

  datatype Request = Request(outcome: VerificationOutcome, mutation: Mutation, evidenceErrors: seq<string>)

  /** The reply of one call; CallRaised stands for any exception, which undoes the transaction. */
  datatype Reply = Decided(decision: Decision, replayed: bool) | CallRaised

  ghost predicate IsLatest(s: Store, n: nat) {
    n in s.revisions && forall k | k in s.revisions :: k <= n
  }

  ghost predicate AcceptedIn(s: Store, run: nat, id: nat) {
    id in s.repairs && s.repairs[id].runId == run && s.repairs[id].action == ApplyMutation
  }

  ghost function AcceptedRepairs(s: Store, run: nat): set<nat> {
    set id | id in s.repairs && AcceptedIn(s, run, id)
  }

  function AttemptOf(row: Repair): Attempt
    requires row.outcome.Failed?
  {
    Attempt(row.outcome.signature, row.outcome.fingerprint)
  }

  /** The history lists exactly the accepted repairs of the run. */
  ghost predicate IsHistory(s: Store, run: nat, history: seq<Attempt>) {
    && (forall id | AcceptedIn(s, run, id) && s.repairs[id].outcome.Failed? :: AttemptOf(s.repairs[id]) in history)
    && (forall a | a in history ::
          exists id :: AcceptedIn(s, run, id) && s.repairs[id].outcome.Failed? && a == AttemptOf(s.repairs[id]))
  }

  /** The reply to a request whose mutation id is already recorded. */
  function ReplayReply(s: Store, run: nat, q: Request): Reply
    requires q.mutation.mutationId in s.repairs
  {
    var row := s.repairs[q.mutation.mutationId];
    if row.runId != run || row.mutation != q.mutation || row.outcome != q.outcome then CallRaised
    else if row.acceptedRevision == None then
      Decided(Decision(row.action, row.reasons, None, Some(q.mutation.mutationId)), true)
    else if row.acceptedRevision.value !in s.revisions then CallRaised
    else
      var plan := s.revisions[row.acceptedRevision.value];
      Decided(Decision(row.action, row.reasons, Some(plan), Some(q.mutation.mutationId)), true)
  }

  function RowFor(run: nat, q: Request, d: Decision): Repair {
    var accepted := if d.action == ApplyMutation && d.plan.Some? then Some(d.plan.value.revision) else None;
    Repair(run, q.mutation, q.outcome, d.action, accepted, d.reasons)
  }

  /** The store after a decision is recorded. */
  function Recorded(s: Store, run: nat, q: Request, d: Decision): Store {
    var row := RowFor(run, q, d);
    var repairs := s.repairs[q.mutation.mutationId := row];
    if row.acceptedRevision == None then s.(repairs := repairs)
    else Store(
      s.revisions[row.acceptedRevision.value := d.plan.value],
      repairs,
      s.taskIds + (set t | t in q.mutation.tasks :: t.id))
  }

  /** Inserting the new tasks would hit the primary key. */
  predicate TaskIdTaken(s: Store, m: Mutation) {
    exists t :: t in m.tasks && t.id in s.taskIds
  }

  /** The decision on a request whose mutation id is new, against the current plan. */
  ghost predicate FreshDecision(
    rules: Validator, s: Store, run: nat, current: Plan, q: Request, d: Option<Decision>)
  {
    if q.evidenceErrors != [] then
      d == Some(Decision(Terminate, q.evidenceErrors, None, Some(q.mutation.mutationId)))
    else
      exists history ::
        IsHistory(s, run, history) && Decides(rules, current, q.outcome, Some(q.mutation), history, d)
  }

  /** The transaction outcome once the decision is known. */
  function Commit(s: Store, run: nat, q: Request, d: Option<Decision>): (Store, Reply) {
    if d == None || (d.value.action == ApplyMutation && TaskIdTaken(s, q.mutation)) then (s, CallRaised)
    else (Recorded(s, run, q, d.value), Decided(d.value, false))
  }

  /** One call of DurableRepairController.apply for the run. */
  ghost predicate ApplyStep(rules: Validator, s: Store, run: nat, q: Request, s': Store, r: Reply) {
    if q.outcome.Passed? then
      s' == s && r == CallRaised
    else if q.mutation.mutationId in s.repairs then
      s' == s && r == ReplayReply(s, run, q)
    else if s.revisions == map[] then
      s' == s && r == CallRaised
    else
      exists n, d ::
        IsLatest(s, n) && FreshDecision(rules, s, run, s.revisions[n], q, d) && (s', r) == Commit(s, run, q, d)
  }

  // ----- What every run of repairs keeps

  /** The revisions are numbered 1 to n without a gap. */
  ghost predicate Contiguous(revisions: map<nat, Plan>, n: nat) {
    n >= 1 && forall k :: k in revisions <==> 1 <= k <= n
  }

  /** b carries all tasks of a, in place, and at least one more, under the same limits. */
  ghost predicate Extends(a: Plan, b: Plan) {
    a.tasks < b.tasks && a.limits == b.limits && a.runId == b.runId
  }

  /** Every revision carries its own number and extends all earlier ones. */
  ghost predicate Growing(revisions: map<nat, Plan>) {
    && (forall k | k in revisions :: revisions[k].revision == k)
    && (forall j, k | j in revisions && k in revisions && j < k :: Extends(revisions[j], revisions[k]))
  }

  ghost predicate AllValid(rules: Validator, revisions: map<nat, Plan>) {
    forall k | k in revisions :: rules.valid(revisions[k])
  }

  /** Revision k has gained at least k - 1 tasks since planning. */
  ghost predicate CountsGrowth(revisions: map<nat, Plan>) {
    forall k | k in revisions :: DynamicTasks(revisions[k].tasks) >= k - 1
  }

  /** An accepted repair names the revision it produced. */
  ghost predicate SoundRepair(revisions: map<nat, Plan>, row: Repair) {
    && row.outcome.Failed? && row.reasons == []
    && row.acceptedRevision.Some?
    && row.acceptedRevision.value in revisions
    && row.mutation.baseRevision + 1 == row.acceptedRevision.value
    && row.mutation.baseRevision in revisions
    && revisions[row.acceptedRevision.value] == Extended(revisions[row.mutation.baseRevision], row.mutation)
  }

  /** Two accepted repairs share neither signature, nor fingerprint, nor revision. */
  ghost predicate Distinct(a: Repair, b: Repair) {
    && a.outcome.Failed? && b.outcome.Failed?
    && a.outcome.signature != b.outcome.signature
    && a.outcome.fingerprint != b.outcome.fingerprint
    && a.acceptedRevision != b.acceptedRevision
  }

  ghost predicate SoundRepairs(s: Store, run: nat) {
    && (forall id | AcceptedIn(s, run, id) :: SoundRepair(s.revisions, s.repairs[id]))
    && (forall a, b | AcceptedIn(s, run, a) && AcceptedIn(s, run, b) && a != b :: Distinct(s.repairs[a], s.repairs[b]))
  }

  /** What holds of a run with n revisions. */
  ghost predicate RunInv(rules: Validator, s: Store, run: nat, n: nat) {
    && Contiguous(s.revisions, n)
    && Growing(s.revisions)
    && AllValid(rules, s.revisions)
    && CountsGrowth(s.revisions)
    && SoundRepairs(s, run)
    && |AcceptedRepairs(s, run)| == n - 1
  }

  /** A run that has just been planned. */
  ghost predicate JustPlanned(rules: Validator, s: Store, run: nat) {
    && s.revisions.Keys == {1}
    && s.revisions[1].revision == 1 && rules.valid(s.revisions[1])
    && AcceptedRepairs(s, run) == {}
  }

  /** Planning and repair of other runs: more task ids, more repair rows, none of them ours. */
  ghost predicate OtherRunsStep(s: Store, run: nat, s': Store) {
    && s'.revisions == s.revisions
    && s.taskIds <= s'.taskIds
    && (forall id | id in s.repairs :: id in s'.repairs && s'.repairs[id] == s.repairs[id])
    && (forall id | id in s'.repairs && id !in s.repairs :: s'.repairs[id].runId != run)
  }

  ghost predicate RepairCall(rules: Validator, s: Store, run: nat, q: Request, s': Store, r: Reply) {
    |q.mutation.tasks| >= 1 && ApplyStep(rules, s, run, q, s', r)
  }

  ghost predicate Next(rules: Validator, s: Store, run: nat, s': Store) {
    (exists q, r :: RepairCall(rules, s, run, q, s', r)) || OtherRunsStep(s, run, s')
  }

  ghost predicate IsRun(rules: Validator, run: nat, trace: seq<Store>) {
    |trace| > 0 && forall i, j | 0 <= i < j < |trace| && j == i + 1 :: Next(rules, trace[i], run, trace[j])
  }

  lemma {:induction false} DynamicTasksAppend(a: seq<Task>, b: seq<Task>)
    ensures DynamicTasks(a + b) == DynamicTasks(a) + DynamicTasks(b)
  {
    if b == [] {
      assert a + b == a;
    } else {
      var n := |b| - 1;
      assert (a + b)[..|a| + n] == a + b[..n];
      DynamicTasksAppend(a, b[..n]);
    }
  }

  lemma {:induction false} AllDynamic(tasks: seq<Task>)
    requires forall t | t in tasks :: t.planRevision > 1
    ensures DynamicTasks(tasks) == |tasks|
  {
    if tasks != [] {
      var n := |tasks| - 1;
      AllDynamic(tasks[..n]);
      assert tasks[n] in tasks;
    }
  }

  /** What acceptance of a mutation says about the plan it leads to. */
  ghost predicate AcceptanceExtends(rules: Validator, current: Plan, m: Mutation) {
    rules.accepts(current, m) && |m.tasks| >= 1 && current.revision >= 1 ==>
      && rules.valid(Extended(current, m))
      && Extends(current, Extended(current, m))
      && DynamicTasks(Extended(current, m).tasks) > DynamicTasks(current.tasks)
      && m.baseRevision == current.revision
  }

  ghost predicate Lawful(rules: Validator) {
    forall current, m :: AcceptanceExtends(rules, current, m)
  }

  lemma PlanRulesAreLawful(requireSink: bool)
    ensures Lawful(PlanRules(requireSink))
  {
    forall current, m ensures AcceptanceExtends(PlanRules(requireSink), current, m) {
      if AcceptsMutation(requireSink, current, m) && |m.tasks| >= 1 && current.revision >= 1 {
        AcceptedExtends(requireSink, current, m);
      }
    }
  }

  /** An accepted mutation adds one more valid revision. */
  lemma AcceptedExtends(requireSink: bool, current: Plan, m: Mutation)
    requires AcceptsMutation(requireSink, current, m) && |m.tasks| >= 1 && current.revision >= 1
    ensures ValidPlan(requireSink, Extended(current, m)) && Extends(current, Extended(current, m))
    ensures DynamicTasks(Extended(current, m).tasks) > DynamicTasks(current.tasks)
    ensures m.baseRevision == current.revision
  {
    DynamicTasksAppend(current.tasks, m.tasks);
    AllDynamic(m.tasks);
    assert current.tasks < current.tasks + m.tasks;
  }

  /** The revision list after one more accepted plan. */
  lemma GrowRevisions(before: map<nat, Plan>, n: nat, next: Plan)
    requires Contiguous(before, n) && Growing(before)
    requires next.revision == n + 1 && Extends(before[n], next)
    ensures Contiguous(before[n + 1 := next], n + 1) && Growing(before[n + 1 := next])
  {
    var after := before[n + 1 := next];
    forall j, k | j in after && k in after && j < k ensures Extends(after[j], after[k]) {
      if k == n + 1 && j < n {
        assert Extends(before[j], before[n]);
      }
    }
  }

  /** The new row after an accepted repair, against the rows before. */
  lemma NewRepairIsSound(s: Store, n: nat, row: Repair, next: Plan)
    requires Contiguous(s.revisions, n) && Growing(s.revisions)
    requires row.outcome.Failed? && row.reasons == [] && row.acceptedRevision == Some(n + 1)
    requires row.mutation.baseRevision == n && next == Extended(s.revisions[n], row.mutation)
    ensures SoundRepair(s.revisions[n + 1 := next], row)
  {
  }

  /** Rows stay sound when one more revision appears. */
  lemma OldRepairStaysSound(before: map<nat, Plan>, n: nat, next: Plan, row: Repair)
    requires Contiguous(before, n) && SoundRepair(before, row)
    ensures SoundRepair(before[n + 1 := next], row) && row.acceptedRevision.value <= n
  {
  }

  /** An accepted request repeats no signature and no fingerprint of the history. */
  lemma AcceptedIsNew(rules: Validator, s: Store, run: nat, current: Plan, q: Request, d: Option<Decision>, row: Repair)
    requires q.outcome.Failed? && FreshDecision(rules, s, run, current, q, d)
    requires d.Some? && d.value.action == ApplyMutation
    requires exists id :: AcceptedIn(s, run, id) && s.repairs[id] == row
    requires row.outcome.Failed?
    ensures row.outcome.signature != q.outcome.signature && row.outcome.fingerprint != q.outcome.fingerprint
  {
    var history :| IsHistory(s, run, history) && Decides(rules, current, q.outcome, Some(q.mutation), history, d);
    assert AttemptOf(row) in history;
  }

  /** What an accepting decision says. */
  lemma AcceptingDecision(rules: Validator, s: Store, run: nat, current: Plan, q: Request, d: Option<Decision>)
    requires q.outcome.Failed? && FreshDecision(rules, s, run, current, q, d)
    requires d.Some? && d.value.action == ApplyMutation
    ensures rules.accepts(current, q.mutation)
    ensures d.value.plan == Some(Extended(current, q.mutation)) && d.value.reasons == []
    ensures RowFor(run, q, d.value).acceptedRevision == Some(current.revision + 1)
  {
    var history :| IsHistory(s, run, history) && Decides(rules, current, q.outcome, Some(q.mutation), history, d);
  }

  /** Recording an accepted repair accepts it and nothing else. */
  lemma AcceptedGrows(s: Store, run: nat, q: Request, d: Decision)
    requires q.mutation.mutationId !in s.repairs && d.action == ApplyMutation && d.plan.Some?
    ensures AcceptedRepairs(Recorded(s, run, q, d), run) == AcceptedRepairs(s, run) + {q.mutation.mutationId}
  {
    var s' := Recorded(s, run, q, d);
    forall a ensures AcceptedIn(s', run, a) <==> AcceptedIn(s, run, a) || a == q.mutation.mutationId {}
  }

  /** The rows after an accepted repair. */
  lemma GrowRepairs(rules: Validator, s: Store, run: nat, n: nat, q: Request, d: Option<Decision>)
    requires Contiguous(s.revisions, n) && Growing(s.revisions) && SoundRepairs(s, run)
    requires q.outcome.Failed? && q.mutation.mutationId !in s.repairs && q.mutation.baseRevision == n
    requires FreshDecision(rules, s, run, s.revisions[n], q, d)
    requires d.Some? && d.value.action == ApplyMutation
    ensures SoundRepairs(Recorded(s, run, q, d.value), run)
    ensures AcceptedRepairs(Recorded(s, run, q, d.value), run)
         == AcceptedRepairs(s, run) + {q.mutation.mutationId}
  {
    AcceptingDecision(rules, s, run, s.revisions[n], q, d);
    var s' := Recorded(s, run, q, d.value);
    var id, row, next := q.mutation.mutationId, RowFor(run, q, d.value), d.value.plan.value;
    NewRepairIsSound(s, n, row, next);
    AcceptedGrows(s, run, q, d.value);
    forall a | AcceptedIn(s', run, a) && a != id
      ensures AcceptedIn(s, run, a) && SoundRepair(s'.revisions, s'.repairs[a]) && Distinct(s'.repairs[a], row)
    {
      assert a in AcceptedRepairs(s, run);
      OldRepairStaysSound(s.revisions, n, next, s.repairs[a]);
      AcceptedIsNew(rules, s, run, s.revisions[n], q, d, s.repairs[a]);
    }
  }

  /** A step that accepts nothing for this run leaves the run as it was. */
  lemma RunUntouched(rules: Validator, s: Store, s': Store, run: nat, n: nat)
    requires RunInv(rules, s, run, n) && s'.revisions == s.revisions
    requires forall id :: AcceptedIn(s, run, id) <==> AcceptedIn(s', run, id)
    requires forall id | AcceptedIn(s, run, id) :: id in s'.repairs && s'.repairs[id] == s.repairs[id]
    ensures RunInv(rules, s', run, n)
  {
    assert AcceptedRepairs(s', run) == AcceptedRepairs(s, run);
  }

  lemma GrowValid(rules: Validator, before: map<nat, Plan>, n: nat, next: Plan)
    requires Contiguous(before, n) && AllValid(rules, before) && CountsGrowth(before)
    requires rules.valid(next) && DynamicTasks(next.tasks) > DynamicTasks(before[n].tasks)
    ensures AllValid(rules, before[n + 1 := next]) && CountsGrowth(before[n + 1 := next])
  {
    assert DynamicTasks(before[n].tasks) >= n - 1;
  }

  /** An accepted repair adds exactly one revision and keeps the invariant. */
  lemma AcceptKeepsRun(rules: Validator, s: Store, run: nat, n: nat, q: Request, d: Option<Decision>)
    requires Lawful(rules) && RunInv(rules, s, run, n) && |q.mutation.tasks| >= 1
    requires q.outcome.Failed? && q.mutation.mutationId !in s.repairs
    requires FreshDecision(rules, s, run, s.revisions[n], q, d)
    requires d.Some? && d.value.action == ApplyMutation
    ensures RunInv(rules, Recorded(s, run, q, d.value), run, n + 1)
  {
    var current := s.revisions[n];
    AcceptingDecision(rules, s, run, current, q, d);
    var next := d.value.plan.value;
    assert rules.valid(next) && Extends(current, next) && q.mutation.baseRevision == n
           && DynamicTasks(next.tasks) > DynamicTasks(current.tasks) by {
      assert AcceptanceExtends(rules, current, q.mutation);
    }
    GrowRevisions(s.revisions, n, next);
    GrowValid(rules, s.revisions, n, next);
    GrowRepairs(rules, s, run, n, q, d);
    RecordedAccepts(s, run, n, q, d.value);
    Assemble(rules, s, Recorded(s, run, q, d.value), run, n, next, q.mutation.mutationId);
  }

  lemma RecordedAccepts(s: Store, run: nat, n: nat, q: Request, d: Decision)
    requires d.action == ApplyMutation && d.plan.Some? && d.plan.value.revision == n + 1
    ensures Recorded(s, run, q, d).revisions == s.revisions[n + 1 := d.plan.value]
  {
  }

  lemma Assemble(rules: Validator, s: Store, s': Store, run: nat, n: nat, next: Plan, id: nat)
    requires |AcceptedRepairs(s, run)| == n - 1 && id !in AcceptedRepairs(s, run)
    requires s'.revisions == s.revisions[n + 1 := next]
    requires Contiguous(s'.revisions, n + 1) && Growing(s'.revisions)
    requires AllValid(rules, s'.revisions) && CountsGrowth(s'.revisions)
    requires SoundRepairs(s', run) && AcceptedRepairs(s', run) == AcceptedRepairs(s, run) + {id}
    ensures RunInv(rules, s', run, n + 1)
  {
  }

  /** A recorded termination leaves the run as it was. */
  lemma TerminateKeepsRun(rules: Validator, s: Store, run: nat, n: nat, q: Request, d: Decision)
    requires RunInv(rules, s, run, n) && q.mutation.mutationId !in s.repairs && d.action != ApplyMutation
    ensures RunInv(rules, Recorded(s, run, q, d), run, n)
  {
    var s' := Recorded(s, run, q, d);
    assert RowFor(run, q, d).acceptedRevision == None;
    assert s'.revisions == s.revisions;
    RunUntouched(rules, s, s', run, n);
  }

  /** Recording never overwrites: the new row has a new id and the new revision a new number. */
  lemma RecordedPreserves(s: Store, run: nat, n: nat, q: Request, d: Decision)
    requires Contiguous(s.revisions, n) && q.mutation.mutationId !in s.repairs
    requires d.action == ApplyMutation && d.plan.Some? ==> d.plan.value.revision == n + 1
    ensures Preserves(s, Recorded(s, run, q, d))
  {
  }

  lemma LatestIs(s: Store, n: nat, k: nat)
    requires Contiguous(s.revisions, n) && IsLatest(s, k)
    ensures k == n
  {
    assert n in s.revisions;
  }

  lemma CommitKeepsRun(rules: Validator, s: Store, run: nat, n: nat, q: Request, d: Option<Decision>)
    requires Lawful(rules) && RunInv(rules, s, run, n) && |q.mutation.tasks| >= 1
    requires q.outcome.Failed? && q.mutation.mutationId !in s.repairs
    requires FreshDecision(rules, s, run, s.revisions[n], q, d)
    ensures var s' := Commit(s, run, q, d).0;
            && (RunInv(rules, s', run, n) || RunInv(rules, s', run, n + 1))
            && Preserves(s, s')
  {
    if d.Some? && Commit(s, run, q, d).0 == Recorded(s, run, q, d.value) {
      if d.value.action == ApplyMutation {
        AcceptingDecision(rules, s, run, s.revisions[n], q, d);
        AcceptKeepsRun(rules, s, run, n, q, d);
      } else {
        TerminateKeepsRun(rules, s, run, n, q, d.value);
      }
      RecordedPreserves(s, run, n, q, d.value);
    }
  }

  /** One repair call keeps the run, or adds exactly one revision to it. */
  lemma CallKeepsRun(rules: Validator, s: Store, run: nat, n: nat, q: Request, s': Store, r: Reply)
    requires Lawful(rules) && RunInv(rules, s, run, n) && RepairCall(rules, s, run, q, s', r)
    ensures RunInv(rules, s', run, n) || RunInv(rules, s', run, n + 1)
    ensures Preserves(s, s')
  {
    if q.outcome.Failed? && q.mutation.mutationId !in s.repairs {
      assert n in s.revisions;
      var k, d :| IsLatest(s, k) && FreshDecision(rules, s, run, s.revisions[k], q, d)
                  && (s', r) == Commit(s, run, q, d);
      LatestIs(s, n, k);
      CommitKeepsRun(rules, s, run, n, q, d);
    }
  }

  /** Recorded revisions and repairs are never changed or removed. */
  ghost predicate Preserves(s: Store, s': Store) {
    && (forall k | k in s.revisions :: k in s'.revisions && s'.revisions[k] == s.revisions[k])
    && (forall id | id in s.repairs :: id in s'.repairs && s'.repairs[id] == s.repairs[id])
  }

  lemma NextKeepsRun(rules: Validator, s: Store, run: nat, n: nat, s': Store) returns (n': nat)
    requires Lawful(rules) && RunInv(rules, s, run, n) && Next(rules, s, run, s')
    ensures RunInv(rules, s', run, n') && n <= n' <= n + 1 && Preserves(s, s')
  {
    if q, r :| RepairCall(rules, s, run, q, s', r) {
      CallKeepsRun(rules, s, run, n, q, s', r);
      n' := if RunInv(rules, s', run, n) then n else n + 1;
    } else {
      n' := n;
      forall id ensures AcceptedIn(s, run, id) <==> AcceptedIn(s', run, id) {}
      RunUntouched(rules, s, s', run, n);
    }
  }

  lemma JustPlannedIsSound(rules: Validator, s: Store, run: nat)
    requires JustPlanned(rules, s, run)
    ensures RunInv(rules, s, run, 1)
  {
    forall id ensures !AcceptedIn(s, run, id) { assert id !in AcceptedRepairs(s, run); }
  }

  /** From a freshly planned run on, every reachable store has gap-free revisions that extend one
      another, and accepted repairs that pairwise differ. */
  lemma {:induction false} RunKeepsInv(rules: Validator, run: nat, trace: seq<Store>, i: nat) returns (n: nat)
    requires Lawful(rules) && IsRun(rules, run, trace) && JustPlanned(rules, trace[0], run) && i < |trace|
    ensures RunInv(rules, trace[i], run, n)
  {
    if i == 0 {
      JustPlannedIsSound(rules, trace[0], run);
      n := 1;
    } else {
      var h := i - 1;
      var m := RunKeepsInv(rules, run, trace, h);
      assert Next(rules, trace[h], run, trace[i]);
      n := NextKeepsRun(rules, trace[h], run, m, trace[i]);
    }
  }

  lemma {:induction false} RunPreserves(rules: Validator, run: nat, trace: seq<Store>, i: nat, j: nat)
    requires Lawful(rules) && IsRun(rules, run, trace) && JustPlanned(rules, trace[0], run) && i <= j < |trace|
    ensures Preserves(trace[i], trace[j])
    decreases j
  {
    if i < j {
      var h := j - 1;
      RunPreserves(rules, run, trace, i, h);
      var m := RunKeepsInv(rules, run, trace, h);
      assert Next(rules, trace[h], run, trace[j]);
      var n := NextKeepsRun(rules, trace[h], run, m, trace[j]);
    }
  }

  /** The growth limit bounds how many repairs a run can ever have. */
  lemma AcceptedBounded(requireSink: bool, s: Store, run: nat, n: nat)
    requires RunInv(PlanRules(requireSink), s, run, n)
    ensures |AcceptedRepairs(s, run)| <= s.revisions[1].limits.maxDynamicTasks
  {
    var last := s.revisions[n];
    assert PlanRules(requireSink).valid(last);
    assert n > 1 ==> Extends(s.revisions[1], last);
  }

  /** The main result on repair runs, for every run, every interleaving and every point in time. */
  lemma RepairRuns(requireSink: bool, run: nat, trace: seq<Store>, i: nat) returns (n: nat)
    requires IsRun(PlanRules(requireSink), run, trace) && JustPlanned(PlanRules(requireSink), trace[0], run)
    requires i < |trace|
    ensures RunInv(PlanRules(requireSink), trace[i], run, n)
    ensures |AcceptedRepairs(trace[i], run)| == n - 1 <= trace[0].revisions[1].limits.maxDynamicTasks
    ensures forall j | i <= j < |trace| :: Preserves(trace[i], trace[j])
  {
    var rules := PlanRules(requireSink);
    PlanRulesAreLawful(requireSink);
    n := RunKeepsInv(rules, run, trace, i);
    AcceptedBounded(requireSink, trace[i], run, n);
    RunPreserves(rules, run, trace, 0, i);
    forall j | i <= j < |trace| ensures Preserves(trace[i], trace[j]) {
      RunPreserves(rules, run, trace, i, j);
    }
  }

  /** What a first-time reply leaves behind. */
  lemma DecidedIsRecorded(
    rules: Validator, s: Store, run: nat, q: Request, s': Store, d: Decision)
    requires RepairCall(rules, s, run, q, s', Decided(d, false))
    ensures q.mutation.mutationId in s'.repairs && s'.repairs[q.mutation.mutationId] == RowFor(run, q, d)
    ensures d.mutationId == Some(q.mutation.mutationId)
    ensures d.plan.Some? <==> d.action == ApplyMutation
    ensures d.plan.Some? ==>
              d.plan.value.revision in s'.revisions && s'.revisions[d.plan.value.revision] == d.plan.value
  {
    var k, d' :| IsLatest(s, k) && FreshDecision(rules, s, run, s.revisions[k], q, d')
                 && (s', Decided(d, false)) == Commit(s, run, q, d');
    if q.evidenceErrors == [] {
      var history :| IsHistory(s, run, history)
                     && Decides(rules, s.revisions[k], q.outcome, Some(q.mutation), history, d');
    }
  }

  /** A decision that is on record is returned as it is. */
  lemma ReplayFindsDecision(
    rules: Validator, s: Store, run: nat, q: Request, s': Store, d: Decision,
    t: Store, q': Request, t': Store, r: Reply)
    requires RepairCall(rules, s, run, q, s', Decided(d, false)) && Preserves(s', t)
    requires q'.outcome == q.outcome && q'.mutation == q.mutation && RepairCall(rules, t, run, q', t', r)
    ensures t' == t && r == Decided(d, true)
  {
    DecidedIsRecorded(rules, s, run, q, s', d);
  }

  /** Replaying a mutation that was decided at step i, at any later point j of the run and whatever
      the evidence, changes nothing and returns the same decision and plan. */
  lemma ReplayReturnsSame(
    requireSink: bool, run: nat, trace: seq<Store>, i: nat, j: nat,
    q: Request, d: Decision, q': Request, t': Store, r: Reply)
    requires IsRun(PlanRules(requireSink), run, trace) && JustPlanned(PlanRules(requireSink), trace[0], run)
    requires i < j < |trace| && RepairCall(PlanRules(requireSink), trace[i], run, q, trace[i + 1], Decided(d, false))
    requires q'.outcome == q.outcome && q'.mutation == q.mutation
    requires RepairCall(PlanRules(requireSink), trace[j], run, q', t', r)
    ensures t' == trace[j] && r == Decided(d, true)
  {
    PlanRulesAreLawful(requireSink);
    RunPreserves(PlanRules(requireSink), run, trace, i + 1, j);
    ReplayFindsDecision(PlanRules(requireSink), trace[i], run, q, trace[i + 1], d, trace[j], q', t', r);
  }

  // ----- The final sink of a repaired plan

  /** Old tasks keep their place and their dependencies in an extended task list. */
  lemma OldTasksKept(oldTasks: seq<Task>, tasks: seq<Task>)
    requires UniqueIds(tasks) && oldTasks <= tasks
    ensures forall x | x in TasksById(oldTasks) ::
              x in TasksById(tasks) && TasksById(tasks)[x] == TasksById(oldTasks)[x]
    ensures forall t | t in tasks[|oldTasks|..] :: t.id !in TasksById(oldTasks)
  {
    TasksByIdUnique(tasks);
    TasksByIdKeyed(oldTasks);
    forall x | x in TasksById(oldTasks) ensures x in TasksById(tasks) && TasksById(tasks)[x] == TasksById(oldTasks)[x] {
      assert TasksById(oldTasks)[x] in tasks;
    }
  }

  /** In an extension of a closed plan, old tasks lead only to old tasks. */
  lemma {:induction false} OldLeadsToOld(g: Graph, g': Graph, p: seq<Id>, k: nat)
    requires Closed(g) && forall x | x in g :: x in g' && g'[x] == g[x]
    requires IsPath(g', p) && p[0] in g && k < |p|
    ensures p[k] in g
  {
    if k > 0 {
      var h := k - 1;
      OldLeadsToOld(g, g', p, h);
      assert Edge(g', p[h], p[k]);
    }
  }

  /** An old task cannot cover a plan that has new tasks. */
  lemma OldCannotCover(g: Graph, g': Graph, s: Id, newest: Id)
    requires Closed(g) && forall x | x in g :: x in g' && g'[x] == g[x]
    requires newest !in g && Reaches(g', s, newest)
    ensures s !in g
  {
    var p :| PathFromTo(g', p, s, newest);
    if s in g {
      OldLeadsToOld(g, g', p, |p| - 1);
      assert false;
    }
  }

  lemma SinkOfExtendedGraph(g: Graph, g': Graph, newest: Id) returns (s: Id)
    requires Closed(g) && forall x | x in g :: x in g' && g'[x] == g[x]
    requires Closed(g') && Acyclic(g') && exists s :: OnlySinkValidates(g', s)
    requires newest in g' && newest !in g
    ensures OnlySinkValidates(g', s) && s !in g
    ensures forall x | x in g :: Reaches(g', s, x)
  {
    SinkVerdict(g');
    CountsOne(g');
    s :| IsCoveringSink(g', s);
    forall y | IsSink(g', y) ensures y == s { CoveringIsOnlySink(g', s, y); }
    if s != newest {
      OldCannotCover(g, g', s, newest);
    }
  }

  /** With the sink rule on, the final sink of an extended plan is one of the new tasks and
      transitively depends on every earlier task, the previous final sink among them. */
  lemma FinalSinkOfExtension(a: Plan, b: Plan) returns (s: Id)
    requires ValidPlan(true, a) && ValidPlan(true, b) && a.tasks < b.tasks
    ensures OnlySinkValidates(TasksById(b.tasks), s)
    ensures ListsTask(b.tasks[|a.tasks|..], s)
    ensures forall x | x in TasksById(a.tasks) :: Reaches(TasksById(b.tasks), s, x)
  {
    NewTask(a.tasks, b.tasks, |a.tasks|);
    OldTasksKept(a.tasks, b.tasks);
    s := SinkOfExtendedGraph(TasksById(a.tasks), TasksById(b.tasks), b.tasks[|a.tasks|].id);
    IsNewTask(a.tasks, b.tasks, s);
  }

  lemma NewTask(oldTasks: seq<Task>, tasks: seq<Task>, i: nat)
    requires UniqueIds(tasks) && oldTasks <= tasks && |oldTasks| <= i < |tasks|
    ensures tasks[i].id in TasksById(tasks) && tasks[i].id !in TasksById(oldTasks)
  {
    TasksByIdUnique(tasks);
    OldTasksKept(oldTasks, tasks);
    assert tasks[i] == tasks[|oldTasks|..][i - |oldTasks|];
  }

  lemma IsNewTask(oldTasks: seq<Task>, tasks: seq<Task>, s: Id)
    requires oldTasks <= tasks && s in TasksById(tasks) && s !in TasksById(oldTasks)
    ensures ListsTask(tasks[|oldTasks|..], s)
  {
    TasksByIdKeyed(oldTasks);
    TasksByIdKeyed(tasks);
    var t := TasksById(tasks)[s];
    assert t !in oldTasks;
    assert tasks == oldTasks + tasks[|oldTasks|..];
  }

  /** The final sinks along a run: each revision ends in a task of its own that waits for
      everything any earlier revision held. */
  lemma FinalSinksAdvance(s: Store, run: nat, n: nat, j: nat, k: nat) returns (sink: Id)
    requires RunInv(PlanRules(true), s, run, n) && 1 <= j < k <= n
    ensures OnlySinkValidates(TasksById(s.revisions[k].tasks), sink)
    ensures ListsTask(s.revisions[k].tasks[|s.revisions[j].tasks|..], sink)
    ensures forall x | x in TasksById(s.revisions[j].tasks) :: Reaches(TasksById(s.revisions[k].tasks), sink, x)
  {
    var a, b := s.revisions[j], s.revisions[k];
    assert PlanRules(true).valid(a) && PlanRules(true).valid(b) && Extends(a, b);
    sink := FinalSinkOfExtension(a, b);
  }

  // ----- The controller

  /** DurableRepairController for one run, over its tables. */
  class RepairController {
    const requireSink: bool
    const runId: nat
    var revisions: map<nat, Plan>
    var repairs: map<nat, Repair>
    var taskIds: set<Id>

    ghost function View(): Store
      reads this
    {
      Store(revisions, repairs, taskIds)
    }

    /** Rows record failed verifications, and exactly the accepted ones carry a revision. */
    ghost predicate Valid()
      reads this
    {
      forall id | id in repairs ::
        repairs[id].outcome.Failed? && (repairs[id].action == ApplyMutation <==> repairs[id].acceptedRevision.Some?)
    }

    constructor (requireSink: bool, runId: nat, plan: Plan)
      ensures Valid() && View() == Store(map[1 := plan], map[], set t | t in plan.tasks :: t.id)
      ensures this.requireSink == requireSink && this.runId == runId
    {
      this.requireSink, this.runId := requireSink, runId;
      revisions, repairs, taskIds := map[1 := plan], map[], set t | t in plan.tasks :: t.id;
    }

    /** The highest stored revision. */
    method Latest() returns (n: nat)
      requires revisions != map[]
      ensures IsLatest(View(), n)
    {
      n :| n in revisions;
      var rest := revisions.Keys - {n};
      while rest != {}
        invariant n in revisions && rest <= revisions.Keys
        invariant forall k | k in revisions && k !in rest :: k <= n
        decreases rest
      {
        var k :| k in rest;
        if k > n { n := k; }
        rest := rest - {k};
      }
    }

    /** The accepted repairs of this run. The integrity error for a missing revision cannot occur. */
    method History() returns (history: seq<Attempt>)
      requires Valid()
      ensures IsHistory(View(), runId, history)
    {
      history := [];
      var rest := repairs.Keys;
      while rest != {}
        invariant rest <= repairs.Keys
        invariant forall id | AcceptedIn(View(), runId, id) && id !in rest :: AttemptOf(repairs[id]) in history
        invariant forall a | a in history :: exists id :: AcceptedIn(View(), runId, id) && a == AttemptOf(repairs[id])
        decreases rest
      {
        var id :| id in rest;
        rest := rest - {id};
        if repairs[id].runId == runId && repairs[id].action == ApplyMutation {
          assert repairs[id].acceptedRevision.Some? && AcceptedIn(View(), runId, id);
          history := history + [AttemptOf(repairs[id])];
        }
      }
    }

    /** The decision on a new mutation. */
    method DecideFresh(q: Request, current: Plan) returns (d: Option<Decision>)
      requires Valid()
      ensures FreshDecision(PlanRules(requireSink), View(), runId, current, q, d)
    {
      if q.evidenceErrors != [] {
        return Some(Decision(Terminate, q.evidenceErrors, None, Some(q.mutation.mutationId)));
      }
      var history := History();
      d := Decide(requireSink, current, q.outcome, Some(q.mutation), history);
    }

    /** DurableRepairController.apply */
    method Apply(q: Request) returns (r: Reply)
      requires Valid()
      modifies this
      ensures Valid()
      ensures ApplyStep(PlanRules(requireSink), old(View()), runId, q, View(), r)
    {
      if q.outcome.Passed? {
        return CallRaised;
      }
      if q.mutation.mutationId in repairs {
        return ReplayReply(Store(revisions, repairs, taskIds), runId, q);
      }
      if revisions == map[] {
        return CallRaised;
      }
      var n := Latest();
      var d := DecideFresh(q, revisions[n]);
      ghost var committed := Commit(View(), runId, q, d);
      if d == None || (d.value.action == ApplyMutation && exists t :: t in q.mutation.tasks && t.id in taskIds) {
        return CallRaised;
      }
      repairs := repairs[q.mutation.mutationId := RowFor(runId, q, d.value)];
      if d.value.action == ApplyMutation && d.value.plan.Some? {
        revisions := revisions[d.value.plan.value.revision := d.value.plan.value];
        taskIds := taskIds + set t | t in q.mutation.tasks :: t.id;
      }
      r := Decided(d.value, false);
      assert (View(), r) == committed;
    }
  }
}
