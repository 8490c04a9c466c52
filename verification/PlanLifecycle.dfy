/** One run from its first claim to its last repair: planners under the fence, the storage of the one
    plan with its ids renamed, and the repairs of that plan. Each transaction is one step. */
module PlanLifecycle {
  import opened PlanGraph
  import opened PlanValidator
  import F = PlanningFence
  import R = PlanRemap
  import P = PlanRepair

  /** The run row with its claims, and the tables of plan revisions, repairs and tasks. */
  datatype System = System(fence: F.System, store: P.Store)

  /** Anything but a persist: claims, takeovers, failures, cancellation, progress. */
  ghost predicate FenceStep(staleAfter: nat, s: System, a: F.Action, s': System) {
    && !a.Persist? && F.Enabled(s.fence, staleAfter, a)
    && s' == s.(fence := F.Do(s.fence, staleAfter, a))
  }

  /** A planner reports a validated first plan. Without ownership or with an unclean remap the
      transaction fails and nothing changes; otherwise the renamed plan becomes revision 1. */
  ghost predicate StoreStep(
    staleAfter: nat, s: System, a: F.Action, plan: Plan, derive: Id -> Id, result: Plan, s': System)
  {
    && a.Persist? && F.Enabled(s.fence, staleAfter, a) && ValidPlan(true, plan) && plan.revision == 1
    && if F.Owns(s.fence.rows, s.fence.claims[a.planner]) && R.RemapIsClean(plan, s.store.taskIds, derive) then
         && R.StoredAs(plan, s.store.taskIds, derive, result)
         && s'.fence == F.Do(s.fence, staleAfter, a)
         && s'.store == s.store.(revisions := s.store.revisions[1 := result],
                                 taskIds := s.store.taskIds + set t | t in result.tasks :: t.id)
       else s' == s
  }

  /** A repair of this run, or work of other runs. */
  ghost predicate RepairStep(s: System, run: nat, s': System) {
    P.Next(P.PlanRules(true), s.store, run, s'.store) && s'.fence == s.fence
  }

  ghost predicate Next(staleAfter: nat, run: nat, s: System, s': System) {
    || (exists a :: FenceStep(staleAfter, s, a, s'))
    || (exists a, plan, derive, result :: StoreStep(staleAfter, s, a, plan, derive, result, s'))
    || RepairStep(s, run, s')
  }

  /** Before planning the run has neither revisions nor accepted repairs. */
  ghost predicate IsRun(staleAfter: nat, run: nat, trace: seq<System>) {
    && |trace| > 0 && F.Init(trace[0].fence)
    && trace[0].store.revisions == map[] && P.AcceptedRepairs(trace[0].store, run) == {}
    && forall i, j | 0 <= i < j < |trace| && j == i + 1 :: Next(staleAfter, run, trace[i], trace[j])
  }

  /** As long as no planner has stored a plan there is nothing to repair; from then on the repairs of
      the one plan are sound. */
  ghost predicate Inv(run: nat, s: System) {
    && F.Inv(s.fence)
    && (s.fence.stored == [] ==> s.store.revisions == map[] && P.AcceptedRepairs(s.store, run) == {})
    && (s.fence.stored != [] ==> exists n :: P.RunInv(P.PlanRules(true), s.store, run, n))
  }

  lemma FirstRevision(rules: P.Validator, result: Plan, s: P.Store, run: nat)
    requires rules.valid(result) && result.revision == 1
    requires s.revisions == map[1 := result] && P.AcceptedRepairs(s, run) == {}
    ensures P.JustPlanned(rules, s, run)
  {
  }

  /** What a planner stores of a validated plan is a legal start of repairs. */
  lemma StoredPlanStartsRepairs(
    plan: Plan, taken: set<Id>, derive: Id -> Id, result: Plan, s: P.Store, run: nat)
    requires ValidPlan(true, plan) && plan.revision == 1 && R.RemapIsClean(plan, taken, derive)
    requires R.StoredAs(plan, taken, derive, result)
    requires s.revisions == map[1 := result] && P.AcceptedRepairs(s, run) == {}
    ensures P.JustPlanned(P.PlanRules(true), s, run)
  {
    R.StoredPlanIsValid(plan, taken, derive, result);
    FirstRevision(P.PlanRules(true), result, s, run);
  }

  lemma FirstPlanIsSound(run: nat, plan: Plan, derive: Id -> Id, result: Plan, s: P.Store, s': P.Store)
    requires ValidPlan(true, plan) && plan.revision == 1 && R.RemapIsClean(plan, s.taskIds, derive)
    requires R.StoredAs(plan, s.taskIds, derive, result)
    requires s.revisions == map[] && P.AcceptedRepairs(s, run) == {}
    requires s'.revisions == map[1 := result] && s'.repairs == s.repairs
    ensures P.RunInv(P.PlanRules(true), s', run, 1) && P.Preserves(s, s')
  {
    assert P.AcceptedRepairs(s', run) == P.AcceptedRepairs(s, run);
    StoredPlanStartsRepairs(plan, s.taskIds, derive, result, s', run);
    P.JustPlannedIsSound(P.PlanRules(true), s', run);
  }

  /** Only the owner of a run without a plan can store one. */
  lemma OwnerStoresFirst(staleAfter: nat, s: F.System, a: F.Action)
    requires F.Inv(s) && F.Enabled(s, staleAfter, a) && a.Persist? && F.Owns(s.rows, s.claims[a.planner])
    ensures s.stored == [] && F.Do(s, staleAfter, a).stored == [a.planner] && F.Inv(F.Do(s, staleAfter, a))
  {
    F.StepKeepsInv(s, staleAfter, a);
  }

  lemma StoreKeepsInv(
    staleAfter: nat, run: nat, s: System, a: F.Action, plan: Plan, derive: Id -> Id, result: Plan, s': System)
    requires Inv(run, s) && StoreStep(staleAfter, s, a, plan, derive, result, s')
    ensures Inv(run, s') && P.Preserves(s.store, s'.store)
  {
    if F.Owns(s.fence.rows, s.fence.claims[a.planner]) && R.RemapIsClean(plan, s.store.taskIds, derive) {
      OwnerStoresFirst(staleAfter, s.fence, a);
      FirstPlanIsSound(run, plan, derive, result, s.store, s'.store);
    }
  }

  lemma FenceKeepsInv(staleAfter: nat, run: nat, s: System, a: F.Action, s': System)
    requires Inv(run, s) && FenceStep(staleAfter, s, a, s')
    ensures Inv(run, s') && P.Preserves(s.store, s'.store)
  {
    F.StepKeepsInv(s.fence, staleAfter, a);
  }

  /** Without a plan a repair call has no effect. */
  lemma NothingToRepair(run: nat, s: P.Store, s': P.Store)
    requires s.revisions == map[] && P.AcceptedRepairs(s, run) == {} && P.Next(P.PlanRules(true), s, run, s')
    ensures s'.revisions == map[] && P.AcceptedRepairs(s', run) == {} && P.Preserves(s, s')
  {
    forall id ensures !P.AcceptedIn(s', run, id) {
      assert id !in P.AcceptedRepairs(s, run);
    }
  }

  lemma RepairKeepsInv(run: nat, s: System, s': System)
    requires Inv(run, s) && RepairStep(s, run, s')
    ensures Inv(run, s') && P.Preserves(s.store, s'.store)
  {
    if s.fence.stored == [] {
      NothingToRepair(run, s.store, s'.store);
    } else {
      var n :| P.RunInv(P.PlanRules(true), s.store, run, n);
      P.PlanRulesAreLawful(true);
      var n' := P.NextKeepsRun(P.PlanRules(true), s.store, run, n, s'.store);
    }
  }

  lemma StepKeepsInv(staleAfter: nat, run: nat, s: System, s': System)
    requires Inv(run, s) && Next(staleAfter, run, s, s')
    ensures Inv(run, s') && P.Preserves(s.store, s'.store)
  {
    if a :| FenceStep(staleAfter, s, a, s') {
      FenceKeepsInv(staleAfter, run, s, a, s');
    } else if a, plan, derive, result :| StoreStep(staleAfter, s, a, plan, derive, result, s') {
      StoreKeepsInv(staleAfter, run, s, a, plan, derive, result, s');
    } else {
      RepairKeepsInv(run, s, s');
    }
  }

  lemma {:induction false} RunKeepsInv(staleAfter: nat, run: nat, trace: seq<System>, i: nat)
    requires IsRun(staleAfter, run, trace) && i < |trace|
    ensures Inv(run, trace[i])
  {
    if i > 0 {
      var h := i - 1;
      RunKeepsInv(staleAfter, run, trace, h);
      assert Next(staleAfter, run, trace[h], trace[i]);
      StepKeepsInv(staleAfter, run, trace[h], trace[i]);
    }
  }

  lemma {:induction false} RunPreserves(staleAfter: nat, run: nat, trace: seq<System>, i: nat, j: nat)
    requires IsRun(staleAfter, run, trace) && i <= j < |trace|
    ensures P.Preserves(trace[i].store, trace[j].store)
    decreases j
  {
    if i < j {
      var h := j - 1;
      RunPreserves(staleAfter, run, trace, i, h);
      RunKeepsInv(staleAfter, run, trace, h);
      assert Next(staleAfter, run, trace[h], trace[j]);
      StepKeepsInv(staleAfter, run, trace[h], trace[j]);
    }
  }

  /** The whole life of a run, in every interleaving of planners, takeovers, cancellation, repairs
      and other runs: there are revisions exactly once some planner has stored a plan; then they are
      valid, gap-free and extend one another, as many as accepted repairs plus one, within the growth
      limit of the first; and no revision or repair ever changes. */
  lemma PlannedThenRepaired(staleAfter: nat, run: nat, trace: seq<System>, i: nat, j: nat) returns (n: nat)
    requires IsRun(staleAfter, run, trace) && i <= j < |trace|
    ensures trace[i].fence.stored == [] ==> n == 0 && trace[i].store.revisions == map[]
    ensures trace[i].fence.stored != [] ==>
              && |trace[i].fence.stored| == 1 && P.RunInv(P.PlanRules(true), trace[i].store, run, n)
              && |P.AcceptedRepairs(trace[i].store, run)| == n - 1
              && n - 1 <= trace[i].store.revisions[1].limits.maxDynamicTasks
    ensures P.Preserves(trace[i].store, trace[j].store)
  {
    RunKeepsInv(staleAfter, run, trace, i);
    RunPreserves(staleAfter, run, trace, i, j);
    if trace[i].fence.stored == [] {
      n := 0;
    } else {
      n :| P.RunInv(P.PlanRules(true), trace[i].store, run, n);
      P.AcceptedBounded(true, trace[i].store, run, n);
    }
  }
}
