# AutoSWE control plane: a verified model

This project models the parts of the AutoSWE control plane whose correctness depends on many
functions working together, and proves what they promise. Database transactions are atomic steps;
publishers, consumers, dispatchers, callers, crashes, clocks and model providers are arbitrary.

* **Plans** (`PlanGraph`, `TopologicalOrder`, `PlanDepth`, `FinalSink`, `RepositoryPaths`,
  `PlanValidator`): Kahn's algorithm with a least-id heap, one-pass depth, the ancestor worklist, the
  path test, validation and mutation of task graphs.
* **Repair and storage of plans** (`PlanRepair`, `PlanRemap`, `PlanLifecycle`, `PlanningFence`):
  every run of repairs, renaming of colliding ids, stale planners that are taken over, and all three
  joined.
* **Messages** (`Outbox`, `Consumer`, `Delivery`): the transactional outbox, the receipt-based
  consumer, and both joined by the stream.
* **Tools** (`ToolGateway`, `Approvals`, `ApprovedCalls`): idempotent execution under one key,
  approvals bound to one exact call, and both joined.
* **Persistence** (`Lifecycles`, `Repositories`): transition tables, versioned transitions, audit
  logs and durations.
* **Bounded loops** (`AgentLoop`, `PayloadFitter`, `InstructionFate`, `KeyNaming`, `StrictSchema`,
  `RateLimiter`, with `JsonValues` and `JsonSizes`): the agent turn loop, the payload fitter, the
  schema normaliser and the sliding-window limiter.

State that the program changes in place is a class whose methods are proved against transaction
functions; the run theorems are about all sequences of those transactions. `dafny verify
dfyconfig.toml` checks everything.

## What the code does where one might expect otherwise

* `validate` raises instead of reporting in two cases: an index error when a task has a path without
  parts, such as `.`, and a key error when the sink rule is on and a VALIDATION sink leads to a
  missing dependency. `RaisesIff`, `Validate` and `ValidateMutation` state exactly when;
  `DotPathRaises` and `MissingDependencyRaises` give plans.
* `requeue` reports success for a parked event but does not make it eligible (`RequeueEligible`
  states the exact condition, `RequeueCanBeInVain` gives a run).
* An event that was applied can be dead-lettered later. Without database errors this happens exactly
  as `AppliedCanBeParkedIffNotClean` says (`AppliedThenParked` gives a run); with them it can happen
  to every event at any time, because a failing transaction is recorded even if the receipt exists
  (`AnyEventCanBeParked`, `StaysCleanIff`).
* A takeover of a stale planner does not refresh the state clock, so equal claim timestamps are
  possible, and then the fence does not hold (`EqualTimestampsBreakTheFence`,
  `SupersededPowerlessIff`).
* A remapped id may collide with another id of the same plan; the plan is then not stored
  (`DerivedIdMayCollide`, `PreparePlan`).
* A decision after expiry overwrites an earlier approval or rejection with EXPIRED
  (`DecidedChangesIff` states when, `ApprovalCanBeOverwritten` gives a run).
* `strict_json_schema` treats a properties dictionary as a schema of its own, so a property called
  `default` is lost and one called `properties` brings in undeclared names (`PropertyNamesKeptIff`
  and `RequiredIsDeclaredIff` state when, `PropertyNamedDefault` and `PropertyNamedProperties` give
  schemas).
* The docstring of `_bounded_json` says that bulk data absorbs the reduction and that anything
  dropped is named; the last resort can also replace instructions, drop them without a mark, and
  names no bulk section. `InstructionsSurviveIff` states exactly when instructions come through,
  `KeyNamedIff`, `InstructionsNamedIff` and `AllNamedIff` when keys are named; `LongListIsLost` gives
  a payload for every limit, `InstructionVanishes` one at the limit in use. The code is followed.

## Conventions

A UUID is the number that the code sorts it by. A SHA-256 digest is the content it was computed
from, and a `uuid5` value the data it is derived from, except in `PlanRemap`, where the derived id is
an arbitrary function. Fresh claim tokens are distinct from all earlier ones. Times are integers
(reals in `RateLimiter`), costs are reals. The heap of `heapq` is a set with least-element
extraction, and loops over dictionaries and sets take their elements in any order.

## Model

| member | source | states |
|---|---|---|
| `TopologicalOrder.CountEdges` | planning/validator.py:346-352 | the indegree of each task counts its in-plan dependencies with repetition, and each waiting list holds exactly the tasks that depend on its owner, in whatever order the dictionary is walked |
| `TopologicalOrder.PopLeast` | planning/validator.py:354-360 | the heap hands out the least ready id |
| `TopologicalOrder.Release` | planning/validator.py:362-365 | one finished task lowers each indegree by its number of edges and releases exactly the tasks that reach zero, whatever the order of the waiting list |
| `TopologicalOrder.TopologicalSort` | planning/validator.py:345-366 | Kahn's loop terminates with an order without repetition in which every in-plan dependency comes first, each position holds the least id ready at that point, and nothing ready is left |
| `TopologicalOrder.GreedyOrderUnique` | planning/validator.py:345-366 | that order is determined by the plan alone |
| `TopologicalOrder.GreedyOrderExists` | planning/validator.py:345-366 | every plan, cyclic or not, has such an order |
| `TopologicalOrder.GreedyIsLexLeast` | planning/validator.py:354-366 | among all complete schedules of the plan the computed one is lexicographically least |
| `TopologicalOrder.CompleteIffAcyclic` | planning/validator.py:75-82 | the order has full length exactly when no task transitively depends on itself, the test behind the CYCLE issue |
| `TopologicalOrder.OrderedNotOnCycle` | planning/validator.py:345-366 | a task that made it into the order is on no cycle, even when the plan has one elsewhere |
| `PlanDepth.MaximumDepth` | planning/validator.py:369-380 | the one-pass depth is the number of tasks on the longest chain that starts at an ordered task; for a complete order it is the longest dependency chain of the plan |
| `PlanDepth.DepthStep` | planning/validator.py:374-379 | a task sits exactly one above its deepest dependency, measured in longest chains |
| `FinalSink.Ancestors` | planning/validator.py:389-398 | the stack walk terminates despite revisits and returns exactly the transitive dependencies; it ends in a key error exactly when one of them is missing from the plan |
| `FinalSink.HasFinalValidationSink` | planning/validator.py:383-406 | the test raises exactly when a VALIDATION sink leads outside the plan, and otherwise says whether exactly one VALIDATION sink covers all tasks |
| `FinalSink.SinkVerdict` | planning/validator.py:383-406 | for an acyclic plan with closed dependencies the covering test is true exactly when one task has no dependents and that task is VALIDATION, and it never raises |
| `FinalSink.CountsOne` | planning/validator.py:401-406 | there is never more than one covering sink, so counting one and finding one are the same |
| `RepositoryPaths.RaisesIff` | planning/validator.py:334-342 | the path test ends in an index error exactly on paths written with single dots and slashes of either kind alone that begin with a dot, such as '.' and './' |
| `RepositoryPaths.InsideStaysInside` | planning/validator.py:334-342 | walking along a path that passes never leads above the repository and ends below its root |
| `RepositoryPaths.SplitJoins` | planning/validator.py:336-337 | splitting a path into components loses nothing, and no component holds a slash |
| `PlanValidator.DuplicateIds` | planning/validator.py:54-60 | the dictionary keeps the first task per id and the duplicate set holds exactly the ids that occur twice |
| `PlanValidator.ListingIrrelevant` | planning/validator.py:56-60 | with distinct ids, dictionary and computed order do not depend on how tasks are listed |
| `PlanValidator.TaskIssues` | planning/validator.py:216-331 | a task is charged with exactly the scope, revision, policy, path, self-dependency and missing-dependency issues it has; the checks raise exactly if one of its paths has no parts |
| `PlanValidator.Validate` | planning/validator.py:52-148 | the report lists exactly the issues the plan has, with the greedy order and, without a cycle, the longest chain; an index error is raised exactly when some task has a path without parts, otherwise a key error exactly when the sink rule is on, there is no cycle and a VALIDATION sink leads outside the plan |
| `PlanValidator.ValidIffNoIssue` | planning/validator.py:141-148 | a plan is validated without raising and without an issue exactly when ids are unique, dependencies closed and acyclic, the only sink is VALIDATION (if required), every chain is within the depth limit, tasks are in scope and permitted, their paths stay inside the repository, and totals are within limits |
| `PlanValidator.CheckPlan` | planning/validator.py:52-148 | there is a report exactly when nothing raises, and it is empty exactly for a valid plan |
| `PlanValidator.MissingDependencyRaises` | planning/validator.py:393-398 | the smallest plans on which the validator raises instead of reporting: one VALIDATION task that waits for a task outside the plan |
| `PlanValidator.DotPathRaises` | planning/validator.py:305-313 | plans without any issue on which the validator raises: one VALIDATION task on the path of the whole repository |
| `PlanValidator.AdditionIssues` | planning/validator.py:153-196 | the first stage reports exactly the stale base, the edited tasks, the repeated ids and the tasks of a wrong revision |
| `PlanValidator.AdditiveIffNoIssue` | planning/validator.py:195-196 | the first stage reports nothing exactly when the mutation targets the current revision and adds new, distinct tasks of the next revision |
| `PlanValidator.CanConstruct` | domain/models.py:123-143 | the plan model can be built exactly for 1 to 500 tasks with distinct ids and matching scope |
| `PlanValidator.ValidateMutation` | planning/validator.py:150-214 | a mutation is accepted exactly when it only adds tasks and the extended plan is constructible and valid; then the proposal is the current plan with the tasks appended; a rejection carries exactly the issues of the first stage or else of the extended plan; the raising cases are characterised exactly |
| `PlanRepair.DistinctCodes` | workflows/repair.py:99-104 | reason codes are the issue codes without repetition |
| `PlanRepair.Decide` | workflows/repair.py:66-110 | the decision follows the order of the checks: passed, repeated signature, repeated fingerprint, missing mutation, then the validator's verdict on the extended plan; the reasons of a rejected mutation are the codes of exactly its issues, each once |
| `PlanRepair.PlanRulesAreLawful` | workflows/repair.py:97-110 | whatever the validator accepts is a valid plan that extends the current one by at least one dynamic task under the same limits |
| `PlanRepair.RepairController.Latest` | workflows/repair.py:154-163 | the current plan is the one with the highest stored revision |
| `PlanRepair.RepairController.History` | workflows/repair.py:164-188 | the history lists exactly the accepted repairs of the run, and the integrity error for a missing revision cannot occur |
| `PlanRepair.RepairController.Apply` | workflows/repair.py:131-270 | one call replays, raises without effect, or records a decision and, if accepted, the revision and its tasks |
| `PlanRepair.CallKeepsRun` | workflows/repair.py:141-270 | one repair call keeps the run invariant with the same number of revisions or exactly one more, and overwrites nothing |
| `PlanRepair.RepairRuns` | workflows/repair.py:131-270 | at every point of every run from a valid first plan, interleaved with other runs: revisions are contiguous and valid, their task lists are proper prefixes of one another, accepted repairs pairwise differ in signature, fingerprint and revision, there are exactly as many as revisions beyond the first and at most max_dynamic_tasks, and nothing recorded ever changes |
| `PlanRepair.AcceptedBounded` | planning/validator.py:105-115 | the dynamic-task limit of the first plan bounds the number of accepted repairs |
| `PlanRepair.ReplayReturnsSame` | workflows/repair.py:297-330 | replaying a mutation that was decided at step i, at any later step of the run and whatever the evidence, changes no state and returns the same decision and plan |
| `PlanRepair.FinalSinkOfExtension` | planning/validator.py:165-214 | with the sink rule on, the final sink of an extended plan is one of the added tasks and transitively depends on every earlier task |
| `PlanRepair.FinalSinksAdvance` | workflows/repair.py:229-238 | along a run, each revision ends in a task added after any earlier revision, and that task waits for everything the earlier one held |
| `PlanRemap.IdMapFor` | planning/service.py:509-519 | the id map covers exactly the plan's ids and replaces exactly those already stored |
| `PlanRemap.Remap` | planning/service.py:520-529 | the renamed list keeps order and length, with each id and each dependency mapped |
| `PlanRemap.IsoSound` | planning/service.py:508-531 | renaming keeps closed dependencies, acyclicity, the sink verdict and every chain bound |
| `PlanRemap.IsoDepth` | planning/service.py:508-531 | renaming keeps the longest chain |
| `PlanRemap.RenamingIsIso` | planning/service.py:516-529 | renaming a list with distinct ids by an injective map renames its task graph |
| `PlanRemap.RequireIntegrationSink` | planning/service.py:672-695 | the second sink check passes exactly if some VALIDATION sink covers the plan, where no sink leads outside it |
| `PlanRemap.RenamedPlanIsSound` | planning/service.py:531-531 | a validated plan never fails the second sink check after an injective renaming, and keeps depth and graph soundness |
| `PlanRemap.RenamedPlanIsValid` | planning/service.py:520-531 | a valid plan stays valid under an injective renaming, totals and policy included |
| `PlanRemap.InsertTasks` | planning/service.py:539-544 | the inserts succeed exactly if ids are distinct and none is stored |
| `PlanRemap.FreshIffInjective` | planning/service.py:516-544 | the renamed ids are new exactly when the map is injective and avoids stored ids |
| `PlanRemap.PreparePlan` | planning/service.py:508-544 | a validated plan is stored exactly when the remap is clean, as its renamed copy, which is again a valid plan with new ids; otherwise the transaction fails |
| `PlanRemap.DerivedIdMayCollide` | planning/service.py:516-519 | valid plans of two tasks whose remap is not clean, because the derived id of the one is the id of the other |
| `PlanLifecycle.StoredPlanStartsRepairs` | planning/service.py:508-552 | what a planner stores of a validated first plan is a legal start of repairs |
| `PlanLifecycle.PlannedThenRepaired` | planning/service.py:426-612 | the whole life of a run, in every interleaving of planners, takeovers, cancellation, repairs and other runs: revisions exist exactly once some planner has stored a plan; then the repair invariant holds, accepted repairs stay within the growth limit of the first plan, and no revision or repair ever changes |
| `PlanningFence.PlanningStore.ClaimRun` | planning/service.py:426-480 | a claim succeeds exactly on a pending or stale, uncancelled run and makes the caller the owner; a takeover restarts only the stage clock |
| `PlanningFence.PlanningStore.PersistPlan` | planning/service.py:489-506 | a plan is stored exactly by the current owner, by a legal run transition, after which nobody owns the run |
| `PlanningFence.PlanningStore.FailRun` | planning/service.py:583-612 | only the current owner can fail the run, by a legal run transition |
| `PlanningFence.PlanningStore.CancelRun` | apps/api/routes.py:952-989 | cancelling is refused exactly for finished runs, takes effect at once while unplanned, and ends all ownership |
| `PlanningFence.RunKeepsInv` | planning/service.py:426-612 | in every interleaving of claims, takeovers, persists, failures and cancellations, with any timestamps: at most one plan is stored, only under the latest fence, and the state history is a path of the run table |
| `PlanningFence.FenceHolds` | planning/service.py:494-506 | with distinct claim timestamps a superseded planner changes nothing for the rest of the run, and whoever stored the plan is the last claimer there ever is |
| `PlanningFence.SupersededPowerlessIff` | planning/service.py:505-506 | during planning, superseded planners are powerless exactly when none shares its timestamp with the latest claim |
| `PlanningFence.EqualTimestampsBreakTheFence` | planning/service.py:451-477 | a run in which two takeovers carry the same timestamp and the taken-over planner still stores its plan |
| `PlanningFence.LifecycleGrows` | domain/enums.py:165-193 | one legal transition extends a path of the run table |
| `Outbox.OutboxPublisher.Select` | messaging/outbox.py:102-117 | the claim query picks the oldest claimable rows that no other transaction has locked, at most limit, ties by event id |
| `Outbox.OutboxPublisher.ClaimBatch` | messaging/outbox.py:98-135 | the selected rows, and only they, are stamped with their own token and one more attempt, and the returned claims match |
| `Outbox.BatchIsRun` | messaging/outbox.py:118-135 | claiming a batch in one transaction is a run of single claim steps |
| `Outbox.OutboxPublisher.MarkPublished` | messaging/outbox.py:137-154 | the row is marked published exactly if the claim still holds and it was unpublished |
| `Outbox.OutboxPublisher.MarkFailed` | messaging/outbox.py:156-213 | the row is rescheduled or parked exactly if the claim still holds; past the attempt cap the dead letter is written in any case |
| `Outbox.OutboxPublisher.Requeue` | messaging/outbox.py:82-96 | requeueing releases the row and clears publication |
| `Outbox.RequeueEligible` | messaging/outbox.py:82-96 | after a requeue the event is eligible exactly when it is not parked |
| `Outbox.RequeueCanBeInVain` | messaging/outbox.py:82-96 | from the start and under any configuration, a run in which an event is refused until it is parked, then requeued, and stays out of reach |
| `Outbox.RefusedUntilParked` | messaging/outbox.py:156-213 | wherever a run stands, a pending row that is refused often enough ends up parked |
| `Outbox.RunKeepsInv` | messaging/outbox.py:82-213 | in every interleaving of publishers, crashes, clock readings and requeues: a live token excludes publication and parking, no row is both, published rows were taken by the transport, parked rows used up their attempts and have a dead letter, tokens are bound to one row and attempt |
| `Outbox.AttemptsCountClaims` | messaging/outbox.py:119-133 | the attempts counter equals the number of claims ever handed out |
| `Outbox.SupersededIsPowerless` | messaging/outbox.py:137-198 | once superseded, a claim never changes an outbox row again, whatever is reported later in the run |
| `Outbox.ParkedForever` | messaging/outbox.py:179-198 | a parked row is never claimable or published again in the run, not even after a requeue, and keeps its dead letter |
| `Outbox.PendingIsClaimable` | messaging/outbox.py:106-111 | a row that is neither published nor parked is claimable exactly from the later of its retry time and its claim expiry |
| `Outbox.BackoffGrows` | messaging/outbox.py:160-161 | the retry delay never shrinks with the attempt and never exceeds its ceiling |
| `Consumer.DeliveryConsumer.NoteFailure` | messaging/consumer.py:163-214 | the counter is upserted and the row retried later or parked with a dead letter |
| `Consumer.DeliveryConsumer.Process` | messaging/consumer.py:64-95 | each outcome is characterised exactly for every way the transaction can end, also rolled back or committed unseen and also for a duplicate; a receipt and its effect are committed together and at most once, a failing transaction is recorded, and the record is acknowledged except when deferred or to be retried |
| `Consumer.DeliveryConsumer.SweepStalled` | messaging/consumer.py:111-161 | exactly the overdue retry rows of all groups are parked with a dead letter, and counted |
| `Consumer.RunKeepsInv` | messaging/consumer.py:64-214 | under any redelivery, reclaim, late processing, database error and crash order: effects commit at most once per group and event and exactly when a receipt exists, an acknowledged record is applied or parked with a dead letter for its own group, retry rows are below the cap, parked rows at or above it with a dead letter |
| `Consumer.StaysCleanIff` | messaging/consumer.py:75-92 | an applied event without a delivery row or pending failure stays so in exactly those steps that are not a database error in a transaction on it |
| `Consumer.CleanForever` | messaging/consumer.py:76-95 | such an event never gets a delivery row in a run without database errors on it, whatever handlers do |
| `Consumer.AppliedCanBeParkedIffNotClean` | messaging/consumer.py:75-92 | as long as the database commits what it is asked to, an applied event can still be dead-lettered exactly when it left a delivery row or a concurrent failure is still to be recorded |
| `Consumer.AnyEventCanBeParked` | messaging/consumer.py:87-92 | with database errors no event is safe: from every state one more entry whose transaction rolls back can end in a parked row, with receipts and effects unchanged |
| `Consumer.AppliedThenParked` | messaging/consumer.py:131-143 | from the start and without any database error, a run in which an event is applied and parked afterwards |
| `Consumer.HandleKeepsInv` | persistence/repositories.py:457-466 | however the transaction around receipt and handler ends, effects and receipts stay in step: one effect per receipt, none without |
| `Delivery.EndToEnd` | messaging/outbox.py:68-80 | outbox and consumers together: a row marked published has a stream entry, and an effect is committed only for a stored and claimed event, at most once per group |
| `ToolGateway.ExecuteOwned` | tools/gateway.py:212-272 | the attempt loop stops at the first outcome that is not retried, within max_attempts, at the first attempt for one-shot tools, with the verdict that outcome calls for, and never runs off its end |
| `ToolGateway.ExecutionStore.Claim` | tools/gateway.py:274-337 | exactly one caller inserts the row; a call that differs in any field, or whose id is bound to another key, conflicts |
| `ToolGateway.ExecutionStore.PromoteApproved` | tools/gateway.py:339-350 | only a waiting row is promoted, and only once |
| `ToolGateway.ExecutionStore.PersistTerminal` | tools/gateway.py:428-482 | the first verdict is stored for good and later ones get it back |
| `ToolGateway.RunKeepsInv` | tools/gateway.py:111-350 | in every interleaving of callers, completions, polls, crashes and terminal writes that commit unseen: owners, starts and answers agree with the row |
| `ToolGateway.OneOwnerOneVerdict` | tools/gateway.py:111-173 | across all callers and all time at most one executes, starts stay within max_attempts, an external or never-replay tool starts at most once, and all answers carry the one stored verdict |
| `ToolGateway.RunSettles` | tools/gateway.py:444-482 | the bound call, the owner, a terminal row and every answer never change |
| `ToolGateway.NoStartBeforeElection` | tools/gateway.py:140-166 | nothing is started while the key is unclaimed or waits for approval |
| `Approvals.ApprovalService.Request` | tools/approval.py:56-129 | a request yields the one approval of its exact call, new or existing, or raises when out of scope or mismatched; the digest check on an existing row cannot fail |
| `Approvals.ApprovalService.Decide` | tools/approval.py:131-200 | each decision outcome with its exact effect on row and log |
| `Approvals.ApprovedOnlyFromPending` | tools/approval.py:152-165 | APPROVED is reached only from PENDING, by an approving decision, before expiry |
| `Approvals.DecidedChangesIff` | tools/approval.py:152-165 | an approved or rejected row changes exactly when a decision with its digest arrives at or after expiry, and then becomes EXPIRED |
| `Approvals.ApprovalCanBeOverwritten` | tools/approval.py:152-157 | from the start, a run in which an approval is granted in time and later overwritten with EXPIRED |
| `Approvals.RunKeepsInv` | tools/approval.py:56-200 | in every run the status of an approval tells exactly what the log says, and its digest matches the execution of its call |
| `Approvals.RefusedForever` | tools/approval.py:152-162 | a rejected or expired approval authorizes nothing for the rest of the run |
| `Approvals.AuthorizedAsRequested` | tools/approval.py:202-246 | a successful authorization is for exactly the call, project, repository and baseline requested, granted by the named approver before expiry, never denied, and not expired |
| `Approvals.OneCallPerApproval` | domain/models.py:282-293 | one approval authorizes one call, project, repository and baseline |
| `ApprovedCalls.RunKeepsInv` | tools/gateway.py:140-166 | gateway and approvals together, with authorization and promotion as separate transactions: every authorization stays backed by the log, and the owner of an approval-bound call holds one for exactly that call |
| `ApprovedCalls.StartedOnlyIfApproved` | tools/gateway.py:140-173 | once the executor of an approval-bound tool was started, an approval exists that was requested for exactly this call and scope, granted before expiry, never denied, and checked by the owner before expiry |
| `Repositories.TaskRepository.CreateTask` | persistence/repositories.py:121-145 | a task starts PENDING at version 1 with an empty history and two clock readings of its own; a duplicate id changes nothing |
| `Repositories.TaskRepository.TransitionTask` | persistence/repositories.py:157-217 | success exactly for an existing task of the project at the expected version with a legal target; then row, audit, outbox and duration move together, otherwise nothing does; every history stays sound |
| `Repositories.HistoryGrows` | persistence/repositories.py:177-209 | audit events carry consecutive versions and form a path of the task table from PENDING to the current state, and spans follow it without a gap |
| `Repositories.OneSuccessPerVersion` | persistence/repositories.py:173-190 | for every version up to the current one exactly one transition produced it |
| `Repositories.DurationsTile` | persistence/repositories.py:677-699 | recorded stays tile the time from the first state entry on, and their seconds add up to it exactly when the clock never ran backwards |
| `Repositories.GraphRepository.TransitionGraph` | persistence/repositories.py:294-419 | a call raises without effect, updates the checkpoint only, or changes the row and audits it; replaying the audit log always gives the stored thread and state |
| `Repositories.MoveReplays` | persistence/repositories.py:339-411 | the audit events of a change lead from the old row to the new one |
| `Repositories.MoveIsSanctioned` | persistence/repositories.py:339-381 | a change on the same thread is a step of the graph table, and a terminal state is left only by an audited rollover to RUNNING |
| `Repositories.TerminalLeftByRollover` | domain/enums.py:94-146 | in any legal audit log a terminal state is only followed by a rollover or by the restart right after one |
| `AgentLoop.Run` | agents/base.py:343-606 | the loop stops at the first request after which the run ends, for exactly that reason; ordinals are 1 to k, each record has the model asked if it failed and the model reported otherwise, and its charge; a returned result carries the sum of its records and is within both budgets |
| `AgentLoop.RequestsBounded` | agents/base.py:356-488 | whatever the provider does, at most turn_budget + 4n - 1 requests for n models |
| `AgentLoop.BoundReachedIff` | agents/base.py:465-488 | some provider reaches that bound exactly if the token budget exceeds three failed-call estimates per configured model: three charged failures on each, and the change of model for free |
| `AgentLoop.LongRunCost` | agents/base.py:767-787 | every run of that length has been charged at least three estimates per model |
| `AgentLoop.FailuresBounded` | agents/base.py:465-488 | failed requests are paid for by four per model used up plus the retries of the current one |
| `AgentLoop.TotalIsSpent` | agents/base.py:458-493 | the running totals equal the sum over recorded attempts |
| `PayloadFitter.ShrinkBounds` | agents/base.py:74-81 | shrinking keeps keys and list lengths at every depth and bounds every string by the cap plus the marker |
| `PayloadFitter.FitList` | agents/base.py:84-103 | a bulk list keeps the longest prefix that fits (at least one entry) and names the number of dropped entries |
| `PayloadFitter.FittedListLength` | agents/base.py:84-103 | the kept entries are the shrunk entries of the prefix, followed by one marker exactly when something was dropped |
| `PayloadFitter.CriticalSection` | agents/base.py:120-139 | the instructions use the largest of the caps 8000, 4000, 2000, 1000 that keeps them within 60 percent of the limit, or the smallest |
| `PayloadFitter.BulkSection` | agents/base.py:142-151 | every other section is fitted or shrunk, in order |
| `PayloadFitter.Sacrifice` | agents/base.py:153-167 | sections are given up one by one until the document first fits |
| `PayloadFitter.DropUntilFits` | agents/base.py:185-190 | the notice loses one longest field at a time, only while it is too long, until it fits or is empty |
| `PayloadFitter.TrimKeepsShortest` | agents/base.py:186-189 | what is kept of a notice is never longer than what was dropped, and a notice that fits is kept whole |
| `PayloadFitter.BoundedJson` | agents/base.py:106-190 | for any limit of at least 2 the result is within the limit; it has exactly the payload's keys with the least number of largest sections given up, instructions cut at the largest cap that the budget allows, or is a notice of marks and instructions trimmed longest first |
| `PayloadFitter.InstructionsKept` | agents/base.py:116-139 | in the merged document every instruction is the payload's own, cut only inside long strings |
| `InstructionFate.InstructionsSurviveIff` | agents/base.py:116-190 | for every payload and limit: all instructions come through, cut only inside long strings, exactly if the document fits at some stage of giving up bulk sections, or all instructions are strings and fit together with the notice marks that are shorter than the longest of them |
| `InstructionFate.LongListIsLost` | agents/base.py:168-190 | for every limit, a payload whose only instruction does not come through: a list with as many entries as the limit has characters |
| `InstructionFate.TrimSpares` | agents/base.py:185-190 | trimming a notice spares all instructions exactly if they fit together with the light marks |
| `KeyNaming.FieldSurvivesIff` | agents/base.py:185-190 | each field of a notice survives the trimming exactly if what is left when its turn comes fits |
| `KeyNaming.KeyNamedIff` | agents/base.py:142-190 | for every payload, limit and key: the key is named in the result exactly if the document fits at some stage of giving up bulk sections, or the notice has a field for it that trimming never reaches |
| `KeyNaming.InstructionsNamedIff` | agents/base.py:116-190 | all instructions are named, as they are or by a mark, exactly if the document fits at some stage, or their notice fields fit together with the marks that are shorter than the longest of them |
| `KeyNaming.AllNamedIff` | agents/base.py:142-190 | for a payload that does not use the two names of the notice marks: all sections are named exactly if the document fits at some stage, or there are instructions only and the notice can afford them |
| `KeyNaming.InstructionVanishes` | agents/base.py:168-190 | at the limit of 48000 that the program uses, and below, a payload one of whose instructions is in the result neither as it is nor by a mark |
| `JsonSizes.SizeIgnoresOrder` | agents/base.py:154-154 | any rearrangement of the fields has the same size, so sorting keys matters for no budget |
| `StrictSchema.StrictJsonSchema` | agents/gateway.py:489-509 | the loop computes the normal form of the schema |
| `StrictSchema.StrictIdempotent` | agents/gateway.py:489-509 | normalising twice is normalising once, at any depth and including key order |
| `StrictSchema.StrictCloses` | agents/gateway.py:504-508 | every object schema that is reached comes out closed and requires exactly its transformed properties, and no default is left |
| `StrictSchema.RequiredAfter` | agents/gateway.py:504-507 | required lists the names of the normalised properties dictionary |
| `StrictSchema.PropertyNamesKeptIff` | agents/gateway.py:492-508 | the declared property names survive, all and without additions, exactly when none is 'default' and the properties dictionary does not itself look like an open object schema |
| `StrictSchema.RequiredIsDeclaredIff` | agents/gateway.py:504-508 | the normalised schema requires exactly the declared properties under that same condition |
| `StrictSchema.PropertyNamedDefault` | agents/gateway.py:492-494 | a property called default is lost, whatever its schema |
| `StrictSchema.PropertyNamedProperties` | agents/gateway.py:504-508 | a property called properties brings two undeclared names into the required list |
| `RateLimiter.Limiter.Dispatch` | apps/api/middleware.py:102-139 | with nondecreasing time the decision equals naive counting over the full accepted history, even after eviction; the queue is the recent part of that history and the table stays within its cap |
| `RateLimiter.Limiter.Trim` | apps/api/middleware.py:129-130 | popping stale heads leaves exactly the entries of the last 60 seconds |
| `RateLimiter.EvictKeepsInv` | apps/api/middleware.py:104-111 | eviction drops only idle keys and leaves exactly the keys with a recent request |
| `RateLimiter.WindowsWithinLimit` | apps/api/middleware.py:132-138 | no window of 60 seconds ever holds more than limit accepted requests of a key |

## Left out

- PlanValidator.TaskIssues: the checks of capability, required tools, risk ceilings, acceptance criteria and registered tools enter as the list of codes they yield, because each is a direct comparison and none can raise.
- PlanValidator.Validate: the order of issues in a report is not modelled, because the code sorts tasks by id and only the set of issues decides anything; totals are exact rather than floating point.
- PlanRemap.RequireIntegrationSink: says nothing when task ids repeat or a sink leads outside the plan, because both are excluded for validated plans after a clean remap.
- PlanRepair.RepairController.Apply: artifact verification enters as the list of evidence errors; audit and outbox rows of a repair are not modelled.
- PlanningFence.PlanningStore.PersistPlan: the ownership fence only; the rows a plan consists of are the subject of PlanRemap.PreparePlan, and PlanLifecycle joins the two.
- Outbox.OutboxPublisher.MarkFailed: error texts and payloads are not modelled.
- Consumer.DeliveryConsumer.Process: a transaction ends in one of four ways, without saying which statement failed; jitter is an arbitrary delay up to the ceiling.
- PayloadFitter.CriticalSection: 60 percent of the limit is computed in integers, not in floating point.
- PayloadFitter.DropUntilFits: instructions of equal length are dropped in document order, while the code walks a frozenset; whether all of them survive or are named does not depend on it, which of them does.
- PayloadFitter.BoundedJson: numbers are integers, and the sentence of the notice is a parameter.
- AgentLoop.Run: prompts, messages and the choice of active tools per turn are not modelled, and a provider reply is one of four kinds.
- ToolGateway.RunKeepsInv: here the grant of an approval is an arbitrary boolean (ApprovedCalls.RunKeepsInv ties it to the approvals); context checks, risk calculation, redaction and the graph transition after an uncertain outcome are not modelled; waiting times out at any moment.
- Repositories.GraphRepository.TransitionGraph: durations of graph executions are not modelled, because a rollover resets the clock before it records the stay.
- Scheduling, leases, reconciliation and finalization (execution/scheduler, workflows/finalization) are not part of this model.
- Retention and stream trimming are not part of this model; the delivery results assume that rows and entries are kept.
- Sandboxes, repositories, memory, web interface, routes other than run cancellation, metrics, tracing, settings and migrations are not part of this model.
