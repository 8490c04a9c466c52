/** The planning fence: stale planners may be taken over at any time, and a planner that was taken
    over must be powerless. One run, any number of dispatchers; each transaction is one step. */
module PlanningFence {
  import opened Lifecycles
  import opened Options

  type Time = int

  datatype AttemptStatus = AttemptRunning | AttemptCompleted | AttemptFailed | AttemptCancelled

  /** The stage attempt row; startedAt doubles as the ownership fence. */
  datatype Attempt = Attempt(status: AttemptStatus, startedAt: Time)

  /** The run row and its stage attempt. */
  datatype Rows = Rows(state: RunStatus, enteredAt: Time, cancelRequested: bool, attempt: Option<Attempt>)

  // ----- Transactions

  predicate Claimable(r: Rows, staleAfter: nat, now: Time) {
    && (r.state == RunPending || (r.state == RunPlanning && r.enteredAt < now - staleAfter))
    && !r.cancelRequested
  }

  /** A first claim moves the run to planning; a takeover only restarts the stage clock. */
  function ClaimTx(r: Rows, now: Time): Rows {
    r.(state := RunPlanning,
       enteredAt := if r.state == RunPlanning then r.enteredAt else now,
       attempt := Some(Attempt(AttemptRunning, now)))
  }

  /** The ownership test of persist and fail. */
  predicate Owns(r: Rows, fence: Time) {
    && r.state == RunPlanning
    && !r.cancelRequested
    && r.attempt == Some(Attempt(AttemptRunning, fence))
  }

  function PersistTx(r: Rows, fence: Time, now: Time): Rows {
    if Owns(r, fence)
    then r.(state := RunExecuting, enteredAt := now, attempt := Some(Attempt(AttemptCompleted, fence)))
    else r
  }

  function FailTx(r: Rows, fence: Time, now: Time): Rows {
    if Owns(r, fence)
    then r.(state := RunFailed, enteredAt := now, attempt := Some(Attempt(AttemptFailed, fence)))
    else r
  }

  /** Cancelling an unplanned run takes effect at once; a later one is only requested. */
  function CancelTx(r: Rows, now: Time): Rows {
    if RunTerminal(r.state) then r
    else if r.state == RunPending || r.state == RunPlanning then
      r.(cancelRequested := true, state := RunCancelled, enteredAt := now,
         attempt := if r.attempt.Some? && r.attempt.value.status == AttemptRunning
                    then Some(r.attempt.value.(status := AttemptCancelled)) else r.attempt)
    else r.(cancelRequested := true)
  }

  // ----- The system

  /** The rows, the timestamp of every claim so far in order, which claimers stored a plan, and
      the states the run went through. A planner is the index of its claim. */
  datatype System = System(rows: Rows, claims: seq<Time>, stored: seq<nat>, states: seq<RunStatus>)

  datatype Action =
    | Claim(now: Time)
    | Persist(planner: nat, now: Time)
    | Fail(planner: nat, now: Time)
    | Cancel(now: Time)
    | Progress(target: RunStatus, now: Time)

  predicate Enabled(s: System, staleAfter: nat, a: Action) {
    match a
    case Claim(now) => Claimable(s.rows, staleAfter, now)
    case Persist(k, _) => k < |s.claims|
    case Fail(k, _) => k < |s.claims|
    case Cancel(_) => true
    case Progress(target, _) =>
      s.rows.state != RunPending && s.rows.state != RunPlanning && target in RunTargets(s.rows.state)
  }

  /** The state log grows when the state changes. */
  function WithRows(s: System, r: Rows): System {
    s.(rows := r, states := if r.state == s.rows.state then s.states else s.states + [r.state])
  }

  function Do(s: System, staleAfter: nat, a: Action): System
    requires Enabled(s, staleAfter, a)
  {
    match a
    case Claim(now) => WithRows(s, ClaimTx(s.rows, now)).(claims := s.claims + [now])
    case Persist(k, now) =>
      WithRows(s, PersistTx(s.rows, s.claims[k], now))
        .(stored := if Owns(s.rows, s.claims[k]) then s.stored + [k] else s.stored)
    case Fail(k, now) => WithRows(s, FailTx(s.rows, s.claims[k], now))
    case Cancel(now) => WithRows(s, CancelTx(s.rows, now))
    case Progress(target, now) => WithRows(s, s.rows.(state := target, enteredAt := now))
  }

  ghost predicate Init(s: System) {
    && s.rows.state == RunPending && !s.rows.cancelRequested && s.rows.attempt == None
    && s.claims == [] && s.stored == [] && s.states == [RunPending]
  }

  ghost predicate Next(staleAfter: nat, s: System, s': System) {
    exists a :: Enabled(s, staleAfter, a) && s' == Do(s, staleAfter, a)
  }

  ghost predicate IsRun(staleAfter: nat, trace: seq<System>) {
    |trace| > 0 && Init(trace[0])
    && forall i, j | 0 <= i < j < |trace| && j == i + 1 :: Next(staleAfter, trace[i], trace[j])
  }

  // ----- What every step keeps

  /** The log is a path of the run state machine from PENDING to the current state. */
  ghost predicate IsLifecycle(states: seq<RunStatus>, state: RunStatus) {
    && |states| > 0 && states[0] == RunPending && states[|states| - 1] == state
    && forall i, j | 0 <= i < j < |states| && j == i + 1 :: states[j] in RunTargets(states[i])
  }

  /** While a run is being planned nothing is stored and the fence is the latest claim. At most one
      plan is ever stored, by a claimer that carries the latest timestamp. */
  ghost predicate Inv(s: System) {
    && (s.rows.state == RunPending ==> s.claims == [] && s.stored == [])
    && (s.rows.state == RunPlanning ==> s.stored == [] && !s.rows.cancelRequested
                                        && s.rows.attempt.Some? && s.rows.attempt.value.status == AttemptRunning)
    && (s.rows.attempt.Some? <==> s.claims != [])
    && (s.rows.attempt.Some? ==> s.rows.attempt.value.startedAt == s.claims[|s.claims| - 1])
    && |s.stored| <= 1
    && (forall k | k in s.stored :: k < |s.claims| && s.claims[k] == s.claims[|s.claims| - 1])
    && IsLifecycle(s.states, s.rows.state)
  }

  lemma LifecycleGrows(states: seq<RunStatus>, state: RunStatus, target: RunStatus)
    requires IsLifecycle(states, state) && target in RunTargets(state)
    ensures IsLifecycle(states + [target], target)
  {
  }

  lemma StepKeepsInv(s: System, staleAfter: nat, a: Action)
    requires Inv(s) && Enabled(s, staleAfter, a)
    ensures Inv(Do(s, staleAfter, a))
  {
    var s' := Do(s, staleAfter, a);
    if s'.rows.state != s.rows.state {
      assert s'.rows.state in RunTargets(s.rows.state);
      LifecycleGrows(s.states, s.rows.state, s'.rows.state);
    }
  }

  /** Every reachable state, whatever the timestamps: at most one plan, always under the latest
      fence, and a run history that follows the run state machine. */
  lemma {:induction false} RunKeepsInv(staleAfter: nat, trace: seq<System>, i: nat)
    requires IsRun(staleAfter, trace) && i < |trace|
    ensures Inv(trace[i])
  {
    if i > 0 {
      var h := i - 1;
      RunKeepsInv(staleAfter, trace, h);
      assert Next(staleAfter, trace[h], trace[i]);
      var a :| Enabled(trace[h], staleAfter, a) && trace[i] == Do(trace[h], staleAfter, a);
      StepKeepsInv(trace[h], staleAfter, a);
    }
  }

  // ----- Superseded planners

  /** Another claim came later. */
  ghost predicate Superseded(s: System, k: nat) {
    k + 1 < |s.claims|
  }

  ghost predicate DistinctClaims(s: System) {
    forall i, j | 0 <= i < j < |s.claims| :: s.claims[i] != s.claims[j]
  }

  /** The report of this planner would change the rows. */
  ghost predicate HasPower(s: System, k: nat) {
    k < |s.claims| && Owns(s.rows, s.claims[k])
  }

  /** A planner has power exactly while the run is being planned under its own timestamp. */
  lemma PowerIffFence(s: System, k: nat)
    requires Inv(s) && k < |s.claims|
    ensures HasPower(s, k) <==> s.rows.state == RunPlanning && s.claims[k] == s.claims[|s.claims| - 1]
  {
  }

  /** A planner without power changes nothing, whatever it reports. */
  lemma PowerlessChangesNothing(s: System, staleAfter: nat, k: nat, now: Time)
    requires k < |s.claims| && !HasPower(s, k)
    ensures Do(s, staleAfter, Persist(k, now)) == s && Do(s, staleAfter, Fail(k, now)) == s
  {
  }

  ghost predicate SharesFence(s: System, k: nat) {
    Superseded(s, k) && s.claims[k] == s.claims[|s.claims| - 1]
  }

  /** All superseded planners are powerless exactly when none of them shares its timestamp with
      the latest claim, as long as planning goes on. */
  lemma SupersededPowerlessIff(s: System)
    requires Inv(s) && s.rows.state == RunPlanning
    ensures (forall k: nat :: Superseded(s, k) ==> !HasPower(s, k)) <==> (forall k: nat :: !SharesFence(s, k))
  {
    forall k: nat | Superseded(s, k) ensures HasPower(s, k) <==> SharesFence(s, k) {
      PowerIffFence(s, k);
    }
  }

  /** A takeover does not refresh the state clock, so two takeovers can carry the same timestamp;
      then a planner that was taken over still stores its plan. */
  lemma EqualTimestampsBreakTheFence(staleAfter: nat) returns (trace: seq<System>)
    ensures IsRun(staleAfter, trace) && |trace| == 5
    ensures Superseded(trace[3], 1) && HasPower(trace[3], 1)
    ensures trace[4].stored == [1] && |trace[4].claims| == 3
  {
    var t: Time := staleAfter + 1;
    var s0 := System(Rows(RunPending, 0, false, None), [], [], [RunPending]);
    var s1 := Do(s0, staleAfter, Claim(0));
    var s2 := Do(s1, staleAfter, Claim(t));
    var s3 := Do(s2, staleAfter, Claim(t));
    var s4 := Do(s3, staleAfter, Persist(1, t));
    assert Next(staleAfter, s0, s1) && Next(staleAfter, s1, s2) && Next(staleAfter, s2, s3) && Next(staleAfter, s3, s4);
    trace := [s0, s1, s2, s3, s4];
  }

  /** Claims are only ever appended, and only before a plan is stored. */
  lemma StepKeepsClaims(s: System, staleAfter: nat, a: Action)
    requires Inv(s) && Enabled(s, staleAfter, a)
    ensures s.claims <= Do(s, staleAfter, a).claims && s.stored <= Do(s, staleAfter, a).stored
    ensures s.stored != [] ==> Do(s, staleAfter, a).claims == s.claims && Do(s, staleAfter, a).stored == s.stored
  {
  }

  lemma {:induction false} RunKeepsClaims(staleAfter: nat, trace: seq<System>, i: nat, j: nat)
    requires IsRun(staleAfter, trace) && i <= j < |trace|
    ensures trace[i].claims <= trace[j].claims && trace[i].stored <= trace[j].stored
    ensures trace[i].stored != [] ==> trace[j].claims == trace[i].claims && trace[j].stored == trace[i].stored
    decreases j
  {
    if i < j {
      var h := j - 1;
      RunKeepsClaims(staleAfter, trace, i, h);
      RunKeepsInv(staleAfter, trace, h);
      assert Next(staleAfter, trace[h], trace[j]);
      var a :| Enabled(trace[h], staleAfter, a) && trace[j] == Do(trace[h], staleAfter, a);
      StepKeepsClaims(trace[h], staleAfter, a);
    }
  }

  /** With distinct claim timestamps: once taken over, a planner changes nothing for the rest of
      the run, and whoever stored the plan is the last claimer there ever is. */
  lemma FenceHolds(staleAfter: nat, trace: seq<System>, i: nat, j: nat, k: nat, now: Time)
    requires IsRun(staleAfter, trace) && i <= j < |trace| && DistinctClaims(trace[j])
    ensures Superseded(trace[i], k) ==>
              && k < |trace[j].claims|
              && Do(trace[j], staleAfter, Persist(k, now)) == trace[j]
              && Do(trace[j], staleAfter, Fail(k, now)) == trace[j]
    ensures k in trace[i].stored ==> trace[j].stored == [k] && k + 1 == |trace[j].claims|
  {
    RunKeepsClaims(staleAfter, trace, i, j);
    RunKeepsInv(staleAfter, trace, i);
    RunKeepsInv(staleAfter, trace, j);
    if Superseded(trace[i], k) {
      PowerIffFence(trace[j], k);
      PowerlessChangesNothing(trace[j], staleAfter, k, now);
    }
  }

  // ----- The planner's database calls

  /** The planning calls of RunPlanningService, over the rows of one run. */
  class PlanningStore {
    const staleAfter: nat
    var state: RunStatus
    var enteredAt: Time
    var cancelRequested: bool
    var attempt: Option<Attempt>

    ghost function View(): Rows
      reads this
    {
      Rows(state, enteredAt, cancelRequested, attempt)
    }

    constructor (staleAfter: nat, now: Time)
      ensures View() == Rows(RunPending, now, false, None) && this.staleAfter == staleAfter
    {
      this.staleAfter := staleAfter;
      state, enteredAt, cancelRequested, attempt := RunPending, now, false, None;
    }

    /** Returns the fence, or nothing when the run cannot be claimed. */
    method ClaimRun(now: Time) returns (fence: Option<Time>)
      modifies this
      ensures fence == if Claimable(old(View()), staleAfter, now) then Some(now) else None
      ensures View() == if fence.Some? then ClaimTx(old(View()), now) else old(View())
      ensures fence.Some? ==> Owns(View(), now)
    {
      if cancelRequested || !(state == RunPending || (state == RunPlanning && enteredAt < now - staleAfter)) {
        return None;
      }
      if state != RunPlanning {
        state := RunPlanning;
        enteredAt := now;
      }
      attempt := Some(Attempt(AttemptRunning, now));
      fence := Some(now);
    }

    /** Stores nothing and reports lost ownership unless the caller still owns the run. */
    method PersistPlan(fence: Time, now: Time) returns (stored: bool)
      modifies this
      ensures View() == PersistTx(old(View()), fence, now)
      ensures stored <==> Owns(old(View()), fence)
      ensures stored ==> state in RunTargets(old(state)) && forall f :: !Owns(View(), f)
    {
      if state != RunPlanning || cancelRequested {
        return false;
      }
      if attempt == None || attempt.value.status != AttemptRunning || attempt.value.startedAt != fence {
        return false;
      }
      state := RunExecuting;
      enteredAt := now;
      attempt := Some(attempt.value.(status := AttemptCompleted));
      stored := true;
    }

    method FailRun(fence: Time, now: Time)
      modifies this
      ensures View() == FailTx(old(View()), fence, now)
      ensures View() != old(View()) ==> state in RunTargets(old(state))
    {
      if state != RunPlanning || cancelRequested || attempt == None
         || attempt.value.status != AttemptRunning || attempt.value.startedAt != fence {
        return;
      }
      state := RunFailed;
      enteredAt := now;
      attempt := Some(attempt.value.(status := AttemptFailed));
    }

    /** Returns false for the conflict reply on a finished run. */
    method CancelRun(now: Time) returns (accepted: bool)
      modifies this
      ensures View() == CancelTx(old(View()), now)
      ensures accepted <==> !RunTerminal(old(state))
      ensures accepted ==> cancelRequested && forall f :: !Owns(View(), f)
    {
      if RunTerminal(state) {
        return false;
      }
      cancelRequested := true;
      if state == RunPending || state == RunPlanning {
        state := RunCancelled;
        enteredAt := now;
        if attempt.Some? && attempt.value.status == AttemptRunning {
          attempt := Some(attempt.value.(status := AttemptCancelled));
        }
      }
      accepted := true;
    }
  }
}
