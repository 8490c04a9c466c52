/** Tool calls under one idempotency key: owner election, bounded retry, uncertain outcomes and
    replay, for any number of concurrent and repeated callers. Each transaction is one step. */
module ToolGateway {
  import opened Options

  datatype SideEffect = NoEffect | LocalEffect | ExternalEffect
  datatype ReplayPolicy = Never | Safe | Idempotent

  datatype ToolSpec = ToolSpec(
    maxAttempts: nat, sideEffect: SideEffect, replay: ReplayPolicy, approvalRequired: bool,
    retryOnTimeout: bool, retryOnTransient: bool)

  /** What the registry enforces when a tool is registered. */
  predicate ValidSpec(spec: ToolSpec) {
    1 <= spec.maxAttempts <= 20 && (spec.replay == Never ==> spec.maxAttempts == 1)
  }

  /** The fields that a replay must repeat exactly. */
  datatype Call = Call(
    callId: nat, runId: nat, taskId: nat, attemptId: nat, requestedBy: nat,
    toolName: nat, toolVersion: nat, arguments: nat)

  // ----- The attempt loop of the owner

  /** How one executor call, with result validation and persistence, can end. */
  datatype Attempt = Succeeded(output: nat) | UnknownEffect | TimedOut | TransientError | OtherError

  datatype Terminal = Completed | Failed | NeedsReconciliation

  datatype Verdict = Verdict(status: Terminal, output: Option<nat>, attempts: nat)

  predicate MayRetry(spec: ToolSpec, attempts: nat) {
    spec.replay != Never && attempts < spec.maxAttempts
  }

  /** This outcome of attempt n leads to another attempt. */
  predicate Retries(spec: ToolSpec, a: Attempt, n: nat) {
    && spec.sideEffect != ExternalEffect
    && ((a.TimedOut? && spec.retryOnTimeout) || (a.TransientError? && spec.retryOnTransient))
    && MayRetry(spec, n)
  }

  /** The verdict on an attempt that is not retried. An external tool that timed out or hit a
      transient error is quarantined; any other error is a failure for every kind of tool. */
  function Conclude(spec: ToolSpec, a: Attempt, n: nat): Verdict {
    match a
    case Succeeded(output) => Verdict(Completed, Some(output), n)
    case UnknownEffect => Verdict(NeedsReconciliation, None, n)
    case TimedOut => Verdict(if spec.sideEffect == ExternalEffect then NeedsReconciliation else Failed, None, n)
    case TransientError => Verdict(if spec.sideEffect == ExternalEffect then NeedsReconciliation else Failed, None, n)
    case OtherError => Verdict(Failed, None, n)
  }

  /** A tool that must not be started twice. */
  predicate OneShot(spec: ToolSpec) {
    spec.sideEffect == ExternalEffect || spec.replay == Never
  }

  /** The loop of the owner: it stops at the first outcome that is not retried, within the allowed
      attempts, and never runs off its end. */
  method ExecuteOwned(spec: ToolSpec, outcome: nat -> Attempt) returns (v: Verdict)
    requires ValidSpec(spec)
    ensures 1 <= v.attempts <= spec.maxAttempts
    ensures OneShot(spec) ==> v.attempts == 1
    ensures forall n | 1 <= n < v.attempts :: Retries(spec, outcome(n), n)
    ensures !Retries(spec, outcome(v.attempts), v.attempts)
    ensures v == Conclude(spec, outcome(v.attempts), v.attempts)
  {
    var attempts := 0;
    while attempts < spec.maxAttempts
      invariant attempts < spec.maxAttempts && (OneShot(spec) ==> attempts == 0)
      invariant forall n | 1 <= n <= attempts :: Retries(spec, outcome(n), n)
      decreases spec.maxAttempts - attempts
    {
      attempts := attempts + 1;
      match outcome(attempts) {
        case Succeeded(output) =>
          return Verdict(Completed, Some(output), attempts);
        case UnknownEffect =>
          return Verdict(NeedsReconciliation, None, attempts);
        case TimedOut =>
          if spec.sideEffect == ExternalEffect {
            return Verdict(NeedsReconciliation, None, attempts);
          }
          if !spec.retryOnTimeout || !MayRetry(spec, attempts) {
            return Verdict(Failed, None, attempts);
          }
        case TransientError =>
          if spec.sideEffect == ExternalEffect {
            return Verdict(NeedsReconciliation, None, attempts);
          }
          if !spec.retryOnTransient || !MayRetry(spec, attempts) {
            return Verdict(Failed, None, attempts);
          }
        case OtherError =>
          return Verdict(Failed, None, attempts);
      }
    }
    assert false;
  }

  // ----- The row and its transactions

  datatype Status = WaitingForApproval | Claimed | Finished(verdict: Verdict)

  datatype Row = Row(call: Call, status: Status)

  /** insert ... on conflict do nothing */
  function ClaimTx(row: Option<Row>, call: Call, initial: Status): Option<Row> {
    if row == None then Some(Row(call, initial)) else row
  }

  /** Only a waiting row is promoted. */
  function PromoteTx(row: Option<Row>, call: Call): Option<Row> {
    if row == Some(Row(call, WaitingForApproval)) then Some(Row(call, Claimed)) else row
  }

  /** The first verdict wins. */
  function PersistTx(row: Option<Row>, v: Verdict): Option<Row> {
    if row.Some? && !row.value.status.Finished? then Some(row.value.(status := Finished(v))) else row
  }

  /** Where one caller stands. */
  datatype Phase =
    | Claiming(call: Call)
    | Approving(call: Call)
    | Owning(call: Call, attempts: nat)
    | InFlight(call: Call, attempts: nat)
    | Completing(call: Call, output: nat)
    | Concluding(call: Call, verdict: Verdict)
    | Waiting(call: Call)
    | Answered(verdict: Verdict, replayed: bool)
    | Raised

  /** The row of the key, the callers by arrival, the owner if one was elected, and how often the
      executor was started. */
  datatype System = System(row: Option<Row>, callers: map<nat, Phase>, owner: Option<nat>, starts: nat)

  type Registry = Call -> ToolSpec

  datatype Action =
    | Arrive(caller: nat, call: Call)
    | ArriveApproved(caller: nat, call: Call, output: nat)
    | ClaimRow(caller: nat, idTaken: bool)
    | Promote(caller: nat, granted: bool)
    | Start(caller: nat)
    | Finish(caller: nat, attempt: Attempt)
    | FinishUnseen(caller: nat, output: nat, attempt: Attempt)
    | CheckCompletion(caller: nat)
    | Persist(caller: nat)
    | Poll(caller: nat)
    | Abandon(caller: nat)

  predicate Enabled(registry: Registry, s: System, a: Action) {
    match a
    case Arrive(p, _) => p !in s.callers
    case ArriveApproved(p, _, _) => p !in s.callers
    case ClaimRow(p, _) => p in s.callers && s.callers[p].Claiming?
    case Promote(p, _) => p in s.callers && s.callers[p].Approving?
    case Start(p) =>
      p in s.callers && s.callers[p].Owning? && s.callers[p].attempts < registry(s.callers[p].call).maxAttempts
    case Finish(p, _) => p in s.callers && s.callers[p].InFlight?
    case FinishUnseen(p, _, attempt) => p in s.callers && s.callers[p].InFlight? && !attempt.Succeeded?
    case CheckCompletion(p) => p in s.callers && s.callers[p].Completing?
    case Persist(p) => p in s.callers && s.callers[p].Concluding?
    case Poll(p) => p in s.callers && s.callers[p].Waiting?
    case Abandon(p) => p in s.callers && !s.callers[p].Answered?
  }

  function Goes(s: System, p: nat, phase: Phase): System {
    s.(callers := s.callers[p := phase])
  }

  /** The claim transaction: insert, or read and compare. */
  function DoClaim(registry: Registry, s: System, p: nat, call: Call, idTaken: bool): System {
    var approval := registry(call).approvalRequired;
    var claimed := s.(row := ClaimTx(s.row, call, if approval then WaitingForApproval else Claimed));
    match s.row
    case None =>
      if idTaken then Goes(s, p, Raised)
      else if approval then Goes(claimed, p, Approving(call))
      else Goes(claimed.(owner := Some(p)), p, Owning(call, 0))
    case Some(row) =>
      if row.call != call then Goes(s, p, Raised)
      else if row.status.Finished? then Goes(s, p, Answered(row.status.verdict, true))
      else if approval then Goes(s, p, Approving(call))
      else Goes(s, p, Waiting(call))
  }

  /** The promotion of an approved call: only a waiting row yields an owner. */
  function DoPromote(s: System, p: nat, call: Call, granted: bool): System {
    if !granted then Goes(s, p, Raised)
    else if s.row == Some(Row(call, WaitingForApproval)) then
      Goes(s.(row := PromoteTx(s.row, call), owner := Some(p)), p, Owning(call, 0))
    else Goes(s, p, Waiting(call))
  }

  /** The terminal transaction: the first verdict wins. */
  function DoPersist(s: System, p: nat, v: Verdict): System {
    if s.row == None then Goes(s, p, Raised)
    else if s.row.value.status.Finished? then Goes(s, p, Answered(s.row.value.status.verdict, true))
    else Goes(s.(row := PersistTx(s.row, v)), p, Answered(v, false))
  }

  /** The first transaction of complete_approved. */
  function DoCheckCompletion(s: System, p: nat, call: Call, output: nat): System {
    if s.row == None || s.row.value.call != call then Goes(s, p, Raised)
    else match s.row.value.status
      case Finished(v) =>
        if v.status == Completed then Goes(s, p, Answered(v, true)) else Goes(s, p, Raised)
      case _ => Goes(s, p, Concluding(call, Verdict(Completed, Some(output), 1)))
  }

  /** What the owner does after an attempt: try again or conclude. */
  function DoFinish(registry: Registry, s: System, p: nat, c: Call, n: nat, attempt: Attempt): System {
    if Retries(registry(c), attempt, n) then Goes(s, p, Owning(c, n))
    else Goes(s, p, Concluding(c, Conclude(registry(c), attempt, n)))
  }

  /** FinishUnseen is a terminal write that commits while the owner sees an error, so that the owner
      goes on as after a failed attempt. */
  function Do(registry: Registry, s: System, a: Action): System
    requires Enabled(registry, s, a)
  {
    match a
    case Arrive(p, call) => Goes(s, p, Claiming(call))
    case ArriveApproved(p, call, output) => Goes(s, p, Completing(call, output))
    case ClaimRow(p, idTaken) => DoClaim(registry, s, p, s.callers[p].call, idTaken)
    case Promote(p, granted) => DoPromote(s, p, s.callers[p].call, granted)
    case Start(p) =>
      Goes(s.(starts := s.starts + 1), p, InFlight(s.callers[p].call, s.callers[p].attempts + 1))
    case Finish(p, attempt) => DoFinish(registry, s, p, s.callers[p].call, s.callers[p].attempts, attempt)
    case FinishUnseen(p, output, attempt) =>
      var c, n := s.callers[p].call, s.callers[p].attempts;
      DoFinish(registry, s.(row := PersistTx(s.row, Verdict(Completed, Some(output), n))), p, c, n, attempt)
    case CheckCompletion(p) => DoCheckCompletion(s, p, s.callers[p].call, s.callers[p].output)
    case Persist(p) => DoPersist(s, p, s.callers[p].verdict)
    case Poll(p) =>
      if s.row.Some? && s.row.value.status.Finished?
      then Goes(s, p, Answered(s.row.value.status.verdict, true)) else s
    case Abandon(p) => Goes(s, p, Raised)
  }

  ghost predicate Init(s: System) {
    s == System(None, map[], None, 0)
  }

  ghost predicate Next(registry: Registry, s: System, s': System) {
    exists a :: Enabled(registry, s, a) && s' == Do(registry, s, a)
  }

  ghost predicate IsRun(registry: Registry, trace: seq<System>) {
    |trace| > 0 && Init(trace[0])
    && forall i, j | 0 <= i < j < |trace| && j == i + 1 :: Next(registry, trace[i], trace[j])
  }

  ghost predicate ValidRegistry(registry: Registry) {
    forall c :: ValidSpec(registry(c))
  }

  // ----- What every step keeps

  ghost predicate PhaseInv(registry: Registry, s: System, p: nat, phase: Phase) {
    match phase
    case Claiming(_) => true
    case Completing(_, _) => true
    case Raised => true
    case Approving(c) => s.row.Some? && s.row.value.call == c && registry(c).approvalRequired
    case Waiting(c) => s.row.Some? && s.row.value.call == c
    case Concluding(c, _) => s.row.Some? && s.row.value.call == c
    case Owning(c, n) =>
      s.row.Some? && s.row.value.call == c && s.owner == Some(p) && n == s.starts < registry(c).maxAttempts
      && (n > 0 ==> !OneShot(registry(c)))
    case InFlight(c, n) =>
      s.row.Some? && s.row.value.call == c && s.owner == Some(p) && 1 <= n == s.starts <= registry(c).maxAttempts
      && (n > 1 ==> !OneShot(registry(c)))
    case Answered(v, _) => s.row.Some? && s.row.value.status == Finished(v)
  }

  /** A row waits for approval only if its tool asks for it and nobody owns it; whoever owns it,
      the executor starts stay within the tool's attempts, and a one-shot tool starts once. */
  ghost predicate RowInv(registry: Registry, s: System) {
    && (s.row == None ==> s.owner == None)
    && (s.row.Some? && s.row.value.status == WaitingForApproval ==>
          s.owner == None && registry(s.row.value.call).approvalRequired)
    && (s.row.Some? && !registry(s.row.value.call).approvalRequired ==> s.owner.Some?)
    && (s.owner == None ==> s.starts == 0)
    && (s.row.Some? ==> s.starts <= registry(s.row.value.call).maxAttempts)
    && (s.row.Some? && OneShot(registry(s.row.value.call)) ==> s.starts <= 1)
  }

  ghost predicate Inv(registry: Registry, s: System) {
    RowInv(registry, s) && forall p | p in s.callers :: PhaseInv(registry, s, p, s.callers[p])
  }

  lemma ElectionKeepsInv(registry: Registry, s: System, a: Action)
    requires ValidRegistry(registry) && Inv(registry, s) && Enabled(registry, s, a) && (a.ClaimRow? || a.Promote?)
    ensures Inv(registry, Do(registry, s, a))
  {
    assert PhaseInv(registry, s, a.caller, s.callers[a.caller]);
  }

  lemma AttemptKeepsInv(registry: Registry, s: System, a: Action)
    requires ValidRegistry(registry) && Inv(registry, s) && Enabled(registry, s, a)
    requires a.Start? || a.Finish? || a.FinishUnseen?
    ensures Inv(registry, Do(registry, s, a))
  {
    assert PhaseInv(registry, s, a.caller, s.callers[a.caller]);
  }

  lemma VerdictKeepsInv(registry: Registry, s: System, a: Action)
    requires ValidRegistry(registry) && Inv(registry, s) && Enabled(registry, s, a)
    requires a.Persist? || a.CheckCompletion?
    ensures Inv(registry, Do(registry, s, a))
  {
    assert PhaseInv(registry, s, a.caller, s.callers[a.caller]);
  }

  lemma CallerKeepsInv(registry: Registry, s: System, a: Action)
    requires Inv(registry, s) && Enabled(registry, s, a)
    requires a.Arrive? || a.ArriveApproved? || a.Poll? || a.Abandon?
    ensures Inv(registry, Do(registry, s, a))
  {
  }

  lemma StepKeepsInv(registry: Registry, s: System, a: Action)
    requires ValidRegistry(registry) && Inv(registry, s) && Enabled(registry, s, a)
    ensures Inv(registry, Do(registry, s, a))
  {
    if a.ClaimRow? || a.Promote? {
      ElectionKeepsInv(registry, s, a);
    } else if a.Start? || a.Finish? || a.FinishUnseen? {
      AttemptKeepsInv(registry, s, a);
    } else if a.Persist? || a.CheckCompletion? {
      VerdictKeepsInv(registry, s, a);
    } else {
      CallerKeepsInv(registry, s, a);
    }
  }

  lemma {:induction false} RunKeepsInv(registry: Registry, trace: seq<System>, i: nat)
    requires ValidRegistry(registry) && IsRun(registry, trace) && i < |trace|
    ensures Inv(registry, trace[i])
  {
    if i > 0 {
      var h := i - 1;
      RunKeepsInv(registry, trace, h);
      assert Next(registry, trace[h], trace[i]);
      var a :| Enabled(registry, trace[h], a) && trace[i] == Do(registry, trace[h], a);
      StepKeepsInv(registry, trace[h], a);
    }
  }

  /** The call of the row, its owner and its verdict are settled once and for all; an answer given
      to a caller stays given. */
  ghost predicate Settles(s: System, s': System) {
    && (s.row.Some? ==> s'.row.Some? && s'.row.value.call == s.row.value.call)
    && (s.row.Some? && s.row.value.status.Finished? ==> s'.row == s.row)
    && (s.owner.Some? ==> s'.owner == s.owner)
    && s.starts <= s'.starts
    && (forall p | p in s.callers && s.callers[p].Answered? :: p in s'.callers && s'.callers[p] == s.callers[p])
  }

  lemma StepSettles(registry: Registry, s: System, a: Action)
    requires Inv(registry, s) && Enabled(registry, s, a)
    ensures Settles(s, Do(registry, s, a))
  {
    if !a.Arrive? && !a.ArriveApproved? { assert PhaseInv(registry, s, a.caller, s.callers[a.caller]); }
  }

  lemma {:induction false} RunSettles(registry: Registry, trace: seq<System>, i: nat, j: nat)
    requires ValidRegistry(registry) && IsRun(registry, trace) && i <= j < |trace|
    ensures Settles(trace[i], trace[j])
    decreases j
  {
    if i < j {
      var h := j - 1;
      RunSettles(registry, trace, i, h);
      RunKeepsInv(registry, trace, h);
      assert Next(registry, trace[h], trace[j]);
      var a :| Enabled(registry, trace[h], a) && trace[j] == Do(registry, trace[h], a);
      StepSettles(registry, trace[h], a);
    }
  }

  /** The executor runs in this caller's hands. */
  predicate Executing(phase: Phase) {
    phase.Owning? || phase.InFlight?
  }

  /** Across all callers and all time: at most one caller ever executes, the executor is started
      within the tool's attempts and a one-shot tool at most once, and all answers, first-hand or
      replayed, early or late, carry the same verdict. */
  lemma OneOwnerOneVerdict(registry: Registry, trace: seq<System>, i: nat, j: nat, p: nat, q: nat)
    requires ValidRegistry(registry) && IsRun(registry, trace) && i <= j < |trace|
    requires p in trace[i].callers && q in trace[j].callers
    ensures Executing(trace[i].callers[p]) && Executing(trace[j].callers[q]) ==> p == q
    ensures trace[j].row.Some? ==> trace[j].starts <= registry(trace[j].row.value.call).maxAttempts
    ensures trace[j].row.Some? && OneShot(registry(trace[j].row.value.call)) ==> trace[j].starts <= 1
    ensures trace[i].callers[p].Answered? && trace[j].callers[q].Answered? ==>
              trace[i].callers[p].verdict == trace[j].callers[q].verdict
    ensures trace[i].callers[p].Answered? ==>
              trace[j].row.Some? && trace[j].row.value.status == Finished(trace[i].callers[p].verdict)
  {
    RunSettles(registry, trace, i, j);
    RunKeepsInv(registry, trace, i);
    RunKeepsInv(registry, trace, j);
    assert PhaseInv(registry, trace[i], p, trace[i].callers[p]);
    assert PhaseInv(registry, trace[j], q, trace[j].callers[q]);
  }

  /** A call is started only for the exact call that the key is bound to, and an approval-bound
      call only after a promotion: before one, nothing has started. */
  lemma NoStartBeforeElection(registry: Registry, trace: seq<System>, i: nat)
    requires ValidRegistry(registry) && IsRun(registry, trace) && i < |trace|
    requires trace[i].row == None || trace[i].row.value.status == WaitingForApproval
    ensures trace[i].starts == 0 && trace[i].owner == None
    ensures forall p | p in trace[i].callers :: !Executing(trace[i].callers[p])
  {
    RunKeepsInv(registry, trace, i);
    forall p | p in trace[i].callers ensures !Executing(trace[i].callers[p]) {
      assert PhaseInv(registry, trace[i], p, trace[i].callers[p]);
    }
  }

  // ----- The gateway's database calls

  datatype ClaimReply = Elected | Existing(row: Row) | Conflict

  /** The execution row of one idempotency key. */
  class ExecutionStore {
    var row: Option<Row>

    constructor ()
      ensures row == None
    {
      row := None;
    }

    /** Inserts or reads the row; a caller whose call differs in any field gets a conflict. */
    method Claim(call: Call, initial: Status, idTaken: bool) returns (r: ClaimReply)
      modifies this
      ensures row == if old(row) == None && idTaken then None else ClaimTx(old(row), call, initial)
      ensures r == Elected <==> old(row) == None && !idTaken
      ensures r.Existing? ==> row == old(row) == Some(r.row) && r.row.call == call
      ensures r == Conflict <==> if old(row) == None then idTaken else old(row).value.call != call
    {
      if row == None {
        if idTaken {
          return Conflict;
        }
        row := Some(Row(call, initial));
        return Elected;
      }
      r := if row.value.call != call then Conflict else Existing(row.value);
    }

    /** True for the one caller that moves the row from waiting to claimed. */
    method PromoteApproved(call: Call) returns (promoted: bool)
      modifies this
      ensures row == PromoteTx(old(row), call)
      ensures promoted <==> row != old(row)
      ensures promoted ==> PromoteTx(row, call) == row
    {
      promoted := row.Some? && row.value.call == call && row.value.status == WaitingForApproval;
      if promoted {
        row := Some(row.value.(status := Claimed));
      }
    }

    /** The stored verdict, the caller's own if it came first; nothing if the row is missing. */
    method PersistTerminal(v: Verdict) returns (stored: Option<Verdict>, replayed: bool)
      modifies this
      ensures row == PersistTx(old(row), v)
      ensures stored.Some? <==> row.Some?
      ensures stored.Some? ==> row.value.status == Finished(stored.value)
      ensures replayed <==> old(row).Some? && old(row).value.status.Finished?
      ensures forall w :: PersistTx(row, w) == row
    {
      if row == None {
        return None, false;
      }
      if row.value.status.Finished? {
        return Some(row.value.status.verdict), true;
      }
      row := Some(row.value.(status := Finished(v)));
      return Some(v), false;
    }
  }
}
