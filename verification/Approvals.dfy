/** Approvals: requests bound to one exact call, decisions before expiry, and authorization of
    exactly what was requested. A digest is the content it was computed from, and an approval id
    is the pair it is derived from. Each transaction is one step. */
module Approvals {
  import opened Options

  type Time = int

  /** All fields of a tool call request. */
  datatype Call = Call(
    callId: nat, runId: nat, taskId: nat, attemptId: nat, requestedBy: nat,
    toolName: nat, toolVersion: nat, arguments: nat, idempotencyKey: nat)

  datatype Context = Context(
    projectId: nat, repositoryId: nat, baseline: nat, runId: nat, taskId: nat, attemptId: nat, role: nat)

  datatype ApprovalId = ApprovalId(callId: nat, expiresAt: Time)

  /** What the call hash covers. */
  datatype Digest = Digest(call: Call, projectId: nat, repositoryId: nat, baseline: nat, expiresAt: Time)

  datatype Status = Pending | Approved | Rejected | Expired

  datatype Row = Row(
    callId: nat, projectId: nat, repositoryId: nat, baseline: nat, callHash: Digest,
    status: Status, approver: Option<nat>, expiresAt: Time, decidedAt: Option<Time>)

  /** What happened, as the audit log tells it. */
  datatype Entry =
    | Requested(id: ApprovalId, digest: Digest)
    | Granted(id: ApprovalId, approver: nat, at: Time)
    | Denied(id: ApprovalId, approver: nat, at: Time)
    | Lapsed(id: ApprovalId, at: Time)

  /** Tool executions by call id, approvals by id, and the audit log. */
  datatype System = System(executions: map<nat, Call>, approvals: map<ApprovalId, Row>, log: seq<Entry>)

  datatype Authorization = Authorization(id: ApprovalId, digest: Digest, approver: nat, decidedAt: Time)

  // ----- Transactions

  predicate InScope(call: Call, ctx: Context) {
    call.runId == ctx.runId && call.taskId == ctx.taskId && call.attemptId == ctx.attemptId
    && call.requestedBy == ctx.role
  }

  /** insert ... on conflict do nothing, then read by call id: neither id nor key may be bound to
      another call. */
  predicate ExecutionMatches(executions: map<nat, Call>, call: Call) {
    if call.callId in executions then executions[call.callId] == call
    else forall id | id in executions :: executions[id].idempotencyKey != call.idempotencyKey
  }

  predicate HasApproval(s: System, callId: nat) {
    exists id :: id in s.approvals && s.approvals[id].callId == callId
  }

  /** The digest of a call in its scope. */
  function DigestOf(call: Call, ctx: Context, expiresAt: Time): Digest {
    Digest(call, ctx.projectId, ctx.repositoryId, ctx.baseline, expiresAt)
  }

  function NewApproval(call: Call, ctx: Context, expiresAt: Time): Row {
    Row(call.callId, ctx.projectId, ctx.repositoryId, ctx.baseline, DigestOf(call, ctx, expiresAt),
        Pending, None, expiresAt, None)
  }

  /** A request either raises, finds the approval of its call, or creates one. */
  function RequestTx(s: System, ttl: nat, call: Call, ctx: Context, now: Time): System {
    if !InScope(call, ctx) || !ExecutionMatches(s.executions, call) then s
    else
      var executions := s.executions[call.callId := call];
      var id := ApprovalId(call.callId, now + ttl);
      var digest := DigestOf(call, ctx, now + ttl);
      if HasApproval(s, call.callId) then s.(executions := executions)
      else System(
        executions,
        s.approvals[id := NewApproval(call, ctx, now + ttl)],
        s.log + [Requested(id, digest)])
  }

  /** A decision: the wrong digest raises, expiry overrides everything, a repeated identical
      decision is a no-op and a different one raises. The event id of an expiry can be used once. */
  function DecideTx(s: System, id: ApprovalId, approver: nat, approved: bool, expected: Digest, now: Time): System {
    if id !in s.approvals || s.approvals[id].callHash != expected then s
    else
      var row := s.approvals[id];
      if now >= row.expiresAt then
        if row.status == Expired then s
        else System(
          s.executions, s.approvals[id := row.(status := Expired, decidedAt := Some(now))], s.log + [Lapsed(id, now)])
      else if row.status != Pending then s
      else
        var target := if approved then Approved else Rejected;
        System(
          s.executions,
          s.approvals[id := row.(status := target, approver := Some(approver), decidedAt := Some(now))],
          s.log + [if approved then Granted(id, approver, now) else Denied(id, approver, now)])
  }

  /** The answer to an authorization; None stands for an exception. */
  function Authorized(
    s: System, id: ApprovalId, call: Call, ctx: Context, expectedApprover: Option<nat>, now: Time)
    : Option<Authorization>
  {
    if !InScope(call, ctx) || id !in s.approvals then None
    else
      var row := s.approvals[id];
      if now >= row.expiresAt then None
      else if row.status != Approved || row.approver == None || row.decidedAt == None then None
      else if expectedApprover.Some? && row.approver != expectedApprover then None
      else if row.projectId != ctx.projectId || row.repositoryId != ctx.repositoryId then None
      else if row.baseline != ctx.baseline then None
      else if row.callHash != DigestOf(call, ctx, row.expiresAt) then None
      else Some(Authorization(id, row.callHash, row.approver.value, row.decidedAt.value))
  }

  // ----- Runs

  datatype Action =
    | Request(ttl: nat, call: Call, ctx: Context, now: Time)
    | Decide(id: ApprovalId, approver: nat, approved: bool, expected: Digest, now: Time)
    | Execute(call: Call)

  /** Execute is the gateway inserting an execution row of its own. */
  function Do(s: System, a: Action): System {
    match a
    case Request(ttl, call, ctx, now) => RequestTx(s, ttl, call, ctx, now)
    case Decide(id, approver, approved, expected, now) => DecideTx(s, id, approver, approved, expected, now)
    case Execute(call) =>
      if ExecutionMatches(s.executions, call) then s.(executions := s.executions[call.callId := call]) else s
  }

  ghost predicate Init(s: System) {
    s == System(map[], map[], [])
  }

  ghost predicate Next(s: System, s': System) {
    exists a :: s' == Do(s, a)
  }

  ghost predicate IsRun(trace: seq<System>) {
    |trace| > 0 && Init(trace[0]) && forall i, j | 0 <= i < j < |trace| && j == i + 1 :: Next(trace[i], trace[j])
  }

  // ----- What every step keeps

  /** The row is bound to the execution of its call and to the id it was issued under. */
  ghost predicate BindingInv(s: System, id: ApprovalId, row: Row) {
    && id == ApprovalId(row.callId, row.expiresAt)
    && row.callId in s.executions
    && row.callHash == Digest(s.executions[row.callId], row.projectId, row.repositoryId, row.baseline, row.expiresAt)
    && Requested(id, row.callHash) in s.log
  }

  ghost predicate WasDenied(s: System, id: ApprovalId) {
    exists approver, at :: Denied(id, approver, at) in s.log
  }

  ghost predicate WasGranted(s: System, id: ApprovalId) {
    exists approver, at :: Granted(id, approver, at) in s.log
  }

  ghost predicate HasLapsed(s: System, id: ApprovalId) {
    exists at :: Lapsed(id, at) in s.log
  }

  /** The status tells exactly what the log says. */
  ghost predicate StatusInv(s: System, id: ApprovalId, row: Row) {
    && (row.status == Pending <==> !WasGranted(s, id) && !WasDenied(s, id) && !HasLapsed(s, id))
    && (row.status == Approved <==> WasGranted(s, id) && !HasLapsed(s, id))
    && (row.status == Rejected <==> WasDenied(s, id) && !HasLapsed(s, id))
    && !(WasGranted(s, id) && WasDenied(s, id))
    && (row.status == Approved ==>
          row.approver.Some? && row.decidedAt.Some? && Granted(id, row.approver.value, row.decidedAt.value) in s.log)
    && (forall approver, at | Granted(id, approver, at) in s.log :: at < row.expiresAt)
  }

  ghost predicate Inv(s: System) {
    && (forall id | id in s.approvals :: BindingInv(s, id, s.approvals[id]) && StatusInv(s, id, s.approvals[id]))
    && (forall a, b | a in s.approvals && b in s.approvals && s.approvals[a].callId == s.approvals[b].callId :: a == b)
    && (forall e | e in s.log :: e.id in s.approvals)
    && (forall x | x in s.executions :: s.executions[x].callId == x)
  }

  /** Bound executions are never rebound. */
  ghost predicate KeepsExecutions(s: System, s': System) {
    forall x | x in s.executions :: x in s'.executions && s'.executions[x] == s.executions[x]
  }

  ghost predicate RowInv(s: System, id: ApprovalId, row: Row) {
    BindingInv(s, id, row) && StatusInv(s, id, row)
  }

  /** A log entry about one approval says nothing about another. */
  lemma OtherRowKept(s: System, s': System, e: Entry, id: ApprovalId, row: Row)
    requires RowInv(s, id, row) && KeepsExecutions(s, s') && s'.log == s.log + [e] && e.id != id
    ensures RowInv(s', id, row)
  {
    forall x: Entry | x.id == id ensures x in s'.log <==> x in s.log {}
  }

  /** The decided row after its log entry. */
  lemma DecidedRow(s: System, s': System, e: Entry, id: ApprovalId, row: Row, row': Row)
    requires RowInv(s, id, row) && s'.executions == s.executions && s'.log == s.log + [e] && e.id == id
    requires row' == row.(status := row'.status, approver := row'.approver, decidedAt := row'.decidedAt)
    requires match e
             case Granted(_, approver, at) =>
               row.status == Pending && row'.status == Approved && at < row.expiresAt
               && row'.approver == Some(approver) && row'.decidedAt == Some(at)
             case Denied(_, _, _) => row.status == Pending && row'.status == Rejected
             case Lapsed(_, _) => row'.status == Expired
             case Requested(_, _) => false
    ensures RowInv(s', id, row')
  {
    assert e in s'.log;
    forall x ensures x in s'.log <==> x in s.log || x == e {}
    match e
    case Granted(_, approver, at) => assert WasGranted(s', id);
    case Denied(_, approver, at) => assert WasDenied(s', id);
    case Lapsed(_, at) => assert HasLapsed(s', id);
  }

  lemma DecideKeepsInv(s: System, id: ApprovalId, approver: nat, approved: bool, expected: Digest, now: Time)
    requires Inv(s)
    ensures Inv(DecideTx(s, id, approver, approved, expected, now))
  {
    var s' := DecideTx(s, id, approver, approved, expected, now);
    if s' != s {
      var e := s'.log[|s.log|];
      assert s'.log == s.log + [e] && e.id == id;
      DecidedRow(s, s', e, id, s.approvals[id], s'.approvals[id]);
      forall x | x in s'.approvals && x != id ensures RowInv(s', x, s'.approvals[x]) {
        OtherRowKept(s, s', e, x, s.approvals[x]);
      }
    }
  }

  /** Binding one more execution keeps everything. */
  lemma ExecutionKeepsInv(s: System, call: Call)
    requires Inv(s) && ExecutionMatches(s.executions, call)
    ensures Inv(s.(executions := s.executions[call.callId := call]))
  {
    var s' := s.(executions := s.executions[call.callId := call]);
    forall id | id in s.approvals ensures RowInv(s', id, s'.approvals[id]) {
      assert RowInv(s, id, s.approvals[id]);
    }
  }

  lemma RequestKeepsInv(s: System, ttl: nat, call: Call, ctx: Context, now: Time)
    requires Inv(s)
    ensures Inv(RequestTx(s, ttl, call, ctx, now))
  {
    if InScope(call, ctx) && ExecutionMatches(s.executions, call) {
      ExecutionKeepsInv(s, call);
      if !HasApproval(s, call.callId) {
        CreateKeepsInv(s.(executions := s.executions[call.callId := call]), ttl, call, ctx, now);
      }
    }
  }

  lemma CreateKeepsInv(s: System, ttl: nat, call: Call, ctx: Context, now: Time)
    requires Inv(s) && call.callId in s.executions && s.executions[call.callId] == call
    requires !HasApproval(s, call.callId)
    ensures var id := ApprovalId(call.callId, now + ttl);
            var digest := DigestOf(call, ctx, now + ttl);
            Inv(System(
              s.executions,
              s.approvals[id := NewApproval(call, ctx, now + ttl)],
              s.log + [Requested(id, digest)]))
  {
    var id := ApprovalId(call.callId, now + ttl);
    var digest := DigestOf(call, ctx, now + ttl);
    var row := NewApproval(call, ctx, now + ttl);
    var s' := System(s.executions, s.approvals[id := row], s.log + [Requested(id, digest)]);
    assert id !in s.approvals;
    NewRow(s, s', id, row);
    forall x | x in s'.approvals && x != id ensures RowInv(s', x, s'.approvals[x]) {
      OtherRowKept(s, s', Requested(id, digest), x, s.approvals[x]);
    }
  }

  lemma NewRow(s: System, s': System, id: ApprovalId, row: Row)
    requires (forall e | e in s.log :: e.id in s.approvals) && id !in s.approvals
    requires s'.log == s.log + [Requested(id, row.callHash)]
    requires id == ApprovalId(row.callId, row.expiresAt) && row.callId in s'.executions && row.status == Pending
    requires row.callHash
          == Digest(s'.executions[row.callId], row.projectId, row.repositoryId, row.baseline, row.expiresAt)
    ensures RowInv(s', id, row)
  {
    assert s'.log[|s.log|] == Requested(id, row.callHash);
    forall x: Entry | x.id == id && x in s'.log ensures x.Requested? {}
  }

  lemma StepKeepsInv(s: System, a: Action)
    requires Inv(s)
    ensures Inv(Do(s, a))
  {
    match a
    case Request(ttl, call, ctx, now) => RequestKeepsInv(s, ttl, call, ctx, now);
    case Decide(id, approver, approved, expected, now) => DecideKeepsInv(s, id, approver, approved, expected, now);
    case Execute(call) => if ExecutionMatches(s.executions, call) { ExecutionKeepsInv(s, call); }
  }

  lemma {:induction false} RunKeepsInv(trace: seq<System>, i: nat)
    requires IsRun(trace) && i < |trace|
    ensures Inv(trace[i])
  {
    if i > 0 {
      var h := i - 1;
      RunKeepsInv(trace, h);
      assert Next(trace[h], trace[i]);
      var a :| trace[i] == Do(trace[h], a);
      StepKeepsInv(trace[h], a);
    }
  }

  /** The binding of an approval never changes, refusal and expiry are final, and an approval is
      granted only to a pending row and only before it expires. */
  ghost predicate Proceeds(s: System, s': System) {
    && s.log <= s'.log
    && (forall id | id in s.approvals ::
          && id in s'.approvals
          && s'.approvals[id].callHash == s.approvals[id].callHash
          && s'.approvals[id].expiresAt == s.approvals[id].expiresAt
          && (s.approvals[id].status == Rejected || s.approvals[id].status == Expired ==>
                s'.approvals[id].status == Rejected || s'.approvals[id].status == Expired))
  }

  lemma RequestProceeds(s: System, ttl: nat, call: Call, ctx: Context, now: Time)
    requires Inv(s)
    ensures var s' := RequestTx(s, ttl, call, ctx, now);
            && s.log <= s'.log
            && (forall id | id in s.approvals :: id in s'.approvals && s'.approvals[id] == s.approvals[id])
            && (forall id | id in s'.approvals && id !in s.approvals :: s'.approvals[id].status == Pending)
  {
    var id := ApprovalId(call.callId, now + ttl);
    if id in s.approvals {
      assert BindingInv(s, id, s.approvals[id]);
      assert HasApproval(s, call.callId);
    }
  }

  /** A decision touches at most the row it names, and moves it along. */
  lemma DecideProceeds(s: System, id: ApprovalId, approver: nat, approved: bool, expected: Digest, now: Time)
    ensures var s' := DecideTx(s, id, approver, approved, expected, now);
            && s.log <= s'.log && s'.approvals.Keys == s.approvals.Keys
            && (forall x | x in s.approvals && x != id :: s'.approvals[x] == s.approvals[x])
            && (id in s.approvals ==>
                  var row, row' := s.approvals[id], s'.approvals[id];
                  && row'.callHash == row.callHash && row'.expiresAt == row.expiresAt
                  && (row' == row || row'.status == Expired
                      || (row.status == Pending && now < row.expiresAt
                          && row'.status == if approved then Approved else Rejected)))
  {
  }

  lemma StepProceeds(s: System, a: Action)
    requires Inv(s)
    ensures Proceeds(s, Do(s, a))
  {
    match a
    case Request(ttl, call, ctx, now) => RequestProceeds(s, ttl, call, ctx, now);
    case Decide(id, approver, approved, expected, now) => DecideProceeds(s, id, approver, approved, expected, now);
    case Execute(_) =>
  }

  /** Approval is reached only from PENDING, by an approving decision, before expiry. */
  lemma ApprovedOnlyFromPending(s: System, a: Action, id: ApprovalId)
    requires Inv(s) && id in Do(s, a).approvals && Do(s, a).approvals[id].status == Approved
    ensures id in s.approvals
    ensures s.approvals[id].status != Approved ==>
              s.approvals[id].status == Pending && a.Decide? && a.id == id && a.approved
              && a.now < s.approvals[id].expiresAt
  {
    match a
    case Request(ttl, call, ctx, now) => RequestProceeds(s, ttl, call, ctx, now);
    case Decide(x, approver, approved, expected, now) => DecideProceeds(s, x, approver, approved, expected, now);
    case Execute(_) =>
  }

  lemma {:induction false} RunProceeds(trace: seq<System>, i: nat, j: nat)
    requires IsRun(trace) && i <= j < |trace|
    ensures Proceeds(trace[i], trace[j])
    decreases j
  {
    if i < j {
      var h := j - 1;
      RunProceeds(trace, i, h);
      RunKeepsInv(trace, h);
      assert Next(trace[h], trace[j]);
      var a :| trace[j] == Do(trace[h], a);
      StepProceeds(trace[h], a);
    }
  }

  /** A decided row changes exactly when a decision with its digest arrives at or after expiry; then
      the decision is overwritten with EXPIRED. */
  lemma DecidedChangesIff(s: System, a: Action, id: ApprovalId)
    requires Inv(s) && id in s.approvals
    requires s.approvals[id].status == Approved || s.approvals[id].status == Rejected
    ensures id in Do(s, a).approvals
    ensures var row := s.approvals[id];
            Do(s, a).approvals[id] != row <==>
              a.Decide? && a.id == id && a.expected == row.callHash && a.now >= row.expiresAt
    ensures Do(s, a).approvals[id] != s.approvals[id] ==> Do(s, a).approvals[id].status == Expired
  {
    match a
    case Request(ttl, call, ctx, now) => RequestProceeds(s, ttl, call, ctx, now);
    case Decide(x, approver, approved, expected, now) => DecideProceeds(s, x, approver, approved, expected, now);
    case Execute(_) =>
  }

  /** From the start: any call in scope can be requested, approved in time, and then be turned into
      an expired one by a late second decision, whatever that decision says. */
  lemma ApprovalCanBeOverwritten(ttl: nat, call: Call, ctx: Context, approver: nat, approved: bool)
    returns (trace: seq<System>)
    requires ttl >= 1 && InScope(call, ctx)
    ensures IsRun(trace) && |trace| == 4
    ensures var id := ApprovalId(call.callId, ttl);
            && id in trace[2].approvals && trace[2].approvals[id].status == Approved
            && id in trace[3].approvals && trace[3].approvals[id].status == Expired
  {
    var id := ApprovalId(call.callId, ttl);
    var digest := DigestOf(call, ctx, ttl);
    var s0 := System(map[], map[], []);
    var s1 := Do(s0, Request(ttl, call, ctx, 0));
    var s2 := Do(s1, Decide(id, approver, true, digest, 0));
    var s3 := Do(s2, Decide(id, approver, approved, digest, ttl));
    assert !HasApproval(s0, call.callId);
    trace := [s0, s1, s2, s3];
    assert Next(s0, s1) && Next(s1, s2) && Next(s2, s3);
  }

  /** What a successful authorization stands for in the log. */
  ghost predicate IsBacked(s: System, id: ApprovalId, call: Call, ctx: Context, approver: nat, at: Time) {
    && Requested(id, DigestOf(call, ctx, id.expiresAt)) in s.log
    && Granted(id, approver, at) in s.log && at < id.expiresAt && !WasDenied(s, id)
  }

  lemma AuthorizedIsBacked(
    s: System, id: ApprovalId, call: Call, ctx: Context, expected: Option<nat>, now: Time)
    requires Inv(s) && Authorized(s, id, call, ctx, expected, now).Some?
    ensures var auth := Authorized(s, id, call, ctx, expected, now).value;
            && auth.id == id && (expected.Some? ==> auth.approver == expected.value)
            && IsBacked(s, id, call, ctx, auth.approver, auth.decidedAt)
            && now < id.expiresAt && !HasLapsed(s, id)
  {
    assert RowInv(s, id, s.approvals[id]);
  }

  /** Nothing that happens later takes the backing away. */
  lemma StaysBacked(s: System, s': System, id: ApprovalId, call: Call, ctx: Context, approver: nat, at: Time)
    requires Inv(s') && s.log <= s'.log && IsBacked(s, id, call, ctx, approver, at)
    ensures IsBacked(s', id, call, ctx, approver, at)
  {
    assert forall e | e in s.log :: e in s'.log;
    assert WasGranted(s', id);
    assert StatusInv(s', id, s'.approvals[id]);
  }

  /** Whenever an authorization succeeds, in any run: the approval was requested for exactly this
      call, project, repository and baseline; its approver granted it before it expired; it has not
      expired; and it was never refused. */
  lemma AuthorizedAsRequested(
    trace: seq<System>, i: nat, id: ApprovalId, call: Call, ctx: Context, expected: Option<nat>, now: Time)
    requires IsRun(trace) && i < |trace|
    requires Authorized(trace[i], id, call, ctx, expected, now).Some?
    ensures var auth := Authorized(trace[i], id, call, ctx, expected, now).value;
            && auth.id == id && (expected.Some? ==> auth.approver == expected.value)
            && IsBacked(trace[i], id, call, ctx, auth.approver, auth.decidedAt)
            && now < id.expiresAt && !HasLapsed(trace[i], id)
  {
    RunKeepsInv(trace, i);
    AuthorizedIsBacked(trace[i], id, call, ctx, expected, now);
  }

  /** A refused or expired approval authorizes nothing for the rest of the run. */
  lemma RefusedForever(
    trace: seq<System>, i: nat, j: nat, id: ApprovalId, call: Call, ctx: Context, expected: Option<nat>, now: Time)
    requires IsRun(trace) && i <= j < |trace| && id in trace[i].approvals
    requires trace[i].approvals[id].status == Rejected || trace[i].approvals[id].status == Expired
    ensures Authorized(trace[j], id, call, ctx, expected, now) == None
  {
    RunProceeds(trace, i, j);
  }

  /** One approval authorizes one call. */
  lemma OneCallPerApproval(
    s: System, id: ApprovalId, call: Call, ctx: Context, e: Option<nat>, now: Time,
    call': Call, ctx': Context, e': Option<nat>, now': Time)
    requires Authorized(s, id, call, ctx, e, now).Some? && Authorized(s, id, call', ctx', e', now').Some?
    ensures call == call' && ctx.projectId == ctx'.projectId && ctx.repositoryId == ctx'.repositoryId
            && ctx.baseline == ctx'.baseline
  {
  }

  // ----- The service

  predicate BoundTo(row: Row, call: Call) {
    row.callId == call.callId && row.callHash.call == call
  }

  datatype Decision = Recorded | AlreadyDecided | DecisionExpired | DecisionRaised

  /** ApprovalService, over the tables it updates. */
  class ApprovalService {
    const ttl: nat
    var executions: map<nat, Call>
    var approvals: map<ApprovalId, Row>
    ghost var log: seq<Entry>

    ghost function View(): System
      reads this
    {
      System(executions, approvals, log)
    }

    ghost predicate Valid()
      reads this
    {
      Inv(View())
    }

    constructor (ttl: nat)
      ensures Valid() && Init(View()) && this.ttl == ttl
    {
      this.ttl := ttl;
      executions, approvals, log := map[], map[], [];
    }

    /** The approval of a call, if there is one. */
    method FindApproval(callId: nat) returns (r: Option<ApprovalId>)
      ensures r.Some? <==> HasApproval(View(), callId)
      ensures r.Some? ==> r.value in approvals && approvals[r.value].callId == callId
    {
      var rest := approvals.Keys;
      while rest != {}
        invariant rest <= approvals.Keys
        invariant forall k | k in approvals && k !in rest :: approvals[k].callId != callId
        decreases rest
      {
        var k :| k in rest;
        if approvals[k].callId == callId {
          return Some(k);
        }
        rest := rest - {k};
      }
      r := None;
    }

    /** The id of the one approval of the call, new or existing; nothing when the call is out of
        scope or does not match its execution. The digest check on an existing row never fails. */
    method Request(call: Call, ctx: Context, now: Time) returns (r: Option<ApprovalId>)
      requires Valid()
      modifies this
      ensures Valid() && View() == RequestTx(old(View()), ttl, call, ctx, now)
      ensures r.Some? <==> InScope(call, ctx) && ExecutionMatches(old(executions), call)
      ensures r.Some? ==> r.value in approvals && BoundTo(approvals[r.value], call)
    {
      RequestKeepsInv(View(), ttl, call, ctx, now);
      if !InScope(call, ctx) || !ExecutionMatches(executions, call) {
        return None;
      }
      var existing := FindApproval(call.callId);
      executions := executions[call.callId := call];
      if existing.Some? {
        assert BindingInv(View(), existing.value, approvals[existing.value]);
        return existing;
      }
      var id := Create(call, ctx, now);
      r := Some(id);
    }

    /** Inserts a pending approval. */
    method Create(call: Call, ctx: Context, now: Time) returns (id: ApprovalId)
      modifies this`approvals, this`log
      ensures id == ApprovalId(call.callId, now + ttl)
      ensures approvals == old(approvals)[id := NewApproval(call, ctx, now + ttl)]
      ensures log == old(log) + [Requested(id, DigestOf(call, ctx, now + ttl))]
    {
      id := ApprovalId(call.callId, now + ttl);
      approvals := approvals[id := NewApproval(call, ctx, now + ttl)];
      log := log + [Requested(id, DigestOf(call, ctx, now + ttl))];
    }

    /** A decision by a named approver. */
    method Decide(id: ApprovalId, approver: nat, approved: bool, expected: Digest, now: Time) returns (r: Decision)
      requires Valid()
      modifies this
      ensures Valid() && View() == DecideTx(old(View()), id, approver, approved, expected, now)
      ensures r == Recorded || r == DecisionExpired <==> View() != old(View())
      ensures r == AlreadyDecided ==>
                id in approvals && approvals[id].approver == Some(approver)
                && approvals[id].status == if approved then Approved else Rejected
    {
      DecideKeepsInv(View(), id, approver, approved, expected, now);
      if id !in approvals || approvals[id].callHash != expected {
        return DecisionRaised;
      }
      var row := approvals[id];
      if now >= row.expiresAt {
        if row.status == Expired {
          return DecisionRaised;
        }
        approvals := approvals[id := row.(status := Expired, decidedAt := Some(now))];
        log := log + [Lapsed(id, now)];
        return DecisionExpired;
      }
      var target := if approved then Approved else Rejected;
      if row.status != Pending {
        return if row.status == target && row.approver == Some(approver) then AlreadyDecided else DecisionRaised;
      }
      approvals := approvals[id := row.(status := target, approver := Some(approver), decidedAt := Some(now))];
      log := log + [if approved then Granted(id, approver, now) else Denied(id, approver, now)];
      r := Recorded;
    }
  }
}
