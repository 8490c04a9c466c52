/** The tool gateway and the approval service together, for one idempotency key: a caller of an
    approval-bound tool asks for an authorization and only then for the promotion of its row. The two
    are separate transactions, and requests, decisions and other executions go on in between. */
module ApprovedCalls {
  import opened Options
  import G = ToolGateway
  import A = Approvals

  /** An authorization that a caller received, and when. */
  datatype Pass = Pass(
    id: A.ApprovalId, call: G.Call, ctx: A.Context, approver: nat, decidedAt: A.Time, checkedAt: A.Time)

  datatype System = System(gateway: G.System, approvals: A.System, passes: map<nat, Pass>)

  /** The request as the approval service sees it. */
  function Full(key: nat, c: G.Call): A.Call {
    A.Call(c.callId, c.runId, c.taskId, c.attemptId, c.requestedBy, c.toolName, c.toolVersion, c.arguments, key)
  }

  datatype Step =
    | Approval(action: A.Action)
    | Authorize(caller: nat, id: A.ApprovalId, ctx: A.Context, expected: Option<nat>, now: A.Time)
    | Gateway(act: G.Action)

  /** A promotion is asked for exactly by callers that were authorized. */
  predicate Enabled(registry: G.Registry, key: nat, s: System, step: Step) {
    match step
    case Approval(_) => true
    case Authorize(p, id, ctx, expected, now) =>
      p in s.gateway.callers && s.gateway.callers[p].Approving?
      && A.Authorized(s.approvals, id, Full(key, s.gateway.callers[p].call), ctx, expected, now).Some?
    case Gateway(a) =>
      G.Enabled(registry, s.gateway, a) && (a.Promote? ==> (a.granted <==> a.caller in s.passes))
  }

  function Do(registry: G.Registry, key: nat, s: System, step: Step): System
    requires Enabled(registry, key, s, step)
  {
    match step
    case Approval(a) => s.(approvals := A.Do(s.approvals, a))
    case Authorize(p, id, ctx, expected, now) =>
      var call := s.gateway.callers[p].call;
      var auth := A.Authorized(s.approvals, id, Full(key, call), ctx, expected, now).value;
      s.(passes := s.passes[p := Pass(id, call, ctx, auth.approver, auth.decidedAt, now)])
    case Gateway(a) => s.(gateway := G.Do(registry, s.gateway, a))
  }

  ghost predicate Next(registry: G.Registry, key: nat, s: System, s': System) {
    exists step :: Enabled(registry, key, s, step) && s' == Do(registry, key, s, step)
  }

  ghost predicate IsRun(registry: G.Registry, key: nat, trace: seq<System>) {
    && |trace| > 0 && G.Init(trace[0].gateway) && A.Init(trace[0].approvals) && trace[0].passes == map[]
    && forall i, j | 0 <= i < j < |trace| && j == i + 1 :: Next(registry, key, trace[i], trace[j])
  }

  /** The pass was given for this call by an approval that was requested for exactly this call and
      scope, granted before expiry, never denied, and checked before expiry. */
  ghost predicate PassInv(key: nat, s: System, p: nat, pass: Pass) {
    && A.IsBacked(s.approvals, pass.id, Full(key, pass.call), pass.ctx, pass.approver, pass.decidedAt)
    && pass.checkedAt < pass.id.expiresAt
    && p in s.gateway.callers && !s.gateway.callers[p].Claiming?
    && (s.gateway.callers[p].Approving? ==> s.gateway.callers[p].call == pass.call)
  }

  /** Whoever owns an approval-bound call holds a pass for it. */
  ghost predicate OwnerInv(registry: G.Registry, s: System) {
    s.gateway.row.Some? && s.gateway.owner.Some? && registry(s.gateway.row.value.call).approvalRequired ==>
      s.gateway.owner.value in s.passes
      && s.passes[s.gateway.owner.value].call == s.gateway.row.value.call
  }

  ghost predicate Inv(registry: G.Registry, key: nat, s: System) {
    && G.Inv(registry, s.gateway) && A.Inv(s.approvals) && OwnerInv(registry, s)
    && forall p | p in s.passes :: PassInv(key, s, p, s.passes[p])
  }

  lemma ApprovalKeepsInv(registry: G.Registry, key: nat, s: System, a: A.Action)
    requires Inv(registry, key, s)
    ensures Inv(registry, key, s.(approvals := A.Do(s.approvals, a)))
  {
    var s' := s.(approvals := A.Do(s.approvals, a));
    A.StepKeepsInv(s.approvals, a);
    A.StepProceeds(s.approvals, a);
    forall p | p in s'.passes ensures PassInv(key, s', p, s'.passes[p]) {
      var pass := s.passes[p];
      assert PassInv(key, s, p, pass);
      A.StaysBacked(
        s.approvals, s'.approvals, pass.id, Full(key, pass.call), pass.ctx, pass.approver, pass.decidedAt);
    }
  }

  lemma AuthorizeKeepsInv(registry: G.Registry, key: nat, s: System, step: Step)
    requires Inv(registry, key, s) && Enabled(registry, key, s, step) && step.Authorize?
    ensures Inv(registry, key, Do(registry, key, s, step))
  {
    var p := step.caller;
    var call := s.gateway.callers[p].call;
    A.AuthorizedIsBacked(s.approvals, step.id, Full(key, call), step.ctx, step.expected, step.now);
    assert G.PhaseInv(registry, s.gateway, p, s.gateway.callers[p]);
    var s' := Do(registry, key, s, step);
    forall q | q in s'.passes ensures PassInv(key, s', q, s'.passes[q]) {
      if q != p { assert PassInv(key, s, q, s.passes[q]); }
    }
  }

  /** A caller never returns to the claim, and does not change its call. */
  lemma CallerGoesOn(registry: G.Registry, s: G.System, a: G.Action, p: nat)
    requires G.Enabled(registry, s, a) && p in s.callers && !s.callers[p].Claiming?
    ensures p in G.Do(registry, s, a).callers && !G.Do(registry, s, a).callers[p].Claiming?
    ensures G.Do(registry, s, a).callers[p].Approving? ==> G.Do(registry, s, a).callers[p] == s.callers[p]
  {
  }

  /** A new owner of an approval-bound call is the caller that was promoted. */
  lemma OwnerWasPromoted(registry: G.Registry, s: G.System, a: G.Action)
    requires G.Inv(registry, s) && G.Enabled(registry, s, a)
    ensures var s' := G.Do(registry, s, a);
            s'.row.Some? && s'.owner.Some? && registry(s'.row.value.call).approvalRequired ==>
              || (s'.owner == s.owner && s.row.Some? && s'.row.value.call == s.row.value.call)
              || (a.Promote? && a.granted && s'.owner == Some(a.caller)
                  && s'.row.value.call == s.callers[a.caller].call)
  {
    G.StepSettles(registry, s, a);
    if a.Promote? || a.ClaimRow? { assert G.PhaseInv(registry, s, a.caller, s.callers[a.caller]); }
  }

  lemma GatewayKeepsInv(registry: G.Registry, key: nat, s: System, a: G.Action)
    requires G.ValidRegistry(registry) && Inv(registry, key, s) && Enabled(registry, key, s, Gateway(a))
    ensures Inv(registry, key, Do(registry, key, s, Gateway(a)))
  {
    var s' := Do(registry, key, s, Gateway(a));
    G.StepKeepsInv(registry, s.gateway, a);
    OwnerWasPromoted(registry, s.gateway, a);
    if a.Promote? && a.granted { assert PassInv(key, s, a.caller, s.passes[a.caller]); }
    forall p | p in s'.passes ensures PassInv(key, s', p, s'.passes[p]) {
      assert PassInv(key, s, p, s.passes[p]);
      CallerGoesOn(registry, s.gateway, a, p);
    }
  }

  lemma {:induction false} RunKeepsInv(registry: G.Registry, key: nat, trace: seq<System>, i: nat)
    requires G.ValidRegistry(registry) && IsRun(registry, key, trace) && i < |trace|
    ensures Inv(registry, key, trace[i])
  {
    if i > 0 {
      var h := i - 1;
      RunKeepsInv(registry, key, trace, h);
      assert Next(registry, key, trace[h], trace[i]);
      var step :| Enabled(registry, key, trace[h], step) && trace[i] == Do(registry, key, trace[h], step);
      match step
      case Approval(a) => ApprovalKeepsInv(registry, key, trace[h], a);
      case Authorize(_, _, _, _, _) => AuthorizeKeepsInv(registry, key, trace[h], step);
      case Gateway(a) => GatewayKeepsInv(registry, key, trace[h], a);
    }
  }

  /** In every interleaving: once the executor of an approval-bound tool was started, there is an
      approval that was requested for exactly this call, in the scope that was checked, granted
      before it expired, never denied, and found valid by the owner before it expired. */
  lemma StartedOnlyIfApproved(registry: G.Registry, key: nat, trace: seq<System>, i: nat) returns (pass: Pass)
    requires G.ValidRegistry(registry) && IsRun(registry, key, trace) && i < |trace|
    requires trace[i].gateway.starts > 0 && trace[i].gateway.row.Some?
    requires registry(trace[i].gateway.row.value.call).approvalRequired
    ensures pass.call == trace[i].gateway.row.value.call
    ensures A.IsBacked(
              trace[i].approvals, pass.id, Full(key, pass.call), pass.ctx, pass.approver, pass.decidedAt)
    ensures pass.decidedAt < pass.id.expiresAt && pass.checkedAt < pass.id.expiresAt
  {
    RunKeepsInv(registry, key, trace, i);
    var owner := trace[i].gateway.owner.value;
    pass := trace[i].passes[owner];
    assert PassInv(key, trace[i], owner, pass);
  }
}
