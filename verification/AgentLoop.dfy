/** The turn loop of an agent: logical turns, same-model retries, fallback models and budgets. The
    provider is an arbitrary sequence of replies, one per model request. */
module AgentLoop {
  import opened Basics
  import opened Options

  datatype FailureClass = Transient | Timeout | Permanent | Capability | CancelledFailure | BudgetFailure

  datatype Usage = Usage(input: nat, output: nat, cached: nat, cost: real)

  /** The configured models (primary first), budgets and schema repairs. */
  datatype Spec = Spec(models: nat, turnBudget: nat, tokenBudget: nat, costBudget: real, maxSchemaRepairs: nat)

  /** How one model request can end; a reply names the model that the provider says it used. */
  datatype Reply =
    | Fails(failure: FailureClass)
    | CallsTools(model: nat, usage: Usage, dispatched: bool)
    | InvalidOutput(model: nat, usage: Usage)
    | ValidOutput(model: nat, usage: Usage, output: nat)

  datatype Attempt = Attempt(ordinal: nat, model: nat, usage: Usage)

  datatype End =
    | Returned(output: nat, usage: Usage)
    | TokensExhausted
    | BudgetExceeded
    | TurnsExhausted
    | SchemaExhausted
    | ToolsUnavailable
    | ProviderFailed(failure: FailureClass)

  const MAX_SAME_MODEL_RETRIES: nat := 3

  predicate Billed(f: FailureClass) {
    f == Transient || f == Timeout
  }

  /** What an attempt is charged: the reported usage, or for a failure that was plausibly billed
      the estimate of the prompt. */
  function Charge(r: Reply, estimate: Usage): Usage {
    match r
    case Fails(f) => if Billed(f) then estimate else Usage(0, 0, 0, 0.0)
    case CallsTools(_, u, _) => u
    case InvalidOutput(_, u) => u
    case ValidOutput(_, u, _) => u
  }

  function Plus(a: Usage, b: Usage): Usage {
    Usage(a.input + b.input, a.output + b.output, a.cached + b.cached, a.cost + b.cost)
  }

  /** The model that a record names: the one asked if the request failed, else the one that the
      reply reports. */
  function RecordedModel(r: Reply, asked: nat): nat {
    if r.Fails? then asked else r.model
  }

  /** The sum over recorded attempts. */
  function Total(attempts: seq<Attempt>): Usage {
    if attempts == [] then Usage(0, 0, 0, 0.0)
    else Plus(Total(attempts[..|attempts| - 1]), attempts[|attempts| - 1].usage)
  }

  function Tokens(u: Usage): nat {
    u.input + u.output
  }

  // ----- What the first k replies determine

  /** What the first k requests cost. */
  function Spent(reply: nat -> Reply, estimate: Usage, k: nat): Usage {
    if k == 0 then Usage(0, 0, 0, 0.0) else Plus(Spent(reply, estimate, k - 1), Charge(reply(k), estimate))
  }

  function Failures(reply: nat -> Reply, k: nat): nat {
    if k == 0 then 0 else Failures(reply, k - 1) + (if reply(k).Fails? then 1 else 0)
  }

  /** Requests that count against the turn budget: retries and fallbacks do not. */
  function Turns(reply: nat -> Reply, k: nat): nat {
    if k == 0 then 0 else Turns(reply, k - 1) + (if reply(k).Fails? then 0 else 1)
  }

  /** Invalid outputs since the last tool call. */
  function SchemaFailures(reply: nat -> Reply, k: nat): nat {
    if k == 0 then 0
    else match reply(k)
      case CallsTools(_, _, _) => 0
      case InvalidOutput(_, _) => SchemaFailures(reply, k - 1) + 1
      case _ => SchemaFailures(reply, k - 1)
  }

  /** The model in use and the retries it has had. */
  datatype Position = Position(model: nat, retries: nat)

  function Advance(spec: Spec, p: Position, r: Reply): Position {
    if !r.Fails? then p
    else if Billed(r.failure) && p.retries < MAX_SAME_MODEL_RETRIES then Position(p.model, p.retries + 1)
    else if (Billed(r.failure) || r.failure == Permanent || r.failure == Capability) && p.model + 1 < spec.models
    then Position(p.model + 1, 0)
    else p
  }

  function PositionAfter(spec: Spec, reply: nat -> Reply, k: nat): Position {
    if k == 0 then Position(0, 0) else Advance(spec, PositionAfter(spec, reply, k - 1), reply(k))
  }

  predicate WithinBudget(spec: Spec, u: Usage) {
    Tokens(u) <= spec.tokenBudget && u.cost <= spec.costBudget
  }

  /** How reply k, taken by itself, ends the run, if it does. */
  function EndsWith(spec: Spec, reply: nat -> Reply, estimate: Usage, k: nat): Option<End>
    requires k > 0
  {
    var spent := Spent(reply, estimate, k);
    match reply(k)
    case Fails(f) =>
      var p := PositionAfter(spec, reply, k - 1);
      if Advance(spec, p, reply(k)) == p then Some(ProviderFailed(f)) else None
    case CallsTools(_, _, dispatched) =>
      if !WithinBudget(spec, spent) then Some(BudgetExceeded) else if !dispatched then Some(ToolsUnavailable) else None
    case InvalidOutput(_, _) =>
      if !WithinBudget(spec, spent) then Some(BudgetExceeded)
      else if SchemaFailures(reply, k - 1) >= spec.maxSchemaRepairs then Some(SchemaExhausted)
      else None
    case ValidOutput(_, _, output) =>
      if !WithinBudget(spec, spent) then Some(BudgetExceeded) else Some(Returned(output, spent))
  }

  /** How the run ends after k requests, if it does: by the last reply, by running out of turns, or
      by having no tokens left for another request. */
  function EndAfter(spec: Spec, reply: nat -> Reply, estimate: Usage, k: nat): Option<End> {
    if k > 0 && EndsWith(spec, reply, estimate, k).Some? then EndsWith(spec, reply, estimate, k)
    else if Turns(reply, k) >= spec.turnBudget then Some(TurnsExhausted)
    else if Tokens(Spent(reply, estimate, k)) >= spec.tokenBudget then Some(TokensExhausted)
    else None
  }

  /** The run is still going after each of fewer than k requests. */
  ghost predicate RunsTo(spec: Spec, reply: nat -> Reply, estimate: Usage, k: nat) {
    forall j: nat | j < k :: EndAfter(spec, reply, estimate, j) == None
  }

  // ----- The bound on requests

  /** Failures are paid for by models used up and retries of the current one. */
  lemma {:induction false} FailuresBounded(spec: Spec, reply: nat -> Reply, estimate: Usage, k: nat)
    requires spec.models >= 1 && forall j: nat | 0 < j <= k :: EndsWith(spec, reply, estimate, j) == None
    ensures var p := PositionAfter(spec, reply, k);
            && p.model < spec.models && p.retries <= MAX_SAME_MODEL_RETRIES
            && Failures(reply, k) <= 4 * p.model + p.retries
  {
    if k > 0 {
      FailuresBounded(spec, reply, estimate, k - 1);
      assert EndsWith(spec, reply, estimate, k) == None;
    }
  }

  lemma {:induction false} RequestsAreTurnsOrFailures(reply: nat -> Reply, k: nat)
    ensures k == Turns(reply, k) + Failures(reply, k)
  {
    if k > 0 { RequestsAreTurnsOrFailures(reply, k - 1); }
  }

  /** Whatever the provider does, a run makes at most one request per turn plus four per configured
      model, less one. */
  lemma RequestsBounded(spec: Spec, reply: nat -> Reply, estimate: Usage, k: nat)
    requires spec.models >= 1 && spec.turnBudget >= 1 && RunsTo(spec, reply, estimate, k)
    ensures k <= spec.turnBudget + 4 * spec.models - 1
  {
    if k > 0 {
      var h := k - 1;
      assert EndAfter(spec, reply, estimate, h) == None;
      forall j: nat | 0 < j <= h ensures EndsWith(spec, reply, estimate, j) == None {
        assert EndAfter(spec, reply, estimate, j) == None;
      }
      FailuresBounded(spec, reply, estimate, h);
      RequestsAreTurnsOrFailures(reply, h);
    }
  }

  // ----- When the bound is reached

  /** Failures that are charged the estimate. */
  function BilledFailures(reply: nat -> Reply, k: nat): nat {
    if k == 0 then 0
    else BilledFailures(reply, k - 1) + (if reply(k).Fails? && Billed(reply(k).failure) then 1 else 0)
  }

  /** A failure that is not charged uses up a model. */
  lemma {:induction false} UnbilledUseModels(spec: Spec, reply: nat -> Reply, estimate: Usage, k: nat)
    requires forall j: nat | 0 < j <= k :: EndsWith(spec, reply, estimate, j) == None
    ensures Failures(reply, k) <= BilledFailures(reply, k) + PositionAfter(spec, reply, k).model
  {
    if k > 0 {
      UnbilledUseModels(spec, reply, estimate, k - 1);
      assert EndsWith(spec, reply, estimate, k) == None;
    }
  }

  lemma {:induction false} BilledCost(reply: nat -> Reply, estimate: Usage, k: nat)
    ensures Spent(reply, estimate, k).input >= Multiple(BilledFailures(reply, k), estimate.input)
  {
    if k > 0 { BilledCost(reply, estimate, k - 1); }
  }

  /** A run of that length has three charged failures on every model. */
  lemma LongRunCost(spec: Spec, reply: nat -> Reply, estimate: Usage, k: nat)
    requires spec.models >= 1 && spec.turnBudget >= 1 && k == spec.turnBudget + 4 * spec.models - 1
    requires RunsTo(spec, reply, estimate, k)
    ensures spec.tokenBudget > Multiple(3 * spec.models, estimate.input)
  {
    var h := k - 1;
    assert EndAfter(spec, reply, estimate, h) == None;
    forall j: nat | 0 < j <= h ensures EndsWith(spec, reply, estimate, j) == None {
      assert EndAfter(spec, reply, estimate, j) == None;
    }
    FailuresBounded(spec, reply, estimate, h);
    RequestsAreTurnsOrFailures(reply, h);
    UnbilledUseModels(spec, reply, estimate, h);
    BilledCost(reply, estimate, h);
    MultipleGrows(3 * spec.models, BilledFailures(reply, h), estimate.input);
  }

  /** The provider that first uses all turns but one for free tool calls, and then fails on every
      model three times in a charged way and, except on the last model, once more for good. */
  function WorstCase(spec: Spec): nat -> Reply
    requires spec.turnBudget >= 1
  {
    k => if k < spec.turnBudget || k >= spec.turnBudget + 4 * spec.models - 1
         then CallsTools(0, Usage(0, 0, 0, 0.0), true)
         else if (k + 1 - spec.turnBudget) % 4 == 0 then Fails(Permanent)
         else Fails(Transient)
  }

  /** How many of the failures have happened after k requests. */
  function Failed(spec: Spec, k: nat): nat {
    if k < spec.turnBudget then 0 else k + 1 - spec.turnBudget
  }

  lemma {:induction false} WorstCaseState(spec: Spec, estimate: Usage, k: nat)
    requires spec.models >= 1 && spec.turnBudget >= 1 && k < spec.turnBudget + 4 * spec.models - 1
    ensures var f := Failed(spec, k);
            && Turns(WorstCase(spec), k) + f == k
            && PositionAfter(spec, WorstCase(spec), k) == Position(f / 4, f % 4)
            && BilledFailures(WorstCase(spec), k) == f - f / 4
  {
    if k > 0 { WorstCaseState(spec, estimate, k - 1); }
  }

  lemma {:induction false} WorstCaseSpent(spec: Spec, estimate: Usage, k: nat)
    requires spec.turnBudget >= 1 && estimate.output == 0
    ensures var spent := Spent(WorstCase(spec), estimate, k);
            && spent.input == Multiple(BilledFailures(WorstCase(spec), k), estimate.input) && spent.output == 0
            && (k < spec.turnBudget ==> spent.cost == 0.0)
  {
    if k > 0 { WorstCaseSpent(spec, estimate, k - 1); }
  }

  lemma WorstCaseTokens(spec: Spec, estimate: Usage, j: nat)
    requires spec.models >= 1 && spec.turnBudget >= 1 && estimate.output == 0
    requires j < spec.turnBudget + 4 * spec.models - 1
    ensures Tokens(Spent(WorstCase(spec), estimate, j)) <= Multiple(3 * spec.models, estimate.input)
  {
    WorstCaseState(spec, estimate, j);
    WorstCaseSpent(spec, estimate, j);
    MultipleGrows(BilledFailures(WorstCase(spec), j), 3 * spec.models, estimate.input);
  }

  lemma WorstCaseEnds(spec: Spec, estimate: Usage, j: nat)
    requires spec.models >= 1 && spec.turnBudget >= 1 && spec.costBudget >= 0.0 && estimate.output == 0
    requires spec.tokenBudget > Multiple(3 * spec.models, estimate.input)
    requires 0 < j < spec.turnBudget + 4 * spec.models - 1
    ensures EndsWith(spec, WorstCase(spec), estimate, j) == None
  {
    if j < spec.turnBudget {
      WorstCaseTokens(spec, estimate, j);
      WorstCaseSpent(spec, estimate, j);
    } else {
      WorstCaseState(spec, estimate, j - 1);
    }
  }

  lemma WorstCaseGoesOn(spec: Spec, estimate: Usage, j: nat)
    requires spec.models >= 1 && spec.turnBudget >= 1 && spec.costBudget >= 0.0 && estimate.output == 0
    requires spec.tokenBudget > Multiple(3 * spec.models, estimate.input)
    requires j < spec.turnBudget + 4 * spec.models - 1
    ensures EndAfter(spec, WorstCase(spec), estimate, j) == None
  {
    WorstCaseState(spec, estimate, j);
    WorstCaseTokens(spec, estimate, j);
    if j > 0 { WorstCaseEnds(spec, estimate, j); }
  }

  /** The bound is reached by some provider exactly if the token budget exceeds three estimates per
      configured model. */
  lemma BoundReachedIff(spec: Spec, estimate: Usage, k: nat)
    requires spec.models >= 1 && spec.turnBudget >= 1 && spec.costBudget >= 0.0
    requires estimate.output == 0
    requires k == spec.turnBudget + 4 * spec.models - 1
    ensures (exists reply :: RunsTo(spec, reply, estimate, k)) <==>
              spec.tokenBudget > 3 * spec.models * estimate.input
  {
    MultipleIsProduct(3 * spec.models, estimate.input);
    if spec.tokenBudget > Multiple(3 * spec.models, estimate.input) {
      forall j: nat | j < k ensures EndAfter(spec, WorstCase(spec), estimate, j) == None {
        WorstCaseGoesOn(spec, estimate, j);
      }
      assert RunsTo(spec, WorstCase(spec), estimate, k);
    }
    forall reply | RunsTo(spec, reply, estimate, k)
      ensures spec.tokenBudget > Multiple(3 * spec.models, estimate.input)
    {
      LongRunCost(spec, reply, estimate, k);
    }
  }

  // ----- The loop

  /** The records of the first k requests: ordinals 1 to k, the model of each, and its charge. */
  ghost predicate Ledger(spec: Spec, reply: nat -> Reply, estimate: Usage, attempts: seq<Attempt>) {
    forall i: nat | i < |attempts| :: IsRecord(spec, reply, estimate, i, attempts[i])
  }

  ghost predicate IsRecord(spec: Spec, reply: nat -> Reply, estimate: Usage, i: nat, a: Attempt) {
    var r := reply(i + 1);
    a == Attempt(i + 1, RecordedModel(r, PositionAfter(spec, reply, i).model), Charge(r, estimate))
  }

  lemma LedgerGrows(spec: Spec, reply: nat -> Reply, estimate: Usage, attempts: seq<Attempt>, a: Attempt)
    requires Ledger(spec, reply, estimate, attempts) && IsRecord(spec, reply, estimate, |attempts|, a)
    ensures Ledger(spec, reply, estimate, attempts + [a])
  {
  }

  /** The sum over the records is what the requests cost. */
  lemma {:induction false} TotalIsSpent(spec: Spec, reply: nat -> Reply, estimate: Usage, attempts: seq<Attempt>)
    requires Ledger(spec, reply, estimate, attempts)
    ensures Total(attempts) == Spent(reply, estimate, |attempts|)
  {
    if attempts != [] {
      assert IsRecord(spec, reply, estimate, |attempts| - 1, attempts[|attempts| - 1]);
      TotalIsSpent(spec, reply, estimate, attempts[..|attempts| - 1]);
    }
  }

  /** The loop's variables after k requests, none of which ended the run by itself. */
  ghost predicate LoopState(
    spec: Spec, reply: nat -> Reply, estimate: Usage, k: nat,
    turn: nat, p: Position, schemaFailures: nat, total: Usage)
  {
    && turn == Turns(reply, k) + 1
    && p == PositionAfter(spec, reply, k) && p.model < spec.models && p.retries <= MAX_SAME_MODEL_RETRIES
    && schemaFailures == SchemaFailures(reply, k)
    && total == Spent(reply, estimate, k)
    && RunsTo(spec, reply, estimate, k)
    && (k > 0 ==> EndsWith(spec, reply, estimate, k) == None)
  }

  /** The verdict on the next reply, from the loop's variables. */
  function Verdict(spec: Spec, r: Reply, p: Position, schemaFailures: nat, total: Usage): Option<End> {
    match r
    case Fails(f) => if Advance(spec, p, r) == p then Some(ProviderFailed(f)) else None
    case CallsTools(_, _, dispatched) =>
      if !WithinBudget(spec, total) then Some(BudgetExceeded) else if !dispatched then Some(ToolsUnavailable) else None
    case InvalidOutput(_, _) =>
      if !WithinBudget(spec, total) then Some(BudgetExceeded)
      else if schemaFailures >= spec.maxSchemaRepairs then Some(SchemaExhausted)
      else None
    case ValidOutput(_, _, output) =>
      if !WithinBudget(spec, total) then Some(BudgetExceeded) else Some(Returned(output, total))
  }

  /** One more request, seen from the loop's variables. */
  lemma NextRequest(
    spec: Spec, reply: nat -> Reply, estimate: Usage, k: nat,
    turn: nat, p: Position, schemaFailures: nat, total: Usage)
    requires LoopState(spec, reply, estimate, k, turn, p, schemaFailures, total)
    requires turn <= spec.turnBudget && Tokens(total) < spec.tokenBudget
    ensures var r := reply(k + 1);
            var total' := Plus(total, Charge(r, estimate));
            var verdict := Verdict(spec, r, p, schemaFailures, total');
            && RunsTo(spec, reply, estimate, k + 1)
            && EndsWith(spec, reply, estimate, k + 1) == verdict
            && (verdict == None ==>
                  LoopState(
                    spec, reply, estimate, k + 1,
                    if r.Fails? then turn else turn + 1,
                    Advance(spec, p, r),
                    if r.CallsTools? then 0 else if r.InvalidOutput? then schemaFailures + 1 else schemaFailures,
                    total'))
  {
    assert EndAfter(spec, reply, estimate, k) == None;
  }

  /** The loop stops at the first request after which the run ends, with one record per request. A
      result that is returned carries the sum of its records and lies within both budgets. The
      estimate for a failed request covers prompt tokens only. */
  method Run(spec: Spec, reply: nat -> Reply, estimate: Usage) returns (end: End, attempts: seq<Attempt>)
    requires spec.models >= 1 && spec.turnBudget >= 1 && estimate.output == 0 && estimate.cached == 0
    ensures Ledger(spec, reply, estimate, attempts)
    ensures RunsTo(spec, reply, estimate, |attempts|)
    ensures EndAfter(spec, reply, estimate, |attempts|) == Some(end)
    ensures |attempts| <= spec.turnBudget + 4 * spec.models - 1
    ensures end.Returned? ==> end.usage == Total(attempts) && WithinBudget(spec, end.usage)
  {
    end, attempts := Loop(spec, reply, estimate);
    RequestsBounded(spec, reply, estimate, |attempts|);
    TotalIsSpent(spec, reply, estimate, attempts);
  }

  method Loop(spec: Spec, reply: nat -> Reply, estimate: Usage) returns (end: End, attempts: seq<Attempt>)
    requires spec.models >= 1 && spec.turnBudget >= 1
    ensures Ledger(spec, reply, estimate, attempts)
    ensures RunsTo(spec, reply, estimate, |attempts|)
    ensures EndAfter(spec, reply, estimate, |attempts|) == Some(end)
  {
    attempts := [];
    var total := Usage(0, 0, 0, 0.0);
    var turn, model, retries, schemaFailures := 1, 0, 0, 0;
    while turn <= spec.turnBudget
      invariant Ledger(spec, reply, estimate, attempts)
      invariant LoopState(spec, reply, estimate, |attempts|, turn, Position(model, retries), schemaFailures, total)
      decreases spec.turnBudget - turn, spec.models - model, MAX_SAME_MODEL_RETRIES - retries
    {
      if spec.tokenBudget <= Tokens(total) {
        return TokensExhausted, attempts;
      }
      var verdict, attempts', turn', model', retries', schemaFailures', total' :=
        OneRequest(spec, reply, estimate, attempts, turn, model, retries, schemaFailures, total);
      if verdict.Some? {
        return verdict.value, attempts';
      }
      attempts, turn, model, retries := attempts', turn', model', retries';
      schemaFailures, total := schemaFailures', total';
    }
    end := TurnsExhausted;
  }

  /** One model request and what its reply leads to. */
  method OneRequest(
    spec: Spec, reply: nat -> Reply, estimate: Usage, attempts: seq<Attempt>,
    turn: nat, model: nat, retries: nat, schemaFailures: nat, total: Usage)
    returns (end: Option<End>, attempts': seq<Attempt>, turn': nat, model': nat, retries': nat,
             schemaFailures': nat, total': Usage)
    requires Ledger(spec, reply, estimate, attempts)
    requires LoopState(spec, reply, estimate, |attempts|, turn, Position(model, retries), schemaFailures, total)
    requires turn <= spec.turnBudget && Tokens(total) < spec.tokenBudget
    ensures Ledger(spec, reply, estimate, attempts') && |attempts'| == |attempts| + 1
    ensures RunsTo(spec, reply, estimate, |attempts'|)
    ensures end.Some? ==> EndAfter(spec, reply, estimate, |attempts'|) == end
    ensures end == None ==>
              && LoopState(
                   spec, reply, estimate, |attempts'|, turn', Position(model', retries'), schemaFailures', total')
              && turn <= turn'
              && (turn == turn' ==> model <= model' && (model == model' ==> retries < retries'))
  {
    NextRequest(spec, reply, estimate, |attempts|, turn, Position(model, retries), schemaFailures, total);
    var r := reply(|attempts| + 1);
    var attempt := Attempt(|attempts| + 1, RecordedModel(r, model), Charge(r, estimate));
    LedgerGrows(spec, reply, estimate, attempts, attempt);
    attempts' := attempts + [attempt];
    total' := Plus(total, attempt.usage);
    end, turn', model', retries', schemaFailures' := Absorb(spec, r, turn, model, retries, schemaFailures, total');
  }

  /** What the loop does with one reply: end the run, or change model, retries, turn and repairs. */
  method Absorb(spec: Spec, r: Reply, turn: nat, model: nat, retries: nat, schemaFailures: nat, total: Usage)
    returns (end: Option<End>, turn': nat, model': nat, retries': nat, schemaFailures': nat)
    ensures end == Verdict(spec, r, Position(model, retries), schemaFailures, total)
    ensures end == None ==>
              && Position(model', retries') == Advance(spec, Position(model, retries), r)
              && turn' == (if r.Fails? then turn else turn + 1)
              && schemaFailures'
                 == (if r.CallsTools? then 0 else if r.InvalidOutput? then schemaFailures + 1 else schemaFailures)
  {
    turn', model', retries', schemaFailures' := turn, model, retries, schemaFailures;
    match r {
      case Fails(f) =>
        if f == Transient || f == Timeout {
          if retries < MAX_SAME_MODEL_RETRIES {
            retries' := retries + 1;
          } else if model + 1 < spec.models {
            model', retries' := model + 1, 0;
          } else {
            end := Some(ProviderFailed(f));
            return;
          }
        } else if (f == Permanent || f == Capability) && model + 1 < spec.models {
          model', retries' := model + 1, 0;
        } else {
          end := Some(ProviderFailed(f));
          return;
        }
      case CallsTools(_, _, dispatched) =>
        if !WithinBudget(spec, total) {
          end := Some(BudgetExceeded);
          return;
        }
        schemaFailures' := 0;
        if !dispatched {
          end := Some(ToolsUnavailable);
          return;
        }
        turn' := turn + 1;
      case InvalidOutput(_, _) =>
        if !WithinBudget(spec, total) {
          end := Some(BudgetExceeded);
          return;
        }
        if schemaFailures >= spec.maxSchemaRepairs {
          end := Some(SchemaExhausted);
          return;
        }
        schemaFailures' := schemaFailures + 1;
        turn' := turn + 1;
      case ValidOutput(_, _, output) =>
        end := Some(if WithinBudget(spec, total) then Returned(output, total) else BudgetExceeded);
        return;
    }
    end := None;
  }
}
