/** The transactional outbox: claim, publish, retry, park and requeue, under any interleaving of
    publishers, crashes and clock readings. Each database transaction is one step. */
module Outbox {
  import opened Basics
  import opened Options

  type EventId = nat
  type Token = nat
  type Time = int

  datatype Config = Config(claimTtl: nat, retryBase: nat, retryMax: nat, maxAttempts: nat)

  /** One outbox row. */
  datatype Row = Row(
    createdAt: Time,
    attempts: nat,
    nextAttemptAt: Time,
    publisher: Option<nat>,
    claimToken: Option<Token>,
    claimedUntil: Option<Time>,
    publishedAt: Option<Time>,
    deadLetteredAt: Option<Time>)

  /** What a publisher remembers of a row it claimed. */
  datatype Claim = Claim(event: EventId, publisher: nat, attempt: nat, token: Token, claimedAt: Time)

  /** The two tables; a dead letter is identified by its event and the publisher that wrote it. */
  datatype Tables = Tables(rows: map<EventId, Row>, letters: set<(EventId, nat)>)

  // ----- Rows

  predicate Claimable(row: Row, now: Time) {
    && row.publishedAt == None
    && row.deadLetteredAt == None
    && row.nextAttemptAt <= now
    && (row.claimedUntil == None || row.claimedUntil.value <= now)
  }

  function Released(row: Row): Row {
    row.(publisher := None, claimToken := None, claimedUntil := None)
  }

  function Claimed(cfg: Config, row: Row, publisher: nat, token: Token, now: Time): Row {
    row.(attempts := row.attempts + 1, publisher := Some(publisher),
         claimToken := Some(token), claimedUntil := Some(now + cfg.claimTtl))
  }

  /** min(retry_base * 2 ** max(0, attempt - 1), retry_max) */
  function Backoff(cfg: Config, attempt: nat): nat {
    var candidate := cfg.retryBase * Pow2(if attempt == 0 then 0 else attempt - 1);
    if candidate <= cfg.retryMax then candidate else cfg.retryMax
  }

  predicate Holds(db: Tables, c: Claim) {
    c.event in db.rows && db.rows[c.event].claimToken == Some(c.token)
  }

  // ----- Transactions

  function ClaimTx(cfg: Config, db: Tables, e: EventId, publisher: nat, token: Token, now: Time): Tables
    requires e in db.rows
  {
    db.(rows := db.rows[e := Claimed(cfg, db.rows[e], publisher, token, now)])
  }

  function MarkPublishedTx(db: Tables, c: Claim): Tables {
    if Holds(db, c) && db.rows[c.event].publishedAt == None then
      db.(rows := db.rows[c.event := Released(db.rows[c.event]).(publishedAt := Some(c.claimedAt))])
    else db
  }

  function RescheduleTx(cfg: Config, db: Tables, c: Claim): Tables {
    if Holds(db, c) then
      db.(rows := db.rows[c.event :=
            Released(db.rows[c.event]).(nextAttemptAt := c.claimedAt + Backoff(cfg, c.attempt))])
    else db
  }

  /** The dead letter is written whether or not the claim still holds. */
  function DeadLetterTx(db: Tables, c: Claim): Tables {
    Tables(
      if Holds(db, c) then
        db.rows[c.event := Released(db.rows[c.event]).(deadLetteredAt := Some(c.claimedAt))]
      else db.rows,
      db.letters + {(c.event, c.publisher)})
  }

  function MarkFailedTx(cfg: Config, db: Tables, c: Claim): Tables {
    if c.attempt >= cfg.maxAttempts then DeadLetterTx(db, c) else RescheduleTx(cfg, db, c)
  }

  function RequeueTx(db: Tables, e: EventId, now: Time): Tables {
    if e in db.rows then
      db.(rows := db.rows[e := Released(db.rows[e]).(publishedAt := None, nextAttemptAt := now)])
    else db
  }

  // ----- The system

  /** A claim in a publisher's hands: not yet sent, taken by the transport, or refused. */
  datatype Phase = Held | Taken | Refused

  /** The tables, every claim ever handed out, the claims still in flight, and the events that
      the transport has taken at least once. */
  datatype System = System(db: Tables, issued: map<Token, Claim>, flight: map<Token, Phase>, taken: set<EventId>)

  datatype Action =
    | Enqueue(event: EventId, now: Time)
    | ClaimRow(event: EventId, publisher: nat, token: Token, now: Time)
    | TransportTakes(token: Token)
    | TransportRefuses(token: Token, tookIt: bool)
    | MarkPublished(token: Token)
    | MarkFailed(token: Token)
    | Requeue(event: EventId, now: Time)
    | Crash(token: Token)

  predicate Enabled(s: System, a: Action) {
    match a
    case Enqueue(e, _) => e !in s.db.rows
    case ClaimRow(e, _, token, now) => e in s.db.rows && Claimable(s.db.rows[e], now) && token !in s.issued
    case TransportTakes(t) => t in s.flight && t in s.issued && s.flight[t] == Held
    case TransportRefuses(t, _) => t in s.flight && t in s.issued && s.flight[t] == Held
    case MarkPublished(t) => t in s.flight && t in s.issued && s.flight[t] == Taken
    case MarkFailed(t) => t in s.flight && t in s.issued && s.flight[t] == Refused
    case Requeue(_, _) => true
    case Crash(t) => t in s.flight
  }

  function Do(cfg: Config, s: System, a: Action): System
    requires Enabled(s, a)
  {
    match a
    case Enqueue(e, now) =>
      s.(db := s.db.(rows := s.db.rows[e := Row(now, 0, now, None, None, None, None, None)]))
    case ClaimRow(e, publisher, token, now) =>
      var c := Claim(e, publisher, s.db.rows[e].attempts + 1, token, now);
      s.(db := ClaimTx(cfg, s.db, e, publisher, token, now),
         issued := s.issued[token := c],
         flight := s.flight[token := Held])
    case TransportTakes(t) =>
      s.(flight := s.flight[t := Taken], taken := s.taken + {s.issued[t].event})
    case TransportRefuses(t, tookIt) =>
      s.(flight := s.flight[t := Refused], taken := if tookIt then s.taken + {s.issued[t].event} else s.taken)
    case MarkPublished(t) =>
      s.(db := MarkPublishedTx(s.db, s.issued[t]), flight := s.flight - {t})
    case MarkFailed(t) =>
      s.(db := MarkFailedTx(cfg, s.db, s.issued[t]), flight := s.flight - {t})
    case Requeue(e, now) =>
      s.(db := RequeueTx(s.db, e, now))
    case Crash(t) =>
      s.(flight := s.flight - {t})
  }

  ghost predicate Init(s: System) {
    s == System(Tables(map[], {}), map[], map[], {})
  }

  ghost predicate Next(cfg: Config, s: System, s': System) {
    exists a :: Enabled(s, a) && s' == Do(cfg, s, a)
  }

  ghost predicate IsRun(cfg: Config, trace: seq<System>) {
    |trace| > 0 && Init(trace[0]) && forall i, j | 0 <= i < j < |trace| && j == i + 1 :: Next(cfg, trace[i], trace[j])
  }

  // ----- What every step keeps

  /** A live claim excludes publication and parking, those two exclude each other, a published
      event was taken by the transport, and a parked one used up its attempts and has a letter. */
  ghost predicate RowInv(cfg: Config, s: System, e: EventId, row: Row) {
    && (row.claimToken.Some? ==> row.publishedAt == None && row.deadLetteredAt == None)
    && (row.claimToken.Some? <==> row.claimedUntil.Some?)
    && !(row.publishedAt.Some? && row.deadLetteredAt.Some?)
    && (row.publishedAt.Some? ==> e in s.taken)
    && (row.deadLetteredAt.Some? ==> row.attempts >= cfg.maxAttempts && HasLetter(s.db, e))
    && (row.claimToken.Some? ==>
          row.claimToken.value in s.issued
          && s.issued[row.claimToken.value].event == e
          && s.issued[row.claimToken.value].attempt == row.attempts)
  }

  ghost predicate HasLetter(db: Tables, e: EventId) {
    exists p :: (e, p) in db.letters
  }

  /** A claim names its own token, a known event and an attempt that has happened. */
  ghost predicate ClaimInv(s: System, t: Token, c: Claim) {
    && c.token == t
    && c.event in s.db.rows
    && 1 <= c.attempt <= s.db.rows[c.event].attempts
    && (t in s.flight && s.flight[t] == Taken ==> c.event in s.taken)
  }

  ghost predicate Inv(cfg: Config, s: System) {
    && s.flight.Keys <= s.issued.Keys
    && (forall e | e in s.db.rows :: RowInv(cfg, s, e, s.db.rows[e]))
    && (forall t | t in s.issued :: ClaimInv(s, t, s.issued[t]))
    && (forall t, u | t in s.issued && u in s.issued && t != u && s.issued[t].event == s.issued[u].event ::
          s.issued[t].attempt != s.issued[u].attempt)
  }

  lemma EnqueueKeepsInv(cfg: Config, s: System, a: Action)
    requires Inv(cfg, s) && Enabled(s, a) && a.Enqueue?
    ensures Inv(cfg, Do(cfg, s, a))
  {
  }

  lemma ClaimKeepsInv(cfg: Config, s: System, a: Action)
    requires Inv(cfg, s) && Enabled(s, a) && a.ClaimRow?
    ensures Inv(cfg, Do(cfg, s, a))
  {
    var s' := Do(cfg, s, a);
    assert RowInv(cfg, s, a.event, s.db.rows[a.event]);
    forall e | e in s'.db.rows ensures RowInv(cfg, s', e, s'.db.rows[e]) {
      assert RowInv(cfg, s, e, s.db.rows[e]);
    }
    forall t | t in s'.issued ensures ClaimInv(s', t, s'.issued[t]) {
      if t != a.token { assert ClaimInv(s, t, s.issued[t]); }
    }
  }

  lemma TransportKeepsInv(cfg: Config, s: System, a: Action)
    requires Inv(cfg, s) && Enabled(s, a) && (a.TransportTakes? || a.TransportRefuses? || a.Crash? || a.Requeue?)
    ensures Inv(cfg, Do(cfg, s, a))
  {
  }

  lemma MarkKeepsInv(cfg: Config, s: System, a: Action)
    requires Inv(cfg, s) && Enabled(s, a) && (a.MarkPublished? || a.MarkFailed?)
    ensures Inv(cfg, Do(cfg, s, a))
  {
    assert ClaimInv(s, a.token, s.issued[a.token]);
  }

  lemma StepKeepsInv(cfg: Config, s: System, a: Action)
    requires Inv(cfg, s) && Enabled(s, a)
    ensures Inv(cfg, Do(cfg, s, a))
  {
    match a
    case Enqueue(_, _) => EnqueueKeepsInv(cfg, s, a);
    case ClaimRow(_, _, _, _) => ClaimKeepsInv(cfg, s, a);
    case MarkPublished(_) => MarkKeepsInv(cfg, s, a);
    case MarkFailed(_) => MarkKeepsInv(cfg, s, a);
    case _ => TransportKeepsInv(cfg, s, a);
  }

  /** In every interleaving of publishers, crashes, clock readings and requeues, every reachable
      state satisfies the row and claim invariants. */
  lemma {:induction false} RunKeepsInv(cfg: Config, trace: seq<System>, i: nat)
    requires IsRun(cfg, trace) && i < |trace|
    ensures Inv(cfg, trace[i])
  {
    if i > 0 {
      var h := i - 1;
      RunKeepsInv(cfg, trace, h);
      assert Next(cfg, trace[h], trace[i]);
      var a :| Enabled(trace[h], a) && trace[i] == Do(cfg, trace[h], a);
      StepKeepsInv(cfg, trace[h], a);
    }
  }

  /** How many claims were ever handed out for an event. */
  ghost function ClaimsOf(s: System, e: EventId): set<Token> {
    set t | t in s.issued && s.issued[t].event == e
  }

  lemma OtherStepsKeepAttempts(cfg: Config, s: System, a: Action)
    requires Enabled(s, a) && !a.ClaimRow? && !a.Enqueue?
    ensures Do(cfg, s, a).issued == s.issued && Do(cfg, s, a).db.rows.Keys == s.db.rows.Keys
    ensures forall e | e in s.db.rows :: Do(cfg, s, a).db.rows[e].attempts == s.db.rows[e].attempts
  {
  }

  ghost predicate CountsClaims(s: System, e: EventId) {
    if e in s.db.rows then |ClaimsOf(s, e)| == s.db.rows[e].attempts else ClaimsOf(s, e) == {}
  }

  lemma StepKeepsCount(cfg: Config, s: System, a: Action, e: EventId)
    requires Enabled(s, a) && CountsClaims(s, e)
    ensures CountsClaims(Do(cfg, s, a), e)
  {
    var s' := Do(cfg, s, a);
    match a
    case ClaimRow(f, _, token, _) =>
      assert ClaimsOf(s', e) == if f == e then ClaimsOf(s, e) + {token} else ClaimsOf(s, e);
    case Enqueue(f, _) =>
      assert ClaimsOf(s', e) == ClaimsOf(s, e);
    case _ =>
      OtherStepsKeepAttempts(cfg, s, a);
      assert ClaimsOf(s', e) == ClaimsOf(s, e);
  }

  /** The attempts counter of a row is exactly the number of claims handed out for it. */
  lemma {:induction false} AttemptsCountClaims(cfg: Config, trace: seq<System>, i: nat, e: EventId)
    requires IsRun(cfg, trace) && i < |trace|
    ensures CountsClaims(trace[i], e)
  {
    if i == 0 {
      assert ClaimsOf(trace[0], e) == {};
    } else {
      var h := i - 1;
      AttemptsCountClaims(cfg, trace, h, e);
      assert Next(cfg, trace[h], trace[i]);
      var a :| Enabled(trace[h], a) && trace[i] == Do(cfg, trace[h], a);
      StepKeepsCount(cfg, trace[h], a, e);
    }
  }

  // ----- What a run can no longer change

  /** The claim was handed out and its row has moved on. */
  ghost predicate Superseded(s: System, t: Token) {
    t in s.issued && !Holds(s.db, s.issued[t])
  }

  /** The row is parked. */
  ghost predicate Parked(s: System, e: EventId) {
    e in s.db.rows && s.db.rows[e].deadLetteredAt.Some?
  }

  lemma StepIsMonotone(cfg: Config, s: System, a: Action, t: Token, e: EventId)
    requires Inv(cfg, s) && Enabled(s, a)
    ensures var s' := Do(cfg, s, a);
            && (t in s.issued ==> t in s'.issued && s'.issued[t] == s.issued[t])
            && (Superseded(s, t) ==> Superseded(s', t))
            && (Parked(s, e) ==> Parked(s', e) && s'.db.rows[e].attempts == s.db.rows[e].attempts)
            && (e in s.taken ==> e in s'.taken)
            && s.db.letters <= s'.db.letters
  {
    if t in s.issued { assert ClaimInv(s, t, s.issued[t]); }
  }

  lemma {:induction false} RunIsMonotone(cfg: Config, trace: seq<System>, i: nat, j: nat, t: Token, e: EventId)
    requires IsRun(cfg, trace) && i <= j < |trace|
    ensures t in trace[i].issued ==> t in trace[j].issued && trace[j].issued[t] == trace[i].issued[t]
    ensures Superseded(trace[i], t) ==> Superseded(trace[j], t)
    ensures Parked(trace[i], e) ==>
              Parked(trace[j], e) && trace[j].db.rows[e].attempts == trace[i].db.rows[e].attempts
    decreases j
  {
    if i < j {
      var h := j - 1;
      RunIsMonotone(cfg, trace, i, h, t, e);
      RunKeepsInv(cfg, trace, h);
      assert Next(cfg, trace[h], trace[j]);
      var a :| Enabled(trace[h], a) && trace[j] == Do(cfg, trace[h], a);
      StepIsMonotone(cfg, trace[h], a, t, e);
    }
  }

  /** A superseded publisher is powerless for the rest of the run: whatever it reports later, no
      outbox row changes. */
  lemma SupersededIsPowerless(cfg: Config, trace: seq<System>, i: nat, j: nat, t: Token)
    requires IsRun(cfg, trace) && i <= j < |trace| && Superseded(trace[i], t)
    ensures t in trace[j].issued
    ensures MarkPublishedTx(trace[j].db, trace[j].issued[t]) == trace[j].db
    ensures MarkFailedTx(cfg, trace[j].db, trace[j].issued[t]).rows == trace[j].db.rows
  {
    RunIsMonotone(cfg, trace, i, j, t, 0);
  }

  /** Nothing is stuck: a row that is neither published nor parked can be claimed again, from the
      later of its two clock bounds on and not before. */
  lemma PendingIsClaimable(cfg: Config, s: System, e: EventId, now: Time)
    requires Inv(cfg, s) && e in s.db.rows
    requires s.db.rows[e].publishedAt == None && !Parked(s, e)
    ensures var row := s.db.rows[e];
            Claimable(row, now) <==>
              row.nextAttemptAt <= now && (row.claimToken.Some? ==> row.claimedUntil.value <= now)
  {
    assert RowInv(cfg, s, e, s.db.rows[e]);
  }

  /** Requeueing makes an event eligible exactly when it is not parked. */
  lemma RequeueEligible(db: Tables, e: EventId, now: Time)
    requires e in db.rows
    ensures Claimable(RequeueTx(db, e, now).rows[e], now) <==> db.rows[e].deadLetteredAt == None
  {
  }

  /** A parked row is never claimable again, not even after a requeue. */
  lemma ParkedForever(cfg: Config, trace: seq<System>, i: nat, j: nat, e: EventId, now: Time)
    requires IsRun(cfg, trace) && i <= j < |trace| && Parked(trace[i], e)
    ensures e in trace[j].db.rows && !Claimable(trace[j].db.rows[e], now)
    ensures !Claimable(RequeueTx(trace[j].db, e, now).rows[e], now)
    ensures HasLetter(trace[j].db, e) && trace[j].db.rows[e].publishedAt == None
  {
    RunIsMonotone(cfg, trace, i, j, 0, e);
    RunKeepsInv(cfg, trace, j);
    assert RowInv(cfg, trace[j], e, trace[j].db.rows[e]);
  }

  lemma RunGrows(cfg: Config, trace: seq<System>, a: Action)
    requires IsRun(cfg, trace) && Enabled(trace[|trace| - 1], a)
    ensures IsRun(cfg, trace + [Do(cfg, trace[|trace| - 1], a)])
  {
    var last := trace[|trace| - 1];
    assert Next(cfg, last, Do(cfg, last, a));
  }

  ghost predicate Pending(s: System, e: EventId) {
    e in s.db.rows && s.db.rows[e].publishedAt == None && s.db.rows[e].deadLetteredAt == None
  }

  /** One more attempt that the transport refuses. */
  lemma RefusedOnce(cfg: Config, trace: seq<System>, e: EventId) returns (trace': seq<System>)
    requires IsRun(cfg, trace) && Pending(trace[|trace| - 1], e)
    ensures IsRun(cfg, trace')
    ensures var row, row' := trace[|trace| - 1].db.rows[e], trace'[|trace'| - 1].db.rows;
            e in row' && row'[e].attempts == row.attempts + 1
            && if row.attempts + 1 >= cfg.maxAttempts then Parked(trace'[|trace'| - 1], e)
               else Pending(trace'[|trace'| - 1], e)
  {
    var s := trace[|trace| - 1];
    var row := s.db.rows[e];
    var t := Fresh(s.issued.Keys);
    var until := if row.claimedUntil.Some? then row.claimedUntil.value else row.nextAttemptAt;
    var claim := ClaimRow(e, 0, t, if until > row.nextAttemptAt then until else row.nextAttemptAt);
    RunGrows(cfg, trace, claim);
    var s1 := Do(cfg, s, claim);
    RunGrows(cfg, trace + [s1], TransportRefuses(t, false));
    var s2 := Do(cfg, s1, TransportRefuses(t, false));
    RunGrows(cfg, trace + [s1] + [s2], MarkFailed(t));
    trace' := trace + [s1] + [s2] + [Do(cfg, s2, MarkFailed(t))];
  }

  /** Refused often enough, a pending row is parked. */
  lemma {:induction false} RefusedUntilParked(cfg: Config, trace: seq<System>, e: EventId) returns (trace': seq<System>)
    requires IsRun(cfg, trace) && Pending(trace[|trace| - 1], e)
    ensures IsRun(cfg, trace') && Parked(trace'[|trace'| - 1], e)
    decreases cfg.maxAttempts - trace[|trace| - 1].db.rows[e].attempts
  {
    trace' := RefusedOnce(cfg, trace, e);
    if !Parked(trace'[|trace'| - 1], e) {
      trace' := RefusedUntilParked(cfg, trace', e);
    }
  }

  /** From the start, under any configuration: an event is refused until it is parked, then requeued.
      The requeue finds the row and changes nothing about its being out of reach. */
  lemma RequeueCanBeInVain(cfg: Config, e: EventId, now: Time) returns (trace: seq<System>)
    ensures IsRun(cfg, trace) && |trace| >= 2
    ensures Parked(trace[|trace| - 2], e) && trace[|trace| - 1].db == RequeueTx(trace[|trace| - 2].db, e, now)
    ensures Parked(trace[|trace| - 1], e) && !Claimable(trace[|trace| - 1].db.rows[e], now)
  {
    var s0 := System(Tables(map[], {}), map[], map[], {});
    RunGrows(cfg, [s0], Enqueue(e, 0));
    var parked := RefusedUntilParked(cfg, [s0] + [Do(cfg, s0, Enqueue(e, 0))], e);
    var s := parked[|parked| - 1];
    RunGrows(cfg, parked, Requeue(e, now));
    trace := parked + [Do(cfg, s, Requeue(e, now))];
  }

  // ----- The retry schedule

  lemma {:induction false} Pow2Doubles(m: nat, n: nat)
    requires m <= n
    ensures 1 <= Pow2(m) <= Pow2(n)
  {
    if m < n {
      Pow2Doubles(m, n - 1);
    } else if m > 0 {
      Pow2Doubles(m - 1, m - 1);
    }
  }

  /** The delay never shrinks from one attempt to a later one and never exceeds the ceiling. */
  lemma BackoffGrows(cfg: Config, a: nat, b: nat)
    requires a <= b
    ensures Backoff(cfg, a) <= Backoff(cfg, b) <= cfg.retryMax
  {
    var x, y := if a == 0 then 0 else a - 1, if b == 0 then 0 else b - 1;
    Pow2Doubles(x, y);
    assert cfg.retryBase * Pow2(x) <= cfg.retryBase * Pow2(y);
  }

  // ----- The publisher's database calls

  /** Rows come in order of creation, ties by event id. */
  predicate Before(db: Tables, a: EventId, b: EventId)
    requires a in db.rows && b in db.rows
  {
    db.rows[a].createdAt < db.rows[b].createdAt || (db.rows[a].createdAt == db.rows[b].createdAt && a <= b)
  }

  /** The row is claimable and no other transaction has locked it. */
  ghost predicate Selectable(db: Tables, locked: set<EventId>, e: EventId, now: Time) {
    e in db.rows && e !in locked && Claimable(db.rows[e], now)
  }

  /** The oldest claimable and unlocked rows, at most limit of them, oldest first. */
  ghost predicate IsSelection(db: Tables, locked: set<EventId>, now: Time, limit: int, ids: seq<EventId>) {
    && (forall i | 0 <= i < |ids| :: Selectable(db, locked, ids[i], now))
    && (forall i, j | 0 <= i < j < |ids| :: ids[i] != ids[j] && Before(db, ids[i], ids[j]))
    && (ids == [] || |ids| <= limit)
    && (|ids| < limit ==> forall e | Selectable(db, locked, e, now) :: e in ids)
    && (forall e, i | Selectable(db, locked, e, now) && e !in ids && 0 <= i < |ids| :: Before(db, ids[i], e))
  }

  /** The tables after the listed rows are claimed one after the other. */
  ghost function ClaimAll(
    cfg: Config, db: Tables, publisher: nat, ids: seq<EventId>, tokens: seq<Token>, now: Time): Tables
    requires |tokens| == |ids|
  {
    if ids == [] then db
    else
      var n := |ids| - 1;
      var before := ClaimAll(cfg, db, publisher, ids[..n], tokens[..n], now);
      if ids[n] in before.rows then ClaimTx(cfg, before, ids[n], publisher, tokens[n], now) else before
  }

  /** Claiming a batch touches the listed rows only. */
  lemma {:induction false} ClaimAllRows(
    cfg: Config, db: Tables, publisher: nat, ids: seq<EventId>, tokens: seq<Token>, now: Time)
    requires |tokens| == |ids|
    ensures ClaimAll(cfg, db, publisher, ids, tokens, now).rows.Keys == db.rows.Keys
    ensures forall e | e in db.rows && e !in ids ::
              ClaimAll(cfg, db, publisher, ids, tokens, now).rows[e] == db.rows[e]
  {
    if ids != [] {
      var n := |ids| - 1;
      ClaimAllRows(cfg, db, publisher, ids[..n], tokens[..n], now);
    }
  }

  lemma ClaimAllNext(
    cfg: Config, db: Tables, publisher: nat, ids: seq<EventId>, tokens: seq<Token>, now: Time, k: nat)
    requires |tokens| == |ids| && k < |ids| && ids[k] in db.rows
    requires forall i, j | 0 <= i < j < |ids| :: ids[i] != ids[j]
    ensures var before := ClaimAll(cfg, db, publisher, ids[..k], tokens[..k], now);
            && ids[k] in before.rows && before.rows[ids[k]] == db.rows[ids[k]]
            && ClaimAll(cfg, db, publisher, ids[..k + 1], tokens[..k + 1], now)
               == ClaimTx(cfg, before, ids[k], publisher, tokens[k], now)
  {
    ClaimAllRows(cfg, db, publisher, ids[..k], tokens[..k], now);
    assert ids[..k + 1][..k] == ids[..k] && tokens[..k + 1][..k] == tokens[..k];
    assert ids[k] !in ids[..k];
  }

  /** Each row of a selection can still be claimed after the ones before it: the batch is a run of
      single claim steps. */
  lemma {:induction false} BatchIsRun(
    cfg: Config, s: System, publisher: nat, ids: seq<EventId>, tokens: seq<Token>, now: Time)
    returns (steps: seq<System>)
    requires |tokens| == |ids|
    requires forall i | 0 <= i < |ids| :: Selectable(s.db, {}, ids[i], now) && tokens[i] !in s.issued
    requires forall i, j | 0 <= i < j < |ids| :: ids[i] != ids[j] && tokens[i] != tokens[j]
    ensures |steps| == |ids| + 1 && steps[0] == s
    ensures forall i, j | 0 <= i < j < |steps| && j == i + 1 :: Next(cfg, steps[i], steps[j])
    ensures steps[|ids|].db == ClaimAll(cfg, s.db, publisher, ids, tokens, now)
    ensures forall t | t in steps[|ids|].issued :: t in s.issued || t in tokens
  {
    if ids == [] {
      return [s];
    }
    var n := |ids| - 1;
    var init := BatchIsRun(cfg, s, publisher, ids[..n], tokens[..n], now);
    var last := init[n];
    ClaimAllRows(cfg, s.db, publisher, ids[..n], tokens[..n], now);
    assert ids[n] !in ids[..n] && tokens[n] !in tokens[..n];
    assert Selectable(s.db, {}, ids[n], now);
    var a := ClaimRow(ids[n], publisher, tokens[n], now);
    assert Enabled(last, a);
    steps := init + [Do(cfg, last, a)];
    assert Next(cfg, last, Do(cfg, last, a));
    forall i, j | 0 <= i < j < |steps| && j == i + 1 ensures Next(cfg, steps[i], steps[j]) {
      if j < |init| { assert steps[i] == init[i] && steps[j] == init[j]; }
    }
    forall t | t in steps[|ids|].issued ensures t in s.issued || t in tokens {
      assert t in last.issued || t == tokens[n];
    }
  }

  /** OutboxPublisher, over the tables it updates. */
  class OutboxPublisher {
    const cfg: Config
    const publisherId: nat
    var rows: map<EventId, Row>
    var letters: set<(EventId, nat)>

    ghost function View(): Tables
      reads this
    {
      Tables(rows, letters)
    }

    constructor (cfg: Config, publisherId: nat)
      ensures View() == Tables(map[], {}) && this.cfg == cfg && this.publisherId == publisherId
    {
      this.cfg, this.publisherId := cfg, publisherId;
      rows, letters := map[], {};
    }

    /** The oldest of a set of rows. */
    method Oldest(candidates: set<EventId>) returns (e: EventId)
      requires candidates != {} && candidates <= rows.Keys
      ensures e in candidates && forall f | f in candidates :: Before(View(), e, f)
    {
      e :| e in candidates;
      var rest := candidates - {e};
      while rest != {}
        invariant e in candidates && rest <= candidates
        invariant forall f | f in candidates && f !in rest :: Before(View(), e, f)
        decreases rest
      {
        var f :| f in rest;
        if rows[f].createdAt < rows[e].createdAt || (rows[f].createdAt == rows[e].createdAt && f < e) {
          e := f;
        }
        rest := rest - {f};
      }
    }

    /** The select of the claim transaction. */
    method Select(limit: int, locked: set<EventId>, now: Time) returns (ids: seq<EventId>)
      ensures IsSelection(View(), locked, now, limit, ids)
    {
      ids := [];
      var rest := set e | e in rows && e !in locked && Claimable(rows[e], now);
      while rest != {} && |ids| < limit
        invariant forall e | e in rest :: Selectable(View(), locked, e, now)
        invariant forall e | Selectable(View(), locked, e, now) :: e in rest || e in ids
        invariant forall i | 0 <= i < |ids| :: Selectable(View(), locked, ids[i], now) && ids[i] !in rest
        invariant forall i, j | 0 <= i < j < |ids| :: ids[i] != ids[j] && Before(View(), ids[i], ids[j])
        invariant forall i, e | 0 <= i < |ids| && e in rest :: Before(View(), ids[i], e)
        invariant ids == [] || |ids| <= limit
        decreases rest
      {
        var e := Oldest(rest);
        ids := ids + [e];
        rest := rest - {e};
      }
    }

    /** The claim transaction: select, then stamp each row with its own token. */
    method ClaimBatch(limit: int, locked: set<EventId>, now: Time, tokens: seq<Token>)
      returns (claims: seq<Claim>, ghost ids: seq<EventId>)
      requires |tokens| >= limit
      modifies this
      ensures IsSelection(old(View()), locked, now, limit, ids) && |claims| == |ids| <= |tokens|
      ensures View() == ClaimAll(cfg, old(View()), publisherId, ids, tokens[..|ids|], now)
      ensures forall i | 0 <= i < |ids| :: ids[i] in old(rows)
                && claims[i] == Claim(ids[i], publisherId, old(rows)[ids[i]].attempts + 1, tokens[i], now)
    {
      var chosen := Select(limit, locked, now);
      ids := chosen;
      assert forall i | 0 <= i < |ids| :: Selectable(View(), locked, ids[i], now);
      claims := Stamp(chosen, tokens[..|chosen|], now);
    }

    /** Stamps the rows one after the other. */
    method Stamp(ids: seq<EventId>, tokens: seq<Token>, now: Time) returns (claims: seq<Claim>)
      requires |tokens| == |ids| && forall i | 0 <= i < |ids| :: ids[i] in rows
      requires forall i, j | 0 <= i < j < |ids| :: ids[i] != ids[j]
      modifies this
      ensures View() == ClaimAll(cfg, old(View()), publisherId, ids, tokens, now)
      ensures |claims| == |ids|
      ensures forall i | 0 <= i < |ids| ::
                claims[i] == Claim(ids[i], publisherId, old(rows)[ids[i]].attempts + 1, tokens[i], now)
    {
      claims := [];
      ghost var db := View();
      for k := 0 to |ids|
        invariant |claims| == k && View() == ClaimAll(cfg, db, publisherId, ids[..k], tokens[..k], now)
        invariant forall i | 0 <= i < k ::
                    claims[i] == Claim(ids[i], publisherId, db.rows[ids[i]].attempts + 1, tokens[i], now)
      {
        var e := ids[k];
        ClaimAllNext(cfg, db, publisherId, ids, tokens, now, k);
        rows := rows[e := Claimed(cfg, rows[e], publisherId, tokens[k], now)];
        claims := claims + [Claim(e, publisherId, rows[e].attempts, tokens[k], now)];
      }
      assert ids[..|ids|] == ids && tokens[..|ids|] == tokens;
    }

    method MarkPublished(c: Claim) returns (changed: bool)
      modifies this
      ensures View() == MarkPublishedTx(old(View()), c)
      ensures changed <==> View() != old(View())
    {
      changed := c.event in rows && rows[c.event].claimToken == Some(c.token) && rows[c.event].publishedAt == None;
      if changed {
        rows := rows[c.event := Released(rows[c.event]).(publishedAt := Some(c.claimedAt))];
        assert rows[c.event] != old(rows)[c.event];
      }
    }

    method MarkFailed(c: Claim) returns (rescheduled: bool)
      requires c.publisher == publisherId
      modifies this
      ensures View() == MarkFailedTx(cfg, old(View()), c)
      ensures rescheduled <==> c.attempt < cfg.maxAttempts && Holds(old(View()), c)
    {
      var holds := c.event in rows && rows[c.event].claimToken == Some(c.token);
      if c.attempt >= cfg.maxAttempts {
        if holds {
          rows := rows[c.event := Released(rows[c.event]).(deadLetteredAt := Some(c.claimedAt))];
        }
        letters := letters + {(c.event, publisherId)};
        return false;
      }
      if holds {
        rows := rows[c.event := Released(rows[c.event]).(nextAttemptAt := c.claimedAt + Backoff(cfg, c.attempt))];
      }
      rescheduled := holds;
    }

    method Requeue(e: EventId, now: Time) returns (found: bool)
      modifies this
      ensures View() == RequeueTx(old(View()), e, now)
      ensures found <==> e in old(rows)
    {
      found := e in rows;
      if found {
        rows := rows[e := Released(rows[e]).(publishedAt := None, nextAttemptAt := now)];
      }
    }
  }
}
