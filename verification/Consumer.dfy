/** The receipt-based consumer: duplicate suppression, retries, dead letters and the stall sweep,
    under any redelivery, reclaim and crash order. Each database transaction is one step. */
module Consumer {
  import opened Basics

  type Time = int
  type EventId = nat

  /** A consumer group and an event. */
  datatype Key = Key(group: nat, event: EventId)

  /** A stream entry as one group received it. */
  datatype Record = Record(streamId: nat, key: Key)

  datatype Policy = Policy(maxAttempts: nat, baseDelay: nat, maxDelay: nat)

  datatype Status = Retry | DeadLettered

  datatype Delivery = Delivery(attempts: nat, status: Status, nextAttemptAt: Time)

  /** Receipts, delivery rows and dead letters; a letter is identified by consumer and event. */
  datatype Tables = Tables(receipts: set<Key>, deliveries: map<Key, Delivery>, letters: set<(nat, EventId)>)

  // ----- Transactions

  /** The ceiling of the backoff; the jittered delay lies between zero and it. */
  function DelayCeiling(policy: Policy, attempt: nat): nat {
    var candidate := policy.baseDelay * Pow2(if attempt == 0 then 0 else attempt - 1);
    if candidate <= policy.maxDelay then candidate else policy.maxDelay
  }

  predicate IsDeferred(db: Tables, key: Key, now: Time) {
    key in db.deliveries && db.deliveries[key].status == Retry && db.deliveries[key].nextAttemptAt > now
  }

  /** The counter after one more failure. */
  function NextAttempts(db: Tables, key: Key): nat {
    if key in db.deliveries then db.deliveries[key].attempts + 1 else 1
  }

  /** Upsert the counter, then retry later or park with a dead letter. */
  function RecordFailureTx(policy: Policy, db: Tables, consumer: nat, key: Key, now: Time, delay: nat): Tables {
    var attempts := NextAttempts(db, key);
    if attempts >= policy.maxAttempts then
      db.(deliveries := db.deliveries[key := Delivery(attempts, DeadLettered, now)],
          letters := db.letters + {(consumer, key.event)})
    else
      db.(deliveries := db.deliveries[key := Delivery(attempts, Retry, now + delay)])
  }

  predicate Stalled(policy: Policy, d: Delivery, now: Time) {
    d.status == Retry && d.nextAttemptAt <= now - policy.maxDelay
  }

  function Swept(policy: Policy, d: Delivery): Delivery {
    d.(status := DeadLettered, attempts := if d.attempts >= policy.maxAttempts then d.attempts else policy.maxAttempts)
  }

  /** Every overdue delivery of every group is parked. */
  function SweepTx(policy: Policy, db: Tables, consumer: nat, now: Time): Tables {
    db.(deliveries := map k | k in db.deliveries ::
          if Stalled(policy, db.deliveries[k], now) then Swept(policy, db.deliveries[k]) else db.deliveries[k],
        letters := db.letters
          + (set k | k in db.deliveries && Stalled(policy, db.deliveries[k], now) :: (consumer, k.event)))
  }

  /** How the transaction around receipt and handler ends: as intended, with an error of the handler,
      rolled back by the database, or committed while the client sees an error. */
  datatype TxResult = Completes | HandlerFails | RollsBack | CommitsUnseen

  /** The handler runs only for the first claim of a receipt, so only then can it fail. */
  predicate Fails(db: Tables, key: Key, t: TxResult) {
    t == RollsBack || t == CommitsUnseen || (t == HandlerFails && key !in db.receipts)
  }

  /** A new receipt is committed, and the handler's effect with it. */
  predicate Commits(db: Tables, key: Key, t: TxResult) {
    key !in db.receipts && (t == Completes || t == CommitsUnseen)
  }

  function HandleTx(db: Tables, key: Key, t: TxResult): Tables {
    if Commits(db, key, t) then db.(receipts := db.receipts + {key}) else db
  }

  // ----- The system

  /** Where a worker stands with the record it processes. */
  datatype Phase =
    | Checked(record: Record, consumer: nat, now: Time)
    | Settled(record: Record)
    | Failing(record: Record, consumer: nat, now: Time)
    | Exhausted(record: Record)

  /** The tables, the committed handler effects in commit order, the stream entries, the
      acknowledgements, and what each busy worker is doing. */
  datatype System = System(
    db: Tables, effects: seq<Key>, stream: map<nat, EventId>, acked: set<Record>, workers: map<nat, Phase>)

  datatype Action =
    | Publish(streamId: nat, event: EventId)
    | Deliver(worker: nat, consumer: nat, record: Record, now: Time)
    | Handle(worker: nat, result: TxResult)
    | RecordFailure(worker: nat, delay: nat)
    | Acknowledge(worker: nat)
    | Sweep(consumer: nat, now: Time)
    | Crash(worker: nat)

  /** A record can be processed at any time, also again and also after another worker acknowledged
      it: workers read batches and reclaim each other's entries. */
  predicate Enabled(policy: Policy, s: System, a: Action) {
    match a
    case Publish(id, _) => id !in s.stream
    case Deliver(w, _, r, _) => w !in s.workers && r.streamId in s.stream && s.stream[r.streamId] == r.key.event
    case Handle(w, _) => w in s.workers && s.workers[w].Checked?
    case RecordFailure(w, delay) =>
      w in s.workers && s.workers[w].Failing?
      && delay <= DelayCeiling(policy, NextAttempts(s.db, s.workers[w].record.key))
    case Acknowledge(w) => w in s.workers && (s.workers[w].Settled? || s.workers[w].Exhausted?)
    case Sweep(_, _) => true
    case Crash(w) => w in s.workers
  }

  function Do(policy: Policy, s: System, a: Action): System
    requires Enabled(policy, s, a)
  {
    match a
    case Publish(id, e) => s.(stream := s.stream[id := e])
    case Deliver(w, consumer, r, now) =>
      if IsDeferred(s.db, r.key, now) then s else s.(workers := s.workers[w := Checked(r, consumer, now)])
    case Handle(w, t) =>
      var p := s.workers[w];
      var key := p.record.key;
      s.(db := HandleTx(s.db, key, t),
         effects := s.effects + if Commits(s.db, key, t) then [key] else [],
         workers := s.workers[w := if Fails(s.db, key, t) then Failing(p.record, p.consumer, p.now)
                                   else Settled(p.record)])
    case RecordFailure(w, delay) =>
      var p := s.workers[w];
      var db := RecordFailureTx(policy, s.db, p.consumer, p.record.key, p.now, delay);
      s.(db := db,
         workers := if db.deliveries[p.record.key].status == DeadLettered
                    then s.workers[w := Exhausted(p.record)] else s.workers - {w})
    case Acknowledge(w) => s.(acked := s.acked + {s.workers[w].record}, workers := s.workers - {w})
    case Sweep(consumer, now) => s.(db := SweepTx(policy, s.db, consumer, now))
    case Crash(w) => s.(workers := s.workers - {w})
  }

  ghost predicate Init(s: System) {
    s == System(Tables({}, map[], {}), [], map[], {}, map[])
  }

  ghost predicate Next(policy: Policy, s: System, s': System) {
    exists a :: Enabled(policy, s, a) && s' == Do(policy, s, a)
  }

  /** A run from any state; a run of the whole system starts in Init. */
  ghost predicate IsPath(policy: Policy, trace: seq<System>) {
    |trace| > 0 && forall i, j | 0 <= i < j < |trace| && j == i + 1 :: Next(policy, trace[i], trace[j])
  }

  // ----- What every step keeps

  ghost predicate HasLetter(db: Tables, e: EventId) {
    exists c: nat :: (c, e) in db.letters
  }

  ghost predicate DeliveryInv(policy: Policy, db: Tables, key: Key, d: Delivery) {
    && d.attempts >= 1
    && (d.status == Retry ==> d.attempts < policy.maxAttempts)
    && (d.status == DeadLettered ==> d.attempts >= policy.maxAttempts && HasLetter(db, key.event))
  }

  ghost predicate IsParked(db: Tables, key: Key) {
    key in db.deliveries && db.deliveries[key].status == DeadLettered
  }

  /** Applied for the group, or parked for the group with a dead letter. */
  ghost predicate Resolved(db: Tables, key: Key) {
    key in db.receipts || (IsParked(db, key) && HasLetter(db, key.event))
  }

  ghost predicate KnownRecord(s: System, r: Record) {
    r.streamId in s.stream && s.stream[r.streamId] == r.key.event
  }

  ghost predicate PhaseInv(s: System, p: Phase) {
    && KnownRecord(s, p.record)
    && (p.Settled? ==> p.record.key in s.db.receipts)
    && (p.Exhausted? ==> IsParked(s.db, p.record.key) && HasLetter(s.db, p.record.key.event))
  }

  ghost predicate OnceEach(effects: seq<Key>) {
    forall i, j | 0 <= i < j < |effects| :: effects[i] != effects[j]
  }

  /** The handler's effect commits at most once per group and event and exactly when there is a
      receipt; an acknowledged record is applied, or parked with a dead letter, for its own group;
      retry rows are below the attempt cap, parked rows at or above it with a dead letter. */
  ghost predicate Inv(policy: Policy, s: System) {
    && OnceEach(s.effects)
    && (forall k :: k in s.effects <==> k in s.db.receipts)
    && (forall k | k in s.db.deliveries :: DeliveryInv(policy, s.db, k, s.db.deliveries[k]))
    && (forall r | r in s.acked :: KnownRecord(s, r) && Resolved(s.db, r.key))
    && (forall w | w in s.workers :: PhaseInv(s, s.workers[w]))
  }

  lemma LettersGrow(db: Tables, db': Tables)
    requires db.letters <= db'.letters
    ensures forall e: EventId | HasLetter(db, e) :: HasLetter(db', e)
  {
    forall e: EventId | HasLetter(db, e) ensures HasLetter(db', e) {
      var c: nat :| (c, e) in db.letters;
    }
  }

  lemma HandleKeepsInv(policy: Policy, s: System, a: Action)
    requires Inv(policy, s) && Enabled(policy, s, a) && a.Handle?
    ensures Inv(policy, Do(policy, s, a))
  {
    assert PhaseInv(s, s.workers[a.worker]);
    LettersGrow(s.db, Do(policy, s, a).db);
  }

  lemma RecordFailureKeepsInv(policy: Policy, s: System, a: Action)
    requires Inv(policy, s) && Enabled(policy, s, a) && a.RecordFailure?
    ensures Inv(policy, Do(policy, s, a))
  {
    var p := s.workers[a.worker];
    assert PhaseInv(s, p);
    var s' := Do(policy, s, a);
    LettersGrow(s.db, s'.db);
    if s'.db.deliveries[p.record.key].status == DeadLettered {
      assert (p.consumer, p.record.key.event) in s'.db.letters;
      assert HasLetter(s'.db, p.record.key.event);
    }
  }

  lemma SweepKeepsInv(policy: Policy, s: System, a: Action)
    requires Inv(policy, s) && Enabled(policy, s, a) && a.Sweep?
    ensures Inv(policy, Do(policy, s, a))
  {
    var s' := Do(policy, s, a);
    LettersGrow(s.db, s'.db);
    forall k | k in s'.db.deliveries ensures DeliveryInv(policy, s'.db, k, s'.db.deliveries[k]) {
      assert DeliveryInv(policy, s.db, k, s.db.deliveries[k]);
      if Stalled(policy, s.db.deliveries[k], a.now) {
        assert (a.consumer, k.event) in s'.db.letters;
      }
    }
  }

  lemma TransportKeepsInv(policy: Policy, s: System, a: Action)
    requires Inv(policy, s) && Enabled(policy, s, a)
    requires a.Publish? || a.Deliver? || a.Acknowledge? || a.Crash?
    ensures Inv(policy, Do(policy, s, a))
  {
    if a.Acknowledge? { assert PhaseInv(s, s.workers[a.worker]); }
  }

  lemma StepKeepsInv(policy: Policy, s: System, a: Action)
    requires Inv(policy, s) && Enabled(policy, s, a)
    ensures Inv(policy, Do(policy, s, a))
  {
    match a
    case Handle(_, _) => HandleKeepsInv(policy, s, a);
    case RecordFailure(_, _) => RecordFailureKeepsInv(policy, s, a);
    case Sweep(_, _) => SweepKeepsInv(policy, s, a);
    case _ => TransportKeepsInv(policy, s, a);
  }

  /** Every reachable state of every run satisfies the delivery invariants. */
  lemma {:induction false} RunKeepsInv(policy: Policy, trace: seq<System>, i: nat)
    requires IsPath(policy, trace) && Init(trace[0]) && i < |trace|
    ensures Inv(policy, trace[i])
  {
    if i > 0 {
      var h := i - 1;
      RunKeepsInv(policy, trace, h);
      assert Next(policy, trace[h], trace[i]);
      var a :| Enabled(policy, trace[h], a) && trace[i] == Do(policy, trace[h], a);
      StepKeepsInv(policy, trace[h], a);
    }
  }

  // ----- Applied and parked

  /** The event was applied for the group, has no delivery row, and no worker is about to write
      one. */
  ghost predicate Clean(s: System, key: Key) {
    && key in s.db.receipts
    && key !in s.db.deliveries
    && forall w | w in s.workers && s.workers[w].Failing? :: s.workers[w].record.key != key
  }

  /** The step is a transaction for this key that ends in a database error. */
  predicate BreaksOn(s: System, a: Action, key: Key) {
    a.Handle? && a.worker in s.workers && s.workers[a.worker].record.key == key
    && (a.result == RollsBack || a.result == CommitsUnseen)
  }

  /** A clean event stays clean exactly in the steps that are no database error on it, whatever its
      handler would do. */
  lemma StaysCleanIff(policy: Policy, s: System, a: Action, key: Key)
    requires Clean(s, key) && Enabled(policy, s, a)
    ensures Clean(Do(policy, s, a), key) <==> !BreaksOn(s, a, key)
  {
    var s' := Do(policy, s, a);
    if BreaksOn(s, a, key) {
      assert s'.workers[a.worker].Failing? && s'.workers[a.worker].record.key == key;
    } else {
      forall w | w in s'.workers && s'.workers[w].Failing? ensures s'.workers[w].record.key != key {
        assert w in s.workers;
      }
    }
  }

  /** A run in which no transaction on the key ends in a database error. */
  ghost predicate IsQuietPath(policy: Policy, trace: seq<System>, key: Key) {
    |trace| > 0 && forall i, j | 0 <= i < j < |trace| && j == i + 1 :: QuietNext(policy, trace[i], trace[j], key)
  }

  ghost predicate QuietNext(policy: Policy, s: System, s': System, key: Key) {
    exists a :: Enabled(policy, s, a) && !BreaksOn(s, a, key) && s' == Do(policy, s, a)
  }

  lemma QuietIsPath(policy: Policy, trace: seq<System>, key: Key)
    requires IsQuietPath(policy, trace, key)
    ensures IsPath(policy, trace)
  {
    forall i, j | 0 <= i < j < |trace| && j == i + 1 ensures Next(policy, trace[i], trace[j]) {
      assert QuietNext(policy, trace[i], trace[j], key);
    }
  }

  lemma {:induction false} CleanForever(policy: Policy, trace: seq<System>, i: nat, key: Key)
    requires IsQuietPath(policy, trace, key) && Clean(trace[0], key) && i < |trace|
    ensures Clean(trace[i], key)
  {
    if i > 0 {
      var h := i - 1;
      CleanForever(policy, trace, h, key);
      assert QuietNext(policy, trace[h], trace[i], key);
      var a :| Enabled(policy, trace[h], a) && !BreaksOn(trace[h], a, key) && trace[i] == Do(policy, trace[h], a);
      StaysCleanIff(policy, trace[h], a, key);
    }
  }

  /** One more step in front of a quiet run. */
  lemma QuietStep(policy: Policy, s: System, a: Action, rest: seq<System>, key: Key)
    requires Enabled(policy, s, a) && !BreaksOn(s, a, key)
    requires IsQuietPath(policy, rest, key) && rest[0] == Do(policy, s, a)
    ensures IsQuietPath(policy, [s] + rest, key)
  {
    var trace := [s] + rest;
    forall i, j | 0 <= i < j < |trace| && j == i + 1 ensures QuietNext(policy, trace[i], trace[j], key) {
      if i > 0 {
        assert QuietNext(policy, rest[i - 1], rest[j - 1], key);
      } else {
        assert QuietNext(policy, s, rest[0], key);
      }
    }
  }

  /** A run of the whole system that goes on in a given way. */
  ghost predicate Continues(policy: Policy, s: System, trace: seq<System>, key: Key) {
    IsQuietPath(policy, trace, key) && trace[0] == s
  }

  /** A delivery row can always end up parked, receipt or not. */
  lemma RowCanBeParked(policy: Policy, s: System, key: Key) returns (trace: seq<System>)
    requires key in s.db.deliveries
    ensures Continues(policy, s, trace, key) && IsParked(trace[|trace| - 1].db, key)
    ensures trace[|trace| - 1].db.receipts == s.db.receipts && trace[|trace| - 1].effects == s.effects
  {
    if s.db.deliveries[key].status == Retry {
      var a := Sweep(0, s.db.deliveries[key].nextAttemptAt + policy.maxDelay);
      QuietStep(policy, s, a, [Do(policy, s, a)], key);
      trace := [s] + [Do(policy, s, a)];
    } else {
      trace := [s];
    }
  }

  /** A failure that is still to be recorded can end in a parked row. */
  lemma FailingCanBeParked(policy: Policy, s: System, w: nat, key: Key) returns (trace: seq<System>)
    requires w in s.workers && s.workers[w].Failing? && s.workers[w].record.key == key
    ensures Continues(policy, s, trace, key) && IsParked(trace[|trace| - 1].db, key)
    ensures trace[|trace| - 1].db.receipts == s.db.receipts && trace[|trace| - 1].effects == s.effects
  {
    var a := RecordFailure(w, 0);
    var rest := RowCanBeParked(policy, Do(policy, s, a), key);
    QuietStep(policy, s, a, rest, key);
    trace := [s] + rest;
  }

  ghost predicate CanBeParkedQuietly(policy: Policy, s: System, key: Key) {
    exists trace: seq<System> :: Continues(policy, s, trace, key) && IsParked(trace[|trace| - 1].db, key)
  }

  /** As long as the database commits what it is asked to, an applied event can still be
      dead-lettered exactly when it is not clean: when it left a delivery row behind or a concurrent
      failure is still to be recorded. */
  lemma AppliedCanBeParkedIffNotClean(policy: Policy, s: System, key: Key)
    requires key in s.db.receipts
    ensures CanBeParkedQuietly(policy, s, key) <==> !Clean(s, key)
  {
    if Clean(s, key) {
      forall trace: seq<System> | Continues(policy, s, trace, key) ensures !IsParked(trace[|trace| - 1].db, key) {
        CleanForever(policy, trace, |trace| - 1, key);
      }
    } else if key in s.db.deliveries {
      var trace := RowCanBeParked(policy, s, key);
    } else {
      var w :| w in s.workers && s.workers[w].Failing? && s.workers[w].record.key == key;
      var trace := FailingCanBeParked(policy, s, w, key);
    }
  }

  /** One more step in front of a run. */
  lemma PathStep(policy: Policy, s: System, a: Action, rest: seq<System>)
    requires Enabled(policy, s, a) && IsPath(policy, rest) && rest[0] == Do(policy, s, a)
    ensures IsPath(policy, [s] + rest)
  {
    var trace := [s] + rest;
    forall i, j | 0 <= i < j < |trace| && j == i + 1 ensures Next(policy, trace[i], trace[j]) {
      if i > 0 {
        assert Next(policy, rest[i - 1], rest[j - 1]);
      } else {
        assert Next(policy, s, rest[0]);
      }
    }
  }

  /** A moment at which no delivery of the key is deferred. */
  function AfterRetry(db: Tables, key: Key): Time {
    if key in db.deliveries then db.deliveries[key].nextAttemptAt else 0
  }

  /** With database errors no event is ever safe: whatever the state, and however long ago the event
      was applied, one more entry of it whose transaction rolls back can end in a parked row, with no
      effect lost or repeated. */
  lemma AnyEventCanBeParked(policy: Policy, s: System, key: Key) returns (trace: seq<System>)
    ensures IsPath(policy, trace) && trace[0] == s
    ensures var last := trace[|trace| - 1];
            IsParked(last.db, key) && last.db.receipts == s.db.receipts && last.effects == s.effects
  {
    var id := Fresh(s.stream.Keys);
    var w := Fresh(s.workers.Keys);
    var publish, deliver := Publish(id, key.event), Deliver(w, 0, Record(id, key), AfterRetry(s.db, key));
    var s1 := Do(policy, s, publish);
    var s2 := Do(policy, s1, deliver);
    var s3 := Do(policy, s2, Handle(w, RollsBack));
    var rest := FailingCanBeParked(policy, s3, w, key);
    QuietIsPath(policy, rest, key);
    PathStep(policy, s2, Handle(w, RollsBack), rest);
    PathStep(policy, s1, deliver, [s2] + rest);
    PathStep(policy, s, publish, [s1] + ([s2] + rest));
    trace := [s] + ([s1] + ([s2] + rest));
  }

  /** Two workers have read the same entry; the one failed in the handler, the other applied it. */
  function AppliedWhileFailing(key: Key): System {
    var r := Record(0, key);
    System(Tables({key}, map[], {}), [key], map[0 := key.event], {}, map[0 := Failing(r, 0, 0), 1 := Settled(r)])
  }

  function BothChecked(key: Key): System {
    var r := Record(0, key);
    System(Tables({}, map[], {}), [], map[0 := key.event], {}, map[0 := Checked(r, 0, 0), 1 := Checked(r, 1, 0)])
  }

  lemma ReachesBothChecked(policy: Policy, key: Key) returns (trace: seq<System>)
    ensures IsQuietPath(policy, trace, key) && Init(trace[0]) && |trace| == 4 && trace[3] == BothChecked(key)
  {
    var r, none, stream := Record(0, key), Tables({}, map[], {}), map[0 := key.event];
    var s0 := System(none, [], map[], {}, map[]);
    var s1 := System(none, [], stream, {}, map[]);
    var s2 := System(none, [], stream, {}, map[0 := Checked(r, 0, 0)]);
    var s3 := BothChecked(key);
    trace := [s0, s1, s2, s3];
    assert s1 == Do(policy, s0, Publish(0, key.event)) && QuietNext(policy, s0, s1, key);
    assert s2 == Do(policy, s1, Deliver(0, 0, r, 0)) && QuietNext(policy, s1, s2, key);
    assert s3 == Do(policy, s2, Deliver(1, 1, r, 0)) && QuietNext(policy, s2, s3, key);
  }

  lemma ReachesAppliedWhileFailing(policy: Policy, key: Key) returns (trace: seq<System>)
    ensures IsQuietPath(policy, trace, key) && |trace| == 3
    ensures trace[0] == BothChecked(key) && trace[2] == AppliedWhileFailing(key)
  {
    var r := Record(0, key);
    var s0, s2 := BothChecked(key), AppliedWhileFailing(key);
    var s1 := s0.(workers := map[0 := Failing(r, 0, 0), 1 := Checked(r, 1, 0)]);
    trace := [s0, s1, s2];
    assert s1 == Do(policy, s0, Handle(0, HandlerFails)) && QuietNext(policy, s0, s1, key);
    assert s2 == Do(policy, s1, Handle(1, Completes)) && QuietNext(policy, s1, s2, key);
  }

  lemma QuietAppend(policy: Policy, a: seq<System>, b: seq<System>, key: Key)
    requires IsQuietPath(policy, a, key) && IsQuietPath(policy, b, key) && a[|a| - 1] == b[0]
    ensures IsQuietPath(policy, a + b[1..], key)
  {
    var c := a + b[1..];
    forall i, j | 0 <= i < j < |c| && j == i + 1 ensures QuietNext(policy, c[i], c[j], key) {
      if j < |a| {
        assert QuietNext(policy, a[i], a[j], key);
      } else {
        assert QuietNext(policy, b[i + 1 - |a|], b[j + 1 - |a|], key);
      }
    }
  }

  /** From the start, and with a reliable database: an event is applied, and afterwards the failure
      of the other worker is recorded and swept. The event is applied and parked. */
  lemma AppliedThenParked(policy: Policy, key: Key) returns (trace: seq<System>)
    ensures IsQuietPath(policy, trace, key) && Init(trace[0]) && |trace| > 5
    ensures key in trace[5].db.receipts && key !in trace[5].db.deliveries
    ensures key in trace[|trace| - 1].db.receipts && IsParked(trace[|trace| - 1].db, key)
  {
    var start := ReachesBothChecked(policy, key);
    var middle := ReachesAppliedWhileFailing(policy, key);
    QuietAppend(policy, start, middle, key);
    var early := start + middle[1..];
    var late := FailingCanBeParked(policy, AppliedWhileFailing(key), 0, key);
    QuietAppend(policy, early, late, key);
    trace := early + late[1..];
    assert trace[|trace| - 1] == late[|late| - 1] && trace[5] == early[5] == middle[2];
  }

  // ----- The consumer's database calls

  datatype Outcome = Applied | Duplicate | Deferred | RetryLater | Parked

  /** DeliveryConsumer, over the tables it updates. */
  class DeliveryConsumer {
    const policy: Policy
    const group: nat
    const consumer: nat
    var receipts: set<Key>
    var deliveries: map<Key, Delivery>
    var letters: set<(nat, EventId)>
    var effects: seq<Key>
    var acked: set<Record>

    ghost function View(): Tables
      reads this
    {
      Tables(receipts, deliveries, letters)
    }

    constructor (policy: Policy, group: nat, consumer: nat)
      ensures View() == Tables({}, map[], {}) && effects == [] && acked == {}
      ensures this.policy == policy && this.group == group && this.consumer == consumer
    {
      this.policy, this.group, this.consumer := policy, group, consumer;
      receipts, deliveries, letters, effects, acked := {}, map[], {}, [], {};
    }

    /** The counter upsert and what follows it; returns the attempts so far. */
    method NoteFailure(key: Key, now: Time, delay: nat) returns (attempts: nat)
      modifies this`deliveries, this`letters
      ensures View() == RecordFailureTx(policy, old(View()), consumer, key, now, delay)
      ensures attempts == NextAttempts(old(View()), key)
    {
      attempts := if key in deliveries then deliveries[key].attempts + 1 else 1;
      if attempts >= policy.maxAttempts {
        deliveries := deliveries[key := Delivery(attempts, DeadLettered, now)];
        letters := letters + {(consumer, key.event)};
      } else {
        deliveries := deliveries[key := Delivery(attempts, Retry, now + delay)];
      }
    }

    /** The whole of process, uninterrupted. A receipt is committed at most once and the handler's
        effect with it; a failing transaction is recorded even if the receipt exists; the record is
        acknowledged except when it is deferred or to be retried. */
    method Process(r: Record, t: TxResult, now: Time, delay: nat) returns (o: Outcome)
      requires r.key.group == group
      modifies this
      ensures o == Deferred <==> IsDeferred(old(View()), r.key, now)
      ensures o == Duplicate <==>
                !IsDeferred(old(View()), r.key, now) && r.key in old(receipts) && !Fails(old(View()), r.key, t)
      ensures o == Applied <==>
                !IsDeferred(old(View()), r.key, now) && r.key !in old(receipts) && !Fails(old(View()), r.key, t)
      ensures o == Parked ==> NextAttempts(old(View()), r.key) >= policy.maxAttempts
      ensures o == RetryLater ==> NextAttempts(old(View()), r.key) < policy.maxAttempts
      ensures acked == old(acked) + (if o == Deferred || o == RetryLater then {} else {r})
      ensures o == Deferred ==> View() == old(View()) && effects == old(effects)
      ensures o != Deferred ==>
                effects == old(effects) + (if Commits(old(View()), r.key, t) then [r.key] else [])
      ensures o == Duplicate || o == Applied ==> View() == HandleTx(old(View()), r.key, t)
      ensures o == Parked || o == RetryLater ==>
                View() == RecordFailureTx(policy, HandleTx(old(View()), r.key, t), consumer, r.key, now, delay)
    {
      if r.key in deliveries && deliveries[r.key].status == Retry && deliveries[r.key].nextAttemptAt > now {
        return Deferred;
      }
      ghost var db := View();
      var duplicate := r.key in receipts;
      if !duplicate && (t == Completes || t == CommitsUnseen) {
        receipts := receipts + {r.key};
        effects := effects + [r.key];
      }
      assert View() == HandleTx(db, r.key, t);
      if t == Completes || (t == HandlerFails && duplicate) {
        o := if duplicate then Duplicate else Applied;
      } else {
        var attempts := NoteFailure(r.key, now, delay);
        if attempts < policy.maxAttempts {
          return RetryLater;
        }
        o := Parked;
      }
      acked := acked + {r};
    }

    /** sweep_stalled: one pass over the overdue rows of every group. */
    method SweepStalled(now: Time) returns (swept: nat)
      modifies this`deliveries, this`letters
      ensures View() == SweepTx(policy, old(View()), consumer, now)
      ensures swept == |set k | k in old(deliveries) && Stalled(policy, old(deliveries)[k], now)|
    {
      var stalled := set k | k in deliveries && Stalled(policy, deliveries[k], now);
      ghost var db := View();
      var rest := stalled;
      swept := 0;
      while rest != {}
        invariant rest <= stalled && swept == |stalled| - |rest|
        invariant deliveries.Keys == db.deliveries.Keys
        invariant forall k | k in db.deliveries ::
                    deliveries[k] == if k in stalled - rest then Swept(policy, db.deliveries[k]) else db.deliveries[k]
        invariant letters == db.letters + set k | k in stalled - rest :: (consumer, k.event)
        decreases rest
      {
        var k :| k in rest;
        deliveries := deliveries[k := Swept(policy, deliveries[k])];
        letters := letters + {(consumer, k.event)};
        swept := swept + 1;
        rest := rest - {k};
      }
      ghost var after := SweepTx(policy, db, consumer, now);
      assert deliveries == after.deliveries;
      assert stalled - rest == stalled;
      assert letters == after.letters;
    }
  }
}
