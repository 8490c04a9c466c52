/** The outbox and the consumers together, joined by the stream: what the transport takes from a
    publisher appears as a stream entry. Entries are never trimmed. */
module Delivery {
  import O = Outbox
  import C = Consumer

  datatype System = System(outbox: O.System, consumer: C.System)

  /** The transport takes the event, whether or not the publisher learns of it. */
  predicate Takes(a: O.Action) {
    a.TransportTakes? || (a.TransportRefuses? && a.tookIt)
  }

  /** A publisher step; if the transport takes the event, an entry appears with it. */
  ghost predicate OutboxStep(cfg: O.Config, policy: C.Policy, s: System, a: O.Action, streamId: nat, s': System) {
    && O.Enabled(s.outbox, a) && s'.outbox == O.Do(cfg, s.outbox, a)
    && if Takes(a) then
         var entry := C.Publish(streamId, s.outbox.issued[a.token].event);
         C.Enabled(policy, s.consumer, entry) && s'.consumer == C.Do(policy, s.consumer, entry)
       else s'.consumer == s.consumer
  }

  ghost predicate ConsumerStep(policy: C.Policy, s: System, a: C.Action, s': System) {
    !a.Publish? && C.Enabled(policy, s.consumer, a) && s' == s.(consumer := C.Do(policy, s.consumer, a))
  }

  ghost predicate Next(cfg: O.Config, policy: C.Policy, s: System, s': System) {
    || (exists a, streamId :: OutboxStep(cfg, policy, s, a, streamId, s'))
    || (exists a :: ConsumerStep(policy, s, a, s'))
  }

  ghost predicate IsRun(cfg: O.Config, policy: C.Policy, trace: seq<System>) {
    && |trace| > 0 && O.Init(trace[0].outbox) && C.Init(trace[0].consumer)
    && forall i, j | 0 <= i < j < |trace| && j == i + 1 :: Next(cfg, policy, trace[i], trace[j])
  }

  ghost predicate InStream(s: C.System, e: nat) {
    exists id :: id in s.stream && s.stream[id] == e
  }

  /** Stored and handed to a publisher at least once. */
  ghost predicate WasClaimed(s: O.System, e: nat) {
    e in s.db.rows && s.db.rows[e].attempts >= 1
  }

  ghost predicate Inv(cfg: O.Config, policy: C.Policy, s: System) {
    && O.Inv(cfg, s.outbox) && C.Inv(policy, s.consumer)
    && (forall e | e in s.outbox.taken :: InStream(s.consumer, e) && WasClaimed(s.outbox, e))
    && (forall id | id in s.consumer.stream :: s.consumer.stream[id] in s.outbox.taken)
    && (forall k | k in s.consumer.effects :: k.event in s.outbox.taken)
  }

  lemma StreamGrows(s: C.System, s': C.System, e: nat)
    requires InStream(s, e) && forall id | id in s.stream :: id in s'.stream && s'.stream[id] == s.stream[id]
    ensures InStream(s', e)
  {
    var id :| id in s.stream && s.stream[id] == e;
    assert id in s'.stream && s'.stream[id] == e;
  }

  /** Rows stay and their counters only grow. */
  lemma ClaimedStays(cfg: O.Config, s: O.System, a: O.Action, e: nat)
    requires O.Enabled(s, a) && WasClaimed(s, e)
    ensures WasClaimed(O.Do(cfg, s, a), e)
  {
  }

  lemma ConsumerKeepsInv(cfg: O.Config, policy: C.Policy, s: System, a: C.Action, s': System)
    requires Inv(cfg, policy, s) && ConsumerStep(policy, s, a, s')
    ensures Inv(cfg, policy, s')
  {
    C.StepKeepsInv(policy, s.consumer, a);
    assert s'.consumer.stream == s.consumer.stream;
    forall e | e in s.outbox.taken ensures InStream(s'.consumer, e) { StreamGrows(s.consumer, s'.consumer, e); }
    forall k | k in s'.consumer.effects ensures k.event in s.outbox.taken {
      if k !in s.consumer.effects {
        assert C.PhaseInv(s.consumer, s.consumer.workers[a.worker]);
      }
    }
  }

  lemma OutboxKeepsInv(cfg: O.Config, policy: C.Policy, s: System, a: O.Action, streamId: nat, s': System)
    requires Inv(cfg, policy, s) && OutboxStep(cfg, policy, s, a, streamId, s')
    ensures Inv(cfg, policy, s')
  {
    O.StepKeepsInv(cfg, s.outbox, a);
    if Takes(a) {
      var event := s.outbox.issued[a.token].event;
      C.StepKeepsInv(policy, s.consumer, C.Publish(streamId, event));
      assert O.ClaimInv(s.outbox, a.token, s.outbox.issued[a.token]);
      assert s'.consumer.stream[streamId] == event && streamId in s'.consumer.stream;
      assert InStream(s'.consumer, event) && WasClaimed(s.outbox, event);
    }
    forall e | e in s'.outbox.taken ensures InStream(s'.consumer, e) && WasClaimed(s'.outbox, e) {
      assert WasClaimed(s.outbox, e);
      ClaimedStays(cfg, s.outbox, a, e);
      if e in s.outbox.taken { StreamGrows(s.consumer, s'.consumer, e); }
    }
  }

  lemma {:induction false} RunKeepsInv(cfg: O.Config, policy: C.Policy, trace: seq<System>, i: nat)
    requires IsRun(cfg, policy, trace) && i < |trace|
    ensures Inv(cfg, policy, trace[i])
  {
    if i > 0 {
      var h := i - 1;
      RunKeepsInv(cfg, policy, trace, h);
      assert Next(cfg, policy, trace[h], trace[i]);
      if a, streamId :| OutboxStep(cfg, policy, trace[h], a, streamId, trace[i]) {
        OutboxKeepsInv(cfg, policy, trace[h], a, streamId, trace[i]);
      } else {
        var a :| ConsumerStep(policy, trace[h], a, trace[i]);
        ConsumerKeepsInv(cfg, policy, trace[h], a, trace[i]);
      }
    }
  }

  /** End to end, in every interleaving of publishers, consumers, crashes and redeliveries: a row
      marked published has an entry in the stream; an effect is committed only for a stored and
      claimed event, and at most once per group. */
  lemma EndToEnd(cfg: O.Config, policy: C.Policy, trace: seq<System>, i: nat, e: nat)
    requires IsRun(cfg, policy, trace) && i < |trace|
    ensures e in trace[i].outbox.db.rows && trace[i].outbox.db.rows[e].publishedAt.Some? ==>
              InStream(trace[i].consumer, e)
    ensures forall k | k in trace[i].consumer.effects && k.event == e :: WasClaimed(trace[i].outbox, e)
    ensures forall m, n | 0 <= m < n < |trace[i].consumer.effects| ::
              trace[i].consumer.effects[m] != trace[i].consumer.effects[n]
  {
    RunKeepsInv(cfg, policy, trace, i);
    if e in trace[i].outbox.db.rows {
      assert O.RowInv(cfg, trace[i].outbox, e, trace[i].outbox.db.rows[e]);
    }
  }
}
