/** Versioned task transitions and graph execution transitions, with the audit log and the state
    durations they write. The invariants of the two classes hold after every sequence of calls. */
module Repositories {
  import opened Lifecycles
  import opened Options

  type Time = int

  // ----- Tasks

  datatype TaskRow = TaskRow(projectId: nat, createdAt: Time, state: TaskStatus, version: nat, enteredAt: Time)

  /** A task.state_changed audit event. */
  datatype TaskEvent = TaskEvent(taskId: nat, source: TaskStatus, target: TaskStatus, version: nat)

  /** A recorded stay of a task in a state. */
  datatype Span = Span(taskId: nat, state: TaskStatus, enteredAt: Time, exitedAt: Time)

  /** duration_seconds = max(0, exited - entered) */
  function Seconds(s: Span): nat {
    if s.exitedAt >= s.enteredAt then s.exitedAt - s.enteredAt else 0
  }

  function EventsOf(log: seq<TaskEvent>, id: nat): seq<TaskEvent> {
    if log == [] then []
    else
      var e := log[|log| - 1];
      EventsOf(log[..|log| - 1], id) + (if e.taskId == id then [e] else [])
  }

  function SpansOf(spans: seq<Span>, id: nat): seq<Span> {
    if spans == [] then []
    else
      var s := spans[|spans| - 1];
      SpansOf(spans[..|spans| - 1], id) + (if s.taskId == id then [s] else [])
  }

  lemma LogSnoc(log: seq<TaskEvent>, e: TaskEvent, spans: seq<Span>, s: Span, id: nat)
    ensures EventsOf(log + [e], id) == if e.taskId == id then EventsOf(log, id) + [e] else EventsOf(log, id)
    ensures SpansOf(spans + [s], id) == if s.taskId == id then SpansOf(spans, id) + [s] else SpansOf(spans, id)
  {
    assert (log + [e])[..|log|] == log && (spans + [s])[..|spans|] == spans;
  }

  /** The state after the first i events. */
  function StateAfter(events: seq<TaskEvent>, i: nat): TaskStatus
    requires i <= |events|
  {
    if i == 0 then TaskPending else events[i - 1].target
  }

  /** The moment the i-th stay begins. */
  function StayBegins(start: Time, spans: seq<Span>, i: nat): Time
    requires i <= |spans|
  {
    if i == 0 then start else spans[i - 1].exitedAt
  }

  /** When the task entered its first state; the creation time is a clock reading of its own. */
  function FirstEntry(row: TaskRow, spans: seq<Span>): Time {
    if spans == [] then row.enteredAt else spans[0].enteredAt
  }

  /** The i-th event and span continue where the previous ones ended. */
  ghost predicate Continues(start: Time, events: seq<TaskEvent>, spans: seq<Span>, i: nat)
    requires i < |events| == |spans|
  {
    && events[i].version == i + 2
    && events[i].source == StateAfter(events, i)
    && events[i].target in TaskTargets(events[i].source)
    && spans[i].state == events[i].source
    && spans[i].enteredAt == StayBegins(start, spans, i)
  }

  /** The events carry the versions 2, 3, ... and form a path of the task state machine from
      PENDING to the current state; the spans follow the same states and leave no gap between the
      entry into the first state and the entry into the current one. */
  ghost predicate SoundHistory(row: TaskRow, events: seq<TaskEvent>, spans: seq<Span>) {
    && row.version == |events| + 1 == |spans| + 1
    && (forall i: nat | i < |events| :: Continues(FirstEntry(row, spans), events, spans, i))
    && row.state == StateAfter(events, |events|)
    && row.enteredAt == StayBegins(FirstEntry(row, spans), spans, |spans|)
  }

  lemma HistoryGrows(row: TaskRow, events: seq<TaskEvent>, spans: seq<Span>, id: nat, target: TaskStatus, now: Time)
    requires SoundHistory(row, events, spans) && target in TaskTargets(row.state)
    ensures SoundHistory(
              row.(state := target, version := row.version + 1, enteredAt := now),
              events + [TaskEvent(id, row.state, target, row.version + 1)],
              spans + [Span(id, row.state, row.enteredAt, now)])
  {
    var events' := events + [TaskEvent(id, row.state, target, row.version + 1)];
    var spans' := spans + [Span(id, row.state, row.enteredAt, now)];
    var row' := row.(state := target, version := row.version + 1, enteredAt := now);
    assert FirstEntry(row', spans') == FirstEntry(row, spans);
    forall i: nat | i < |events'| ensures Continues(FirstEntry(row, spans), events', spans', i) {
      if i < |events| { assert Continues(FirstEntry(row, spans), events, spans, i); }
    }
  }

  function TotalSeconds(spans: seq<Span>): nat {
    if spans == [] then 0 else TotalSeconds(spans[..|spans| - 1]) + Seconds(spans[|spans| - 1])
  }

  ghost predicate Tiles(start: Time, spans: seq<Span>) {
    forall i | 0 <= i < |spans| :: spans[i].enteredAt == StayBegins(start, spans, i)
  }

  ghost predicate ClockForward(spans: seq<Span>) {
    forall i | 0 <= i < |spans| :: spans[i].enteredAt <= spans[i].exitedAt
  }

  /** The recorded seconds add up to the time between the first entry and the last transition exactly
      when the clock never ran backwards; otherwise they add up to more. */
  lemma {:induction false} SecondsAddUp(start: Time, spans: seq<Span>)
    requires Tiles(start, spans)
    ensures TotalSeconds(spans) >= StayBegins(start, spans, |spans|) - start
    ensures TotalSeconds(spans) == StayBegins(start, spans, |spans|) - start <==> ClockForward(spans)
  {
    if spans != [] {
      var n := |spans| - 1;
      var init := spans[..n];
      forall i | 0 <= i < n ensures init[i].enteredAt == StayBegins(start, init, i) {
        assert StayBegins(start, init, i) == StayBegins(start, spans, i);
      }
      SecondsAddUp(start, init);
      assert StayBegins(start, init, n) == StayBegins(start, spans, n) == spans[n].enteredAt;
      assert ClockForward(spans) <==> ClockForward(init) && spans[n].enteredAt <= spans[n].exitedAt;
    }
  }

  /** The recorded stays of a task tile its lifetime. */
  lemma DurationsTile(row: TaskRow, events: seq<TaskEvent>, spans: seq<Span>)
    requires SoundHistory(row, events, spans)
    ensures Tiles(FirstEntry(row, spans), spans)
    ensures TotalSeconds(spans) == row.enteredAt - FirstEntry(row, spans) <==> ClockForward(spans)
  {
    forall i: nat | i < |spans| ensures spans[i].enteredAt == StayBegins(FirstEntry(row, spans), spans, i) {
      assert Continues(FirstEntry(row, spans), events, spans, i);
    }
    SecondsAddUp(FirstEntry(row, spans), spans);
  }

  /** For each expected version at most one transition of a task ever succeeds. */
  lemma OneSuccessPerVersion(row: TaskRow, events: seq<TaskEvent>, spans: seq<Span>, v: nat)
    requires SoundHistory(row, events, spans)
    ensures (exists i :: 0 <= i < |events| && events[i].version == v) <==> 2 <= v <= row.version
    ensures forall i, j | 0 <= i < j < |events| :: events[i].version != events[j].version
  {
    forall i: nat | i < |events| ensures events[i].version == i + 2 {
      assert Continues(FirstEntry(row, spans), events, spans, i);
    }
    if 2 <= v <= row.version {
      assert events[v - 2].version == v;
    }
  }

  datatype TaskOutcome = Moved(row: TaskRow) | NotFound | Stale | Illegal

  /** What the transition of a stored row must answer. */
  function TaskAnswer(
    tasks: map<nat, TaskRow>, projectId: nat, id: nat, expected: nat, target: TaskStatus, now: Time): TaskOutcome
  {
    if id !in tasks || tasks[id].projectId != projectId then NotFound
    else if tasks[id].version != expected then Stale
    else if target !in TaskTargets(tasks[id].state) then Illegal
    else Moved(tasks[id].(state := target, version := expected + 1, enteredAt := now))
  }

  /** What the ledger records of one task. */
  ghost predicate Accounted(tasks: map<nat, TaskRow>, audit: seq<TaskEvent>, spans: seq<Span>, id: nat) {
    if id in tasks then SoundHistory(tasks[id], EventsOf(audit, id), SpansOf(spans, id))
    else EventsOf(audit, id) == [] && SpansOf(spans, id) == []
  }

  /** Every task has a sound history, and nothing is recorded of anything else. */
  ghost predicate Ledger(tasks: map<nat, TaskRow>, audit: seq<TaskEvent>, spans: seq<Span>) {
    forall id: nat :: Accounted(tasks, audit, spans, id)
  }

  lemma LedgerGrows(
    tasks: map<nat, TaskRow>, audit: seq<TaskEvent>, spans: seq<Span>, id: nat, target: TaskStatus, now: Time)
    requires Ledger(tasks, audit, spans) && id in tasks && target in TaskTargets(tasks[id].state)
    ensures var row := tasks[id];
            Ledger(
              tasks[id := row.(state := target, version := row.version + 1, enteredAt := now)],
              audit + [TaskEvent(id, row.state, target, row.version + 1)],
              spans + [Span(id, row.state, row.enteredAt, now)])
  {
    var row := tasks[id];
    var moved := row.(state := target, version := row.version + 1, enteredAt := now);
    var event, span := TaskEvent(id, row.state, target, row.version + 1), Span(id, row.state, row.enteredAt, now);
    var tasks', audit', spans' := tasks[id := moved], audit + [event], spans + [span];
    forall k: nat ensures Accounted(tasks', audit', spans', k) {
      assert Accounted(tasks, audit, spans, k);
      LogSnoc(audit, event, spans, span, k);
      if k == id { HistoryGrows(row, EventsOf(audit, id), SpansOf(spans, id), id, target, now); }
    }
  }

  lemma LedgerCreates(
    tasks: map<nat, TaskRow>, audit: seq<TaskEvent>, spans: seq<Span>, id: nat, projectId: nat,
    createdAt: Time, enteredAt: Time)
    requires Ledger(tasks, audit, spans) && id !in tasks
    ensures Ledger(tasks[id := TaskRow(projectId, createdAt, TaskPending, 1, enteredAt)], audit, spans)
  {
    var tasks' := tasks[id := TaskRow(projectId, createdAt, TaskPending, 1, enteredAt)];
    forall k: nat ensures Accounted(tasks', audit, spans, k) {
      assert Accounted(tasks, audit, spans, k);
    }
  }

  /** DomainRepository, the task part. */
  class TaskRepository {
    var tasks: map<nat, TaskRow>
    var audit: seq<TaskEvent>
    var outbox: seq<TaskEvent>
    var spans: seq<Span>

    ghost predicate Valid()
      reads this
    {
      Ledger(tasks, audit, spans) && outbox == audit
    }

    constructor ()
      ensures Valid() && tasks == map[] && audit == [] && spans == []
    {
      tasks, audit, outbox, spans := map[], [], [], [];
    }

    /** The two timestamps of a new row are two clock readings. */
    method CreateTask(id: nat, projectId: nat, createdAt: Time, enteredAt: Time) returns (created: bool)
      requires Valid()
      modifies this
      ensures Valid()
      ensures created <==> id !in old(tasks)
      ensures tasks == if created then old(tasks)[id := TaskRow(projectId, createdAt, TaskPending, 1, enteredAt)]
                       else old(tasks)
      ensures audit == old(audit) && spans == old(spans)
    {
      created := id !in tasks;
      if created {
        LedgerCreates(tasks, audit, spans, id, projectId, createdAt, enteredAt);
        tasks := tasks[id := TaskRow(projectId, createdAt, TaskPending, 1, enteredAt)];
      }
    }

    /** One versioned transition. Success moves the row and appends one audit event, the same
        outbox event and one span; failure changes nothing. */
    method TransitionTask(projectId: nat, id: nat, expected: nat, target: TaskStatus, now: Time)
      returns (o: TaskOutcome)
      requires Valid()
      modifies this
      ensures Valid()
      ensures o == TaskAnswer(old(tasks), projectId, id, expected, target, now)
      ensures o.Moved? ==>
                && tasks == old(tasks)[id := o.row]
                && audit == old(audit) + [TaskEvent(id, old(tasks)[id].state, target, o.row.version)]
                && spans == old(spans) + [Span(id, old(tasks)[id].state, old(tasks)[id].enteredAt, now)]
      ensures !o.Moved? ==> tasks == old(tasks) && audit == old(audit) && spans == old(spans)
    {
      if id !in tasks || tasks[id].projectId != projectId {
        return NotFound;
      }
      var row := tasks[id];
      if row.version != expected {
        return Stale;
      }
      if target !in TaskTargets(row.state) {
        return Illegal;
      }
      var span := Span(id, row.state, row.enteredAt, now);
      var moved := row.(state := target, version := row.version + 1, enteredAt := now);
      var event := TaskEvent(id, row.state, target, moved.version);
      LedgerGrows(tasks, audit, spans, id, target, now);
      spans := spans + [span];
      tasks := tasks[id := moved];
      audit := audit + [event];
      outbox := outbox + [event];
      o := Moved(moved);
    }
  }

  // ----- Graph executions

  datatype GraphRow = GraphRow(
    runId: nat, repositoryId: nat, baseline: nat, threadId: nat, state: GraphState, checkpoint: Option<nat>)

  /** The two audit events of a graph execution. */
  datatype GraphEvent =
    | StateChanged(threadId: nat, source: GraphState, target: GraphState)
    | Rollover(fromThread: nat, toThread: nat, previous: GraphState)

  /** What an auditor knows after reading a log: thread, state, and whether a rollover is open. */
  datatype Replayed = NoExecution | Execution(threadId: nat, state: GraphState, rolling: bool) | Broken

  /** One audited event, checked against the transition table. A rollover moves to another thread
      and must be followed by a restart in RUNNING; nothing else leaves a terminal state. */
  function ReplayEvent(known: Replayed, e: GraphEvent): Replayed {
    match known
    case Broken => Broken
    case NoExecution =>
      if e.StateChanged? && e.source == NotStarted && e.target in GraphTargets(NotStarted)
      then Execution(e.threadId, e.target, false) else Broken
    case Execution(thread, state, rolling) =>
      match e
      case Rollover(a, b, previous) =>
        if !rolling && a == thread && b != thread && previous == state then Execution(b, state, true) else Broken
      case StateChanged(t, source, target) =>
        if t == thread && source == state
           && (if rolling then target == Running else target != state && target in GraphTargets(state))
        then Execution(t, target, false) else Broken
  }

  function ReplayLog(log: seq<GraphEvent>): Replayed {
    if log == [] then NoExecution else ReplayEvent(ReplayLog(log[..|log| - 1]), log[|log| - 1])
  }

  lemma ReplaySnoc(log: seq<GraphEvent>, e: GraphEvent)
    ensures ReplayLog(log + [e]) == ReplayEvent(ReplayLog(log), e)
  {
    assert (log + [e])[..|log|] == log;
  }

  predicate GraphTerminal(s: GraphState) {
    s in {Completed, Failed, Cancelled}
  }

  /** In a legal log a terminal state is only ever left by a rollover event, and the state change
      that follows it restarts the execution in RUNNING on the new thread. */
  lemma TerminalLeftByRollover(log: seq<GraphEvent>, e: GraphEvent)
    requires !ReplayEvent(ReplayLog(log), e).Broken?
    requires ReplayLog(log).Execution? && GraphTerminal(ReplayLog(log).state)
    ensures e.Rollover? || (e.target == Running && log != [] && log[|log| - 1].Rollover?)
  {
    if ReplayLog(log).rolling { RollingEndsInRollover(log); }
  }

  lemma RollingEndsInRollover(log: seq<GraphEvent>)
    requires ReplayLog(log).Execution? && ReplayLog(log).rolling
    ensures log != [] && log[|log| - 1].Rollover?
  {
  }

  /** What a transition call answers: an exception, a checkpoint update only, or a change with the
      audit events it writes. */
  datatype GraphAnswer = Refused | Kept(row: GraphRow) | Changed(row: GraphRow, events: seq<GraphEvent>)

  datatype GraphRequest = GraphRequest(
    runId: nat, repositoryId: nat, baseline: nat, threadId: nat, target: GraphState, checkpoint: Option<nat>)

  /** The first transition of a task creates its execution. */
  function StartGraph(q: GraphRequest): GraphAnswer {
    if q.target != Running && q.target != Cancelled then Refused
    else Changed(
      GraphRow(q.runId, q.repositoryId, q.baseline, q.threadId, q.target, q.checkpoint),
      [StateChanged(q.threadId, NotStarted, q.target)])
  }

  /** A later transition stays on its thread or rolls over to a new one. */
  function MoveGraph(row: GraphRow, q: GraphRequest): GraphAnswer {
    var point := if q.checkpoint.Some? then q.checkpoint else row.checkpoint;
    var moved := row.(threadId := q.threadId, state := q.target, checkpoint := point);
    var change := StateChanged(q.threadId, row.state, q.target);
    if row.runId != q.runId || row.repositoryId != q.repositoryId || row.baseline != q.baseline then Refused
    else if row.threadId != q.threadId then
      if q.target != Running then Refused
      else Changed(moved, [Rollover(row.threadId, q.threadId, row.state), change])
    else if row.state == q.target then Kept(row.(checkpoint := point))
    else if q.target !in GraphTargets(row.state) then Refused
    else Changed(moved, [change])
  }

  /** A change out of a terminal state is a rollover to RUNNING with its audit event, and a change
      on the same thread is a step of the transition table. */
  lemma MoveIsSanctioned(row: GraphRow, q: GraphRequest)
    requires MoveGraph(row, q).Changed?
    ensures GraphTerminal(row.state) ==>
              q.target == Running && q.threadId != row.threadId
              && MoveGraph(row, q).events[0] == Rollover(row.threadId, q.threadId, row.state)
    ensures q.threadId == row.threadId ==> q.target in GraphTargets(row.state)
    ensures MoveGraph(row, q).row.state == q.target && MoveGraph(row, q).row.threadId == q.threadId
  {
  }

  /** The audit events of a change lead an auditor from the old row to the new one. */
  lemma MoveReplays(log: seq<GraphEvent>, row: GraphRow, q: GraphRequest)
    requires ReplayLog(log) == Execution(row.threadId, row.state, false)
    ensures var a := MoveGraph(row, q);
            && (a.Changed? ==> ReplayLog(log + a.events) == Execution(a.row.threadId, a.row.state, false))
            && (a.Kept? ==> a.row.threadId == row.threadId && a.row.state == row.state)
  {
    var a := MoveGraph(row, q);
    if a.Changed? {
      ReplaySnoc(log, a.events[0]);
      if |a.events| == 2 {
        ReplaySnoc(log + [a.events[0]], a.events[1]);
        assert log + [a.events[0]] + [a.events[1]] == log + a.events;
      } else {
        assert log + [a.events[0]] == log + a.events;
      }
    }
  }

  /** DomainRepository, the graph execution part. */
  class GraphRepository {
    var graphs: map<nat, GraphRow>
    var audits: map<nat, seq<GraphEvent>>

    /** Replaying the audit log of a task gives exactly its stored thread and state. */
    ghost predicate Valid()
      reads this
    {
      && audits.Keys == graphs.Keys
      && forall id | id in graphs :: ReplayLog(audits[id]) == Execution(graphs[id].threadId, graphs[id].state, false)
    }

    constructor ()
      ensures Valid() && graphs == map[]
    {
      graphs, audits := map[], map[];
    }

    /** The answer to a request, before the unique constraint on thread ids. */
    function Answer(id: nat, q: GraphRequest): GraphAnswer
      reads this
    {
      if id in graphs then MoveGraph(graphs[id], q) else StartGraph(q)
    }

    predicate ThreadTaken(id: nat, threadId: nat)
      reads this
    {
      exists k :: k in graphs && k != id && graphs[k].threadId == threadId
    }

    /** transition_graph_execution; after an exception nothing has changed. */
    method TransitionGraph(id: nat, q: GraphRequest) returns (a: GraphAnswer)
      requires Valid()
      modifies this
      ensures Valid()
      ensures a == if old(Answer(id, q)).Changed? && old(ThreadTaken(id, q.threadId)) then Refused
                   else old(Answer(id, q))
      ensures a.Refused? ==> graphs == old(graphs) && audits == old(audits)
      ensures a.Kept? ==> graphs == old(graphs)[id := a.row] && audits == old(audits)
      ensures a.Changed? ==>
                && graphs == old(graphs)[id := a.row]
                && audits == old(audits)[id := (if id in old(audits) then old(audits)[id] else []) + a.events]
    {
      if id in graphs {
        MoveReplays(audits[id], graphs[id], q);
      } else {
        ReplaySnoc([], StateChanged(q.threadId, NotStarted, q.target));
      }
      a := Answer(id, q);
      if a.Changed? && ThreadTaken(id, q.threadId) {
        a := Refused;
      }
      match a {
        case Refused =>
        case Kept(row) => graphs := graphs[id := row];
        case Changed(row, events) =>
          audits := audits[id := (if id in audits then audits[id] else []) + events];
          graphs := graphs[id := row];
      }
    }
  }
}
