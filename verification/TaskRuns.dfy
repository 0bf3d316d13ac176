/**
 The stored run rows of one task, written by the cron scheduler, the history
 sampler and the action handler in any interleaving (src/state/events.rs,
 src/daemon/scheduler.rs, src/daemon/sampler.rs, src/daemon/handle.rs).
 */
module TaskRuns {
  import opened Prelude
  import opened TaskRuntimes
  import opened RunTransitions

  datatype RowStatus = Open | Closed(outcome: string)

  /** A start row, or the record of an attempt that was skipped or failed. */
  datatype Kind = Run | Attempt

  datatype Row = Row(kind: Kind, generation: nat, startedAt: nat, status: RowStatus)

  predicate HasTaskRun(rows: seq<Row>, generation: nat, startedAt: nat) {
    exists i :: 0 <= i < |rows| && rows[i].generation == generation && rows[i].startedAt == startedAt
  }

  /** The newest row of the generation that is still open. */
  function LastOpen(rows: seq<Row>, generation: nat): (i: Option<nat>)
    ensures i.Some? ==> i.value < |rows| && rows[i.value].generation == generation && rows[i.value].status.Open?
    ensures i.Some? ==> forall j :: i.value < j < |rows| ==> !(rows[j].generation == generation && rows[j].status.Open?)
    ensures i.None? ==> forall j :: 0 <= j < |rows| ==> !(rows[j].generation == generation && rows[j].status.Open?)
  {
    if rows == [] then None
    else
      var last := rows[|rows| - 1];
      if last.generation == generation && last.status.Open? then Some(|rows| - 1)
      else
        var found := LastOpen(rows[..|rows| - 1], generation);
        assert forall j :: 0 <= j < |rows| - 1 ==> rows[..|rows| - 1][j] == rows[j];
        found
  }

  function StartRow(generation: nat, startedAt: nat): Row {
    Row(Run, generation, startedAt, Open)
  }

  function Finish(rows: seq<Row>, generation: nat, outcome: string): seq<Row> {
    var i := LastOpen(rows, generation);
    if i.Some? then rows[i.value := rows[i.value].(status := Closed(outcome))] else rows
  }

  /** Row `i` was the newest open one of the generation; it is closed with that outcome,
      and every other row is as it was. */
  ghost predicate ClosesNewest(before: seq<Row>, after: seq<Row>, generation: nat, outcome: string, i: nat) {
    && i < |before| == |after| && before[i].generation == generation && before[i].status.Open?
    && (forall j :: i < j < |before| ==> !(before[j].generation == generation && before[j].status.Open?))
    && after[i] == Row(before[i].kind, before[i].generation, before[i].startedAt, Closed(outcome))
    && forall j :: 0 <= j < |before| && j != i ==> after[j] == before[j]
  }

  class TaskRunTable {
    var rows: seq<Row>

    constructor ()
      ensures rows == []
    {
      rows := [];
    }

    method StartTaskRun(generation: nat, startedAt: nat)
      modifies this
      ensures rows == old(rows) + [StartRow(generation, startedAt)]
    {
      rows := rows + [Row(Run, generation, startedAt, Open)];
    }

    /** Check and insert are two steps of their own; other writers come in between. */
    method RecordTaskRunStart(generation: nat, startedAt: nat) returns (inserted: bool)
      modifies this
      ensures inserted <==> !HasTaskRun(old(rows), generation, startedAt)
      ensures rows == old(rows) + if inserted then [StartRow(generation, startedAt)] else []
    {
      if HasTaskRun(rows, generation, startedAt) {
        return false;
      }
      StartTaskRun(generation, startedAt);
      return true;
    }

    method RecordTerminalTaskRunAttempt(generation: nat, at: nat, outcome: string)
      modifies this
      ensures rows == old(rows) + [Row(Attempt, generation, at, Closed(outcome))]
    {
      rows := rows + [Row(Attempt, generation, at, Closed(outcome))];
    }

    method FinishTaskRun(generation: nat, outcome: string) returns (updated: bool)
      modifies this
      ensures rows == Finish(old(rows), generation, outcome)
      ensures updated <==>
                exists i :: 0 <= i < |old(rows)| && old(rows)[i].generation == generation && old(rows)[i].status.Open?
      ensures !updated ==> rows == old(rows)
      ensures updated ==> exists i :: ClosesNewest(old(rows), rows, generation, outcome, i)
    {
      var target := LastOpen(rows, generation);
      if target.None? {
        return false;
      }
      rows := rows[target.value := rows[target.value].(status := Closed(outcome))];
      assert ClosesNewest(old(rows), rows, generation, outcome, target.value);
      return true;
    }

    method FinishRunningTaskRuns(outcome: string)
      modifies this
      ensures |rows| == |old(rows)|
      ensures forall i :: 0 <= i < |rows| ==>
                rows[i] == if old(rows)[i].status.Open? then old(rows)[i].(status := Closed(outcome)) else old(rows)[i]
    {
      rows := seq(|rows|, i requires 0 <= i < |rows| reads this =>
                if rows[i].status.Open? then rows[i].(status := Closed(outcome)) else rows[i]);
    }
  }

  // ---- The interleaved system ---------------------------------------------------------

  /** The scheduler inside its sessions-lock section, between starting a run and
      inserting its row. */
  datatype Cron = Away | Holding(generation: nat, startedAt: nat, checked: bool)

  /** `starts`, `seenEnding`, `ended` and `recorded` only serve the statements: when
      each generation started, which ends the sampler reported, and which reported
      boundaries it has persisted. */
  datatype System = System(
    runtime: Runtime, cron: Cron, track: Option<Track>, queue: seq<Transition>, checked: bool,
    stopping: multiset<nat>, rows: seq<Row>,
    starts: map<nat, nat>, seenEnding: set<nat>, ended: set<nat>, recorded: set<nat>)

  datatype Event =
    | Operate(op: Op)                                         // any runtime operation under the sessions lock
    | HandleStop(w: Wait, op: Op)                             // action handler: note the active run, then act
    | HandlerFinish(generation: nat)                          // action handler: close the noted row, lock released
    | CronStart(w: Wait, s: Spawn, again: Wait)               // scheduler: start and look, sessions lock kept
    | CronCheck                                               // scheduler: is there a row already
    | CronInsert                                              // scheduler: insert, release the lock
    | CronAttempt(generation: nat, at: nat, outcome: string)   // scheduler: skipped or failed attempt
    | Collect(w: Wait, trigger: string, autoStart: bool)      // sampler: take transitions under the lock
    | SamplerCheck                                            // sampler: is there a row for the start at hand
    | SamplerInsert                                           // sampler: insert it
    | SamplerFinish                                           // sampler: close the row of the end at hand

  predicate HandlerOk(r: Runtime, op: Op) {
    match op
    case Stop(w, reap) => StopOk(r, w, reap)
    case Restart(w, reap, _, s) => RestartOk(r, w, reap, s)
    case _ => false
  }

  predicate Enabled(s: System, e: Event) {
    match e
    case Operate(_) => s.cron.Away?
    case HandleStop(_, op) => s.cron.Away? && (op.Stop? || op.Restart?)
    case HandlerFinish(g) => g in s.stopping
    case CronStart(w, spawn, _) => s.cron.Away? && !Active(Polled(s.runtime, w).status) && StartOk(s.runtime, w, spawn)
    case CronCheck => s.cron.Holding? && !s.cron.checked
    case CronInsert => s.cron.Holding? && s.cron.checked
    case CronAttempt(_, _, _) => true
    case Collect(_, _, _) => s.cron.Away? && s.queue == []
    case SamplerCheck => s.queue != [] && s.queue[0].RunStarted? && !s.checked
    case SamplerInsert => s.queue != [] && s.queue[0].RunStarted? && s.checked
    case SamplerFinish => s.queue != [] && s.queue[0].RunFinished?
  }

  function WithRuntime(s: System, r: Runtime): System {
    s.(runtime := r,
       starts := if r.generation > s.runtime.generation then s.starts[r.generation := r.startedAt] else s.starts)
  }

  function EndingsOf(transitions: seq<Transition>): set<nat> {
    set t | t in transitions && t.RunFinished? :: t.generation
  }

  function Next(key: Key, s: System, e: Event): System
    requires Enabled(s, e)
  {
    match e
    case Operate(op) => WithRuntime(s, Applied(s.runtime, op))
    case HandleStop(w, op) =>
      var p := Polled(s.runtime, w);
      var after := WithRuntime(s, Applied(p, op));
      if PollOk(s.runtime, w) && Active(p.status) && p.generation > 0 && HandlerOk(p, op)
      then after.(stopping := s.stopping + multiset{p.generation}) else after
    case HandlerFinish(g) => s.(rows := Finish(s.rows, g, "stopped"), stopping := s.stopping - multiset{g})
    case CronStart(w, spawn, again) =>
      var started := Started(s.runtime, w, spawn);
      var after := WithRuntime(s, Polled(started, again));
      if PollOk(started, again) then after.(cron := Holding(started.generation, started.startedAt, false)) else after
    case CronCheck =>
      if HasTaskRun(s.rows, s.cron.generation, s.cron.startedAt) then s.(cron := Away)
      else s.(cron := s.cron.(checked := true))
    case CronInsert => s.(rows := s.rows + [StartRow(s.cron.generation, s.cron.startedAt)], cron := Away)
    case CronAttempt(g, at, outcome) => s.(rows := s.rows + [Row(Attempt, g, at, Closed(outcome))])
    case Collect(w, trigger, autoStart) =>
      var r := Polled(s.runtime, w);
      if !PollOk(s.runtime, w) then WithRuntime(s, r)
      else
        var snapshot := SnapshotOf(r, autoStart);
        var found := Boundaries(key, s.track, snapshot, trigger);
        WithRuntime(s, r).(track := Some(Look(snapshot)), queue := found, seenEnding := s.seenEnding + EndingsOf(found))
    case SamplerCheck =>
      if HasTaskRun(s.rows, s.queue[0].generation, s.queue[0].startedAt)
      then s.(queue := s.queue[1..], recorded := s.recorded + {s.queue[0].generation})
      else s.(checked := true)
    case SamplerInsert =>
      s.(rows := s.rows + [StartRow(s.queue[0].generation, s.queue[0].startedAt)], queue := s.queue[1..],
         checked := false, recorded := s.recorded + {s.queue[0].generation})
    case SamplerFinish =>
      s.(rows := Finish(s.rows, s.queue[0].generation, s.queue[0].status), queue := s.queue[1..],
         ended := s.ended + {s.queue[0].generation})
  }

  // ---- Invariants ---------------------------------------------------------------------

  ghost predicate NoStartRow(rows: seq<Row>, generation: nat, startedAt: nat) {
    forall i :: 0 <= i < |rows| && rows[i].kind == Run ==>
      !(rows[i].generation == generation && rows[i].startedAt == startedAt)
  }

  /** At most one start row for each generation and start time. */
  ghost predicate StartsUnique(rows: seq<Row>) {
    forall i, j :: 0 <= i < j < |rows| && rows[i].kind == Run && rows[j].kind == Run ==>
      !(rows[i].generation == rows[j].generation && rows[i].startedAt == rows[j].startedAt)
  }

  ghost predicate OpenRowsOk(rows: seq<Row>, starts: map<nat, nat>) {
    forall i :: 0 <= i < |rows| && rows[i].status.Open? ==>
      rows[i].kind == Run && rows[i].generation in starts && rows[i].startedAt == starts[rows[i].generation]
  }

  ghost predicate NoneOpen(rows: seq<Row>, generation: nat) {
    forall i :: 0 <= i < |rows| && rows[i].generation == generation ==> !rows[i].status.Open?
  }

  /** What is left of one collection: perhaps the end of an older run, then a start,
      then perhaps its end. */
  ghost predicate QueueOk(s: System) {
    && (forall t :: t in s.queue && t.RunStarted? ==>
          && t.generation in s.starts && t.startedAt == s.starts[t.generation]
          && t.generation <= LastSampled(s.track)
          && forall g :: g in s.ended ==> g < t.generation)
    && (forall t :: t in s.queue && t.RunFinished? ==> t.generation <= LastSampled(s.track))
    && (forall i, j :: 0 <= i < j < |s.queue| && s.queue[j].RunStarted? ==>
          s.queue[i].RunFinished? && s.queue[i].generation < s.queue[j].generation)
    && (s.checked ==>
          && s.queue != [] && s.queue[0].RunStarted?
          && NoStartRow(s.rows, s.queue[0].generation, s.queue[0].startedAt))
  }

  ghost predicate CronOk(s: System) {
    s.cron.Holding? ==>
      && s.cron.generation == s.runtime.generation && s.cron.generation > LastSampled(s.track)
      && s.cron.generation in s.starts && s.starts[s.cron.generation] == s.cron.startedAt
      && (s.cron.checked ==> NoStartRow(s.rows, s.cron.generation, s.cron.startedAt))
  }

  ghost predicate RuntimeOk(s: System) {
    && Consistent(s.runtime) && TrackOk(s.track, s.runtime)
    && (forall g :: g in s.starts <==> 1 <= g <= s.runtime.generation)
    && (s.runtime.generation > 0 ==> s.starts[s.runtime.generation] == s.runtime.startedAt)
  }

  ghost predicate RowsOk(s: System) {
    && StartsUnique(s.rows) && OpenRowsOk(s.rows, s.starts)
    && (forall g :: g in s.ended ==> g <= LastSampled(s.track) && NoneOpen(s.rows, g))
    && (forall g :: g in s.recorded ==> g in s.starts && HasTaskRun(s.rows, g, s.starts[g]))
    && s.seenEnding == s.ended + EndingsOf(s.queue)
  }

  ghost predicate Inv(s: System) {
    RuntimeOk(s) && CronOk(s) && QueueOk(s) && RowsOk(s)
  }

  // ---- One step at a time ------------------------------------------------------------

  lemma RuntimeMoves(s: System, r: Runtime)
    requires Inv(s) && s.cron.Away?
    requires Consistent(r) && CanFollow(s.runtime, r) && r.generation <= s.runtime.generation + 1
    ensures Inv(WithRuntime(s, r))
  {
  }

  function Queued(s: System, snapshot: Snapshot, found: seq<Transition>): System {
    s.(track := Some(Look(snapshot)), queue := found, seenEnding := s.seenEnding + EndingsOf(found))
  }

  lemma QueueingKeepsInv(key: Key, s: System, trigger: string, autoStart: bool)
    requires Inv(s) && s.cron.Away? && s.queue == []
    ensures var snapshot := SnapshotOf(s.runtime, autoStart);
            Inv(Queued(s, snapshot, Boundaries(key, s.track, snapshot, trigger)))
  {
    BoundariesShape(key, s.track, SnapshotOf(s.runtime, autoStart), trigger);
  }

  lemma CollectKeepsInv(key: Key, s: System, w: Wait, trigger: string, autoStart: bool)
    requires Inv(s) && Enabled(s, Collect(w, trigger, autoStart))
    ensures Inv(Next(key, s, Collect(w, trigger, autoStart)))
  {
    OperationFollows(s.runtime, Op.Poll(w));
    var polled := WithRuntime(s, Polled(s.runtime, w));
    RuntimeMoves(s, polled.runtime);
    if PollOk(s.runtime, w) {
      QueueingKeepsInv(key, polled, trigger, autoStart);
    }
  }

  lemma BoundariesShape(key: Key, track: Option<Track>, s: Snapshot, trigger: string)
    requires LastSampled(track) <= s.generation
    ensures var found := Boundaries(key, track, s, trigger);
            && (forall t :: t in found && t.RunStarted? ==>
                  t.generation == s.generation > LastSampled(track) && t.startedAt == s.startedAt)
            && (forall t :: t in found && t.RunFinished? ==> t.generation <= s.generation)
            && (forall i, j :: 0 <= i < j < |found| && found[j].RunStarted? ==>
                  found[i].RunFinished? && found[i].generation < found[j].generation)
  {
  }

  lemma AppendKeepsRows(s: System, row: Row)
    requires Inv(s)
    requires row.kind == Run ==>
               && row.status.Open? && NoStartRow(s.rows, row.generation, row.startedAt)
               && row.generation in s.starts && row.startedAt == s.starts[row.generation] && row.generation !in s.ended
    requires row.kind == Attempt ==> row.status.Closed?
    ensures RowsOk(s.(rows := s.rows + [row]))
    ensures HasTaskRun(s.rows + [row], row.generation, row.startedAt)
    ensures forall g, t :: NoStartRow(s.rows, g, t) && (row.kind == Run ==> g != row.generation) ==>
              NoStartRow(s.rows + [row], g, t)
  {
    var rows := s.rows + [row];
    assert rows[|s.rows|] == row;
    forall g | g in s.recorded ensures HasTaskRun(rows, g, s.starts[g]) {
      var i :| 0 <= i < |s.rows| && s.rows[i].generation == g && s.rows[i].startedAt == s.starts[g];
      assert rows[i] == s.rows[i];
    }
  }

  lemma FinishKeepsRows(s: System, generation: nat, outcome: string)
    requires Inv(s)
    ensures Inv(s.(rows := Finish(s.rows, generation, outcome)))
    ensures NoneOpen(Finish(s.rows, generation, outcome), generation)
  {
    var rows := Finish(s.rows, generation, outcome);
    assert forall i :: 0 <= i < |rows| ==>
      && rows[i].kind == s.rows[i].kind && rows[i].generation == s.rows[i].generation
      && rows[i].startedAt == s.rows[i].startedAt;
    forall g | g in s.recorded ensures HasTaskRun(rows, g, s.starts[g]) {
      var i :| 0 <= i < |s.rows| && s.rows[i].generation == g && s.rows[i].startedAt == s.starts[g];
      assert rows[i].generation == g && rows[i].startedAt == s.starts[g];
    }
  }

  lemma HeadLeavesQueue(s: System)
    requires Inv(s) && s.queue != []
    ensures QueueOk(s.(queue := s.queue[1..], checked := false))
    ensures EndingsOf(s.queue)
         == EndingsOf(s.queue[1..]) + if s.queue[0].RunFinished? then {s.queue[0].generation} else {}
    ensures forall t :: t in s.queue[1..] && t.RunStarted? ==> s.queue[0].generation < t.generation
  {
    var head, rest := s.queue[0], s.queue[1..];
    assert s.queue == [head] + rest;
    forall t | t in rest && t.RunStarted? ensures head.generation < t.generation {
      var j :| 0 <= j < |rest| && rest[j] == t;
      assert s.queue[j + 1] == t;
    }
  }

  lemma SamplerInsertKeepsInv(key: Key, s: System)
    requires Inv(s) && Enabled(s, SamplerInsert)
    ensures Inv(Next(key, s, SamplerInsert))
  {
    HeadLeavesQueue(s);
    AppendKeepsRows(s, StartRow(s.queue[0].generation, s.queue[0].startedAt));
  }

  lemma EndPersisted(s: System)
    requires Inv(s) && s.queue != [] && s.queue[0].RunFinished? && NoneOpen(s.rows, s.queue[0].generation)
    ensures Inv(s.(queue := s.queue[1..], ended := s.ended + {s.queue[0].generation}))
  {
    HeadLeavesQueue(s);
    var after := s.(queue := s.queue[1..], ended := s.ended + {s.queue[0].generation});
    assert RowsOk(after) by {
      assert s.queue[0] in s.queue;
    }
    assert QueueOk(after) by {
      assert QueueOk(s.(queue := s.queue[1..], checked := false));
      assert !s.checked;
    }
  }

  lemma SamplerFinishKeepsInv(key: Key, s: System)
    requires Inv(s) && Enabled(s, SamplerFinish)
    ensures Inv(Next(key, s, SamplerFinish))
  {
    FinishKeepsRows(s, s.queue[0].generation, s.queue[0].status);
    EndPersisted(s.(rows := Finish(s.rows, s.queue[0].generation, s.queue[0].status)));
  }

  lemma SamplerCheckKeepsInv(key: Key, s: System)
    requires Inv(s) && Enabled(s, SamplerCheck)
    ensures Inv(Next(key, s, SamplerCheck))
  {
    HeadLeavesQueue(s);
  }

  lemma CronInsertKeepsInv(key: Key, s: System)
    requires Inv(s) && Enabled(s, CronInsert)
    ensures Inv(Next(key, s, CronInsert))
  {
    AppendKeepsRows(s, StartRow(s.cron.generation, s.cron.startedAt));
  }

  lemma CronAttemptKeepsInv(key: Key, s: System, g: nat, at: nat, outcome: string)
    requires Inv(s)
    ensures Inv(Next(key, s, CronAttempt(g, at, outcome)))
  {
    AppendKeepsRows(s, Row(Attempt, g, at, Closed(outcome)));
  }

  lemma CronStartKeepsInv(key: Key, s: System, w: Wait, spawn: Spawn, again: Wait)
    requires Inv(s) && Enabled(s, CronStart(w, spawn, again))
    ensures Inv(Next(key, s, CronStart(w, spawn, again)))
  {
    var started := Started(s.runtime, w, spawn);
    OperationFollows(s.runtime, Op.Start(w, spawn));
    OperationFollows(started, Op.Poll(again));
    RuntimeMoves(s, Polled(started, again));
  }

  lemma RuntimeStepKeepsInv(key: Key, s: System, e: Event)
    requires Inv(s) && Enabled(s, e) && (e.Operate? || e.HandleStop?)
    ensures Inv(Next(key, s, e))
  {
    match e {
      case Operate(op) =>
        OperationFollows(s.runtime, op);
        RuntimeMoves(s, Applied(s.runtime, op));
      case HandleStop(w, op) =>
        OperationFollows(s.runtime, Op.Poll(w));
        OperationFollows(Polled(s.runtime, w), op);
        RuntimeMoves(s, Applied(Polled(s.runtime, w), op));
    }
  }

  lemma HandlerFinishKeepsInv(key: Key, s: System, generation: nat)
    requires Inv(s) && Enabled(s, HandlerFinish(generation))
    ensures Inv(Next(key, s, HandlerFinish(generation)))
  {
    FinishKeepsRows(s, generation, "stopped");
  }

  lemma CronCheckKeepsInv(key: Key, s: System)
    requires Inv(s) && Enabled(s, CronCheck)
    ensures Inv(Next(key, s, CronCheck))
  {
  }

  predicate ByCron(e: Event) {
    e.CronStart? || e.CronCheck? || e.CronInsert? || e.CronAttempt?
  }

  predicate BySampler(e: Event) {
    e.Collect? || e.SamplerCheck? || e.SamplerInsert? || e.SamplerFinish?
  }

  lemma CronStepKeepsInv(key: Key, s: System, e: Event)
    requires Inv(s) && Enabled(s, e) && ByCron(e)
    ensures Inv(Next(key, s, e))
  {
    match e {
      case CronStart(w, spawn, again) => CronStartKeepsInv(key, s, w, spawn, again);
      case CronCheck => CronCheckKeepsInv(key, s);
      case CronInsert => CronInsertKeepsInv(key, s);
      case CronAttempt(g, at, outcome) => CronAttemptKeepsInv(key, s, g, at, outcome);
    }
  }

  lemma SamplerStepKeepsInv(key: Key, s: System, e: Event)
    requires Inv(s) && Enabled(s, e) && BySampler(e)
    ensures Inv(Next(key, s, e))
  {
    match e {
      case Collect(w, trigger, autoStart) => CollectKeepsInv(key, s, w, trigger, autoStart);
      case SamplerCheck => SamplerCheckKeepsInv(key, s);
      case SamplerInsert => SamplerInsertKeepsInv(key, s);
      case SamplerFinish => SamplerFinishKeepsInv(key, s);
    }
  }

  lemma StepKeepsInv(key: Key, s: System, e: Event)
    requires Inv(s) && Enabled(s, e)
    ensures Inv(Next(key, s, e))
  {
    if ByCron(e) {
      CronStepKeepsInv(key, s, e);
    } else if BySampler(e) {
      SamplerStepKeepsInv(key, s, e);
    } else if e.HandlerFinish? {
      HandlerFinishKeepsInv(key, s, e.generation);
    } else {
      RuntimeStepKeepsInv(key, s, e);
    }
  }

  // ---- Every interleaving ---------------------------------------------------------------

  ghost predicate Possible(key: Key, s: System, events: seq<Event>)
    decreases |events|
  {
    events != [] ==> Enabled(s, events[0]) && Possible(key, Next(key, s, events[0]), events[1..])
  }

  ghost function After(key: Key, s: System, events: seq<Event>): System
    requires Possible(key, s, events)
    decreases |events|
  {
    if events == [] then s else After(key, Next(key, s, events[0]), events[1..])
  }

  /** What a new daemon finds: rows of earlier lifetimes, all closed at start-up. */
  ghost predicate Initial(s: System) {
    && s == System(FRESH, Away, None, [], false, multiset{}, s.rows, map[], {}, {}, {})
    && StartsUnique(s.rows) && forall i :: 0 <= i < |s.rows| ==> s.rows[i].status.Closed?
  }

  lemma {:induction false} RunKeepsInv(key: Key, s: System, events: seq<Event>)
    requires Inv(s) && Possible(key, s, events)
    ensures Inv(After(key, s, events))
    decreases |events|
  {
    if events == [] {
    } else {
      StepKeepsInv(key, s, events[0]);
      RunKeepsInv(key, Next(key, s, events[0]), events[1..]);
    }
  }

  /** In every interleaving: start rows are unique per generation and start time;
      every run the sampler has recorded has a row; and once the sampler has worked
      off its transitions, every run it has seen end is closed. */
  lemma RowsStaySound(key: Key, s: System, events: seq<Event>)
    requires Initial(s) && Possible(key, s, events)
    ensures var after := After(key, s, events);
            && StartsUnique(after.rows)
            && (forall g :: g in after.recorded ==> g in after.starts && HasTaskRun(after.rows, g, after.starts[g]))
            && (forall g :: g in after.ended ==> NoneOpen(after.rows, g))
            && (after.queue == [] ==> forall g :: g in after.seenEnding ==> NoneOpen(after.rows, g))
  {
    RunKeepsInv(key, s, events);
  }

  /** `b` has the rows of `a`, in place, with closed rows untouched. */
  ghost predicate Extends(a: seq<Row>, b: seq<Row>) {
    && |a| <= |b|
    && forall i :: 0 <= i < |a| ==> b[i] == a[i] || (a[i].status.Open? && b[i] == a[i].(status := b[i].status))
  }

  lemma StepExtends(key: Key, s: System, e: Event)
    requires Enabled(s, e)
    ensures Extends(s.rows, Next(key, s, e).rows)
  {
  }

  lemma ExtendsTwice(a: seq<Row>, b: seq<Row>, c: seq<Row>)
    requires Extends(a, b) && Extends(b, c)
    ensures Extends(a, c)
  {
  }

  /** No step removes a row or reopens or rewrites a closed one. */
  lemma {:induction false} RowsOnlyGrowAndClose(key: Key, s: System, events: seq<Event>)
    requires Possible(key, s, events)
    ensures Extends(s.rows, After(key, s, events).rows)
    decreases |events|
  {
    if events == [] {
    } else {
      var next := Next(key, s, events[0]);
      StepExtends(key, s, events[0]);
      RowsOnlyGrowAndClose(key, next, events[1..]);
      ExtendsTwice(s.rows, next.rows, After(key, next, events[1..]).rows);
    }
  }

  // ---- What a closed row says --------------------------------------------------------------

  /** The ends that the sampler has been told of along a run, with their labels. */
  datatype Told = Told(generation: nat, status: string)

  ghost function ToldBy(transitions: seq<Transition>): set<Told> {
    set t | t in transitions && t.RunFinished? :: Told(t.generation, t.status)
  }

  ghost function ToldAlong(key: Key, s: System, events: seq<Event>, told: set<Told>): set<Told>
    requires Possible(key, s, events)
    decreases |events|
  {
    if events == [] then told
    else
      var next := Next(key, s, events[0]);
      ToldAlong(key, next, events[1..], if events[0].Collect? then told + ToldBy(next.queue) else told)
  }

  /** The row was closed before the daemon came up, or by an action that stopped its run,
      or with the label under which its end was told. */
  ghost predicate OutcomeOk(earlier: seq<Row>, told: set<Told>, row: Row) {
    row.kind == Run && row.status.Closed? ==>
      row in earlier || row.status.outcome == "stopped" || Told(row.generation, row.status.outcome) in told
  }

  ghost predicate OutcomesOk(earlier: seq<Row>, s: System, told: set<Told>) {
    && (forall row :: row in s.rows ==> OutcomeOk(earlier, told, row))
    && forall t :: t in s.queue && t.RunFinished? ==> Told(t.generation, t.status) in told
  }

  lemma FinishKeepsOutcomes(earlier: seq<Row>, rows: seq<Row>, told: set<Told>, generation: nat, outcome: string)
    requires forall row :: row in rows ==> OutcomeOk(earlier, told, row)
    requires outcome == "stopped" || Told(generation, outcome) in told
    ensures forall row :: row in Finish(rows, generation, outcome) ==> OutcomeOk(earlier, told, row)
  {
    var after := Finish(rows, generation, outcome);
    forall row | row in after ensures OutcomeOk(earlier, told, row) {
      var i :| 0 <= i < |after| && after[i] == row;
      assert rows[i] in rows;
    }
  }

  lemma CollectKeepsOutcomes(key: Key, earlier: seq<Row>, s: System, e: Event, told: set<Told>)
    requires OutcomesOk(earlier, s, told) && Enabled(s, e) && e.Collect?
    ensures OutcomesOk(earlier, Next(key, s, e), told + ToldBy(Next(key, s, e).queue))
  {
    var next := Next(key, s, e);
    forall row | row in next.rows ensures OutcomeOk(earlier, told + ToldBy(next.queue), row) {
      assert OutcomeOk(earlier, told, row);
    }
  }

  lemma StepKeepsOutcomes(key: Key, earlier: seq<Row>, s: System, e: Event, told: set<Told>)
    requires OutcomesOk(earlier, s, told) && Enabled(s, e) && !e.Collect?
    ensures OutcomesOk(earlier, Next(key, s, e), told)
  {
    var next := Next(key, s, e);
    assert s.queue != [] ==> forall t :: t in s.queue[1..] ==> t in s.queue;
    match e {
      case HandlerFinish(g) => FinishKeepsOutcomes(earlier, s.rows, told, g, "stopped");
      case SamplerFinish =>
        assert s.queue[0] in s.queue;
        FinishKeepsOutcomes(earlier, s.rows, told, s.queue[0].generation, s.queue[0].status);
      case _ =>
    }
  }

  lemma {:induction false} RunKeepsOutcomes(key: Key, earlier: seq<Row>, s: System, events: seq<Event>, told: set<Told>)
    requires OutcomesOk(earlier, s, told) && Possible(key, s, events)
    ensures OutcomesOk(earlier, After(key, s, events), ToldAlong(key, s, events, told))
    decreases |events|
  {
    if events == [] {
    } else {
      var next := Next(key, s, events[0]);
      if events[0].Collect? {
        CollectKeepsOutcomes(key, earlier, s, events[0], told);
        RunKeepsOutcomes(key, earlier, next, events[1..], told + ToldBy(next.queue));
      } else {
        StepKeepsOutcomes(key, earlier, s, events[0], told);
        RunKeepsOutcomes(key, earlier, next, events[1..], told);
      }
    }
  }

  /** In every interleaving, a closed start row says "stopped", or what the sampler was
      told of the end of that very generation, unless an earlier daemon closed it. */
  lemma OutcomesAreTold(key: Key, s: System, events: seq<Event>)
    requires Initial(s) && Possible(key, s, events)
    ensures forall row :: row in After(key, s, events).rows ==>
              OutcomeOk(s.rows, ToldAlong(key, s, events, {}), row)
  {
    RunKeepsOutcomes(key, s.rows, s, events, {});
  }

  /** An action that has stopped an active run has that run's row closed, whatever the
      sampler does before the handler comes to it. */
  lemma StopIsClosed(key: Key, s: System, w: Wait, op: Op)
    requires Inv(s) && Enabled(s, HandleStop(w, op))
    requires PollOk(s.runtime, w) && Active(Polled(s.runtime, w).status)
    requires var p := Polled(s.runtime, w); HandlerOk(p, op)
    ensures var g, next := s.runtime.generation, Next(key, s, HandleStop(w, op));
            Enabled(next, HandlerFinish(g)) && NoneOpen(Next(key, next, HandlerFinish(g)).rows, g)
  {
    var next := Next(key, s, HandleStop(w, op));
    StepKeepsInv(key, s, HandleStop(w, op));
    FinishKeepsRows(next, s.runtime.generation, "stopped");
  }

  // ---- When a recorded run has a start row ------------------------------------------------

  /** Rows carry the stamp, and all of them are attempts. */
  ghost predicate OnlyAttempts(rows: seq<Row>, generation: nat, startedAt: nat) {
    HasTaskRun(rows, generation, startedAt) && NoStartRow(rows, generation, startedAt)
  }

  /** The sampler's check for the start at hand finds an attempt row and no start row. */
  ghost predicate Hides(s: System, e: Event) {
    e.SamplerCheck? && Enabled(s, e) && OnlyAttempts(s.rows, s.queue[0].generation, s.queue[0].startedAt)
  }

  /** `hidden`, and the generation at hand if its check finds attempts only. */
  ghost function HiddenAfter(s: System, e: Event, hidden: set<nat>): set<nat> {
    if Hides(s, e) then hidden + {s.queue[0].generation} else hidden
  }

  /** The generations for which that happened along a run. */
  ghost function Hidden(key: Key, s: System, events: seq<Event>, hidden: set<nat>): set<nat>
    requires Possible(key, s, events)
    decreases |events|
  {
    if events == [] then hidden
    else Hidden(key, Next(key, s, events[0]), events[1..], HiddenAfter(s, events[0], hidden))
  }

  ghost predicate HiddenOk(s: System, hidden: set<nat>) {
    && (forall t :: t in s.queue && t.RunStarted? ==> forall g :: g in s.recorded ==> g < t.generation)
    && (forall g :: g in s.recorded ==>
          && g in s.starts && g <= LastSampled(s.track)
          && (NoStartRow(s.rows, g, s.starts[g]) <==> g in hidden))
    && hidden <= s.recorded
  }

  lemma CollectKeepsHidden(key: Key, s: System, e: Event, hidden: set<nat>)
    requires Inv(s) && HiddenOk(s, hidden) && Enabled(s, e) && e.Collect?
    ensures HiddenOk(Next(key, s, e), hidden)
  {
    OperationFollows(s.runtime, Op.Poll(e.w));
    BoundariesShape(key, s.track, SnapshotOf(Polled(s.runtime, e.w), e.autoStart), e.trigger);
  }

  lemma StartsMayGrow(s: System, after: System, hidden: set<nat>)
    requires HiddenOk(s, hidden)
    requires after.rows == s.rows && after.queue == s.queue && after.recorded == s.recorded && after.track == s.track
    requires forall g :: g in s.starts ==> g in after.starts && after.starts[g] == s.starts[g]
    ensures HiddenOk(after, hidden)
  {
  }

  lemma MovedKeepsHidden(s: System, r: Runtime, hidden: set<nat>)
    requires Inv(s) && HiddenOk(s, hidden)
    ensures HiddenOk(WithRuntime(s, r), hidden)
  {
    StartsMayGrow(s, WithRuntime(s, r), hidden);
  }

  lemma RuntimeKeepsHidden(key: Key, s: System, e: Event, hidden: set<nat>)
    requires Inv(s) && HiddenOk(s, hidden) && Enabled(s, e) && (e.Operate? || e.HandleStop? || e.CronStart?)
    ensures HiddenOk(Next(key, s, e), hidden)
  {
    match e {
      case Operate(op) => MovedKeepsHidden(s, Applied(s.runtime, op), hidden);
      case HandleStop(w, op) => MovedKeepsHidden(s, Applied(Polled(s.runtime, w), op), hidden);
      case CronStart(w, spawn, again) => MovedKeepsHidden(s, Polled(Started(s.runtime, w, spawn), again), hidden);
    }
  }

  /** An inserted row is the start row of its own generation and of no other one. */
  lemma AppendShows(rows: seq<Row>, row: Row, generation: nat, startedAt: nat)
    ensures NoStartRow(rows + [row], generation, startedAt)
            <==> NoStartRow(rows, generation, startedAt)
                 && !(row.kind == Run && row.generation == generation && row.startedAt == startedAt)
  {
    assert (rows + [row])[|rows|] == row;
    if NoStartRow(rows + [row], generation, startedAt) {
      forall i | 0 <= i < |rows| && rows[i].kind == Run
        ensures !(rows[i].generation == generation && rows[i].startedAt == startedAt)
      {
        assert (rows + [row])[i] == rows[i];
      }
    }
  }

  lemma FinishShows(rows: seq<Row>, closed: nat, outcome: string, generation: nat, startedAt: nat)
    ensures NoStartRow(Finish(rows, closed, outcome), generation, startedAt)
            <==> NoStartRow(rows, generation, startedAt)
  {
    var after := Finish(rows, closed, outcome);
    assert |after| == |rows| && forall i :: 0 <= i < |rows| ==>
      && after[i].kind == rows[i].kind && after[i].generation == rows[i].generation
      && after[i].startedAt == rows[i].startedAt;
  }

  lemma RowsKeepHidden(key: Key, s: System, e: Event, hidden: set<nat>)
    requires Inv(s) && HiddenOk(s, hidden) && Enabled(s, e)
    requires e.HandlerFinish? || e.CronCheck? || e.CronInsert? || e.CronAttempt?
    ensures HiddenOk(Next(key, s, e), hidden)
  {
    var next := Next(key, s, e);
    forall g | g in s.recorded ensures NoStartRow(next.rows, g, s.starts[g]) <==> NoStartRow(s.rows, g, s.starts[g]) {
      match e {
        case HandlerFinish(closed) => FinishShows(s.rows, closed, "stopped", g, s.starts[g]);
        case CronInsert => AppendShows(s.rows, StartRow(s.cron.generation, s.cron.startedAt), g, s.starts[g]);
        case CronAttempt(attempt, at, outcome) =>
          AppendShows(s.rows, Row(Attempt, attempt, at, Closed(outcome)), g, s.starts[g]);
        case _ =>
      }
    }
  }

  lemma FoundKeepsHidden(s: System, hidden: set<nat>)
    requires Inv(s) && HiddenOk(s, hidden) && Enabled(s, SamplerCheck)
    requires HasTaskRun(s.rows, s.queue[0].generation, s.queue[0].startedAt)
    ensures HiddenOk(s.(queue := s.queue[1..], recorded := s.recorded + {s.queue[0].generation}),
                     HiddenAfter(s, SamplerCheck, hidden))
  {
    HeadLeavesQueue(s);
    assert s.queue[0] in s.queue;
    assert forall t :: t in s.queue[1..] ==> t in s.queue;
  }

  lemma SamplerCheckKeepsHidden(key: Key, s: System, hidden: set<nat>)
    requires Inv(s) && HiddenOk(s, hidden) && Enabled(s, SamplerCheck)
    ensures HiddenOk(Next(key, s, SamplerCheck), HiddenAfter(s, SamplerCheck, hidden))
  {
    if HasTaskRun(s.rows, s.queue[0].generation, s.queue[0].startedAt) {
      FoundKeepsHidden(s, hidden);
    }
  }

  lemma SamplerInsertKeepsHidden(key: Key, s: System, hidden: set<nat>)
    requires Inv(s) && HiddenOk(s, hidden) && Enabled(s, SamplerInsert)
    ensures HiddenOk(Next(key, s, SamplerInsert), hidden)
  {
    HeadLeavesQueue(s);
    var head := s.queue[0];
    assert head in s.queue && head.generation !in hidden;
    assert forall t :: t in s.queue[1..] ==> t in s.queue;
    forall g | g in s.recorded + {head.generation}
      ensures NoStartRow(Next(key, s, SamplerInsert).rows, g, s.starts[g])
              <==> NoStartRow(s.rows, g, s.starts[g]) && g != head.generation
    {
      AppendShows(s.rows, StartRow(head.generation, head.startedAt), g, s.starts[g]);
    }
  }

  lemma SamplerFinishKeepsHidden(key: Key, s: System, hidden: set<nat>)
    requires Inv(s) && HiddenOk(s, hidden) && Enabled(s, SamplerFinish)
    ensures HiddenOk(Next(key, s, SamplerFinish), hidden)
  {
    assert forall t :: t in s.queue[1..] ==> t in s.queue;
    forall g | g in s.recorded
      ensures NoStartRow(Next(key, s, SamplerFinish).rows, g, s.starts[g]) <==> NoStartRow(s.rows, g, s.starts[g])
    {
      FinishShows(s.rows, s.queue[0].generation, s.queue[0].status, g, s.starts[g]);
    }
  }

  lemma StepKeepsHidden(key: Key, s: System, e: Event, hidden: set<nat>)
    requires Inv(s) && HiddenOk(s, hidden) && Enabled(s, e)
    ensures HiddenOk(Next(key, s, e), HiddenAfter(s, e, hidden))
  {
    if e.SamplerCheck? {
      SamplerCheckKeepsHidden(key, s, hidden);
    } else if e.Collect? {
      CollectKeepsHidden(key, s, e, hidden);
    } else if e.SamplerInsert? {
      SamplerInsertKeepsHidden(key, s, hidden);
    } else if e.SamplerFinish? {
      SamplerFinishKeepsHidden(key, s, hidden);
    } else if e.Operate? || e.HandleStop? || e.CronStart? {
      RuntimeKeepsHidden(key, s, e, hidden);
    } else {
      RowsKeepHidden(key, s, e, hidden);
    }
  }

  lemma {:induction false} RunKeepsHidden(key: Key, s: System, events: seq<Event>, hidden: set<nat>)
    requires Inv(s) && HiddenOk(s, hidden) && Possible(key, s, events)
    ensures HiddenOk(After(key, s, events), Hidden(key, s, events, hidden))
    decreases |events|
  {
    if events == [] {
    } else {
      StepKeepsInv(key, s, events[0]);
      StepKeepsHidden(key, s, events[0], hidden);
      RunKeepsHidden(key, Next(key, s, events[0]), events[1..], HiddenAfter(s, events[0], hidden));
    }
  }

  /** In every interleaving, a run that the sampler has recorded is without a start row
      if and only if the sampler's own check found attempt rows with its stamp, and no
      start row among them. */
  lemma StartRowMissingExactly(key: Key, s: System, events: seq<Event>, g: nat)
    requires Initial(s) && Possible(key, s, events) && g in After(key, s, events).recorded
    ensures g in After(key, s, events).starts
    ensures NoStartRow(After(key, s, events).rows, g, After(key, s, events).starts[g]) <==>
              g in Hidden(key, s, events, {})
  {
    RunKeepsHidden(key, s, events, {});
  }

  lemma StepThenRest(key: Key, s: System, e: Event, next: System, rest: seq<Event>)
    requires Enabled(s, e) && next == Next(key, s, e) && Possible(key, next, rest)
    ensures Possible(key, s, [e] + rest) && After(key, s, [e] + rest) == After(key, next, rest)
  {
    assert ([e] + rest)[1..] == rest;
  }

  /** A task that was started by hand while an attempt with the same stamp was skipped. */
  ghost function AttemptedState(pid: nat, at: nat): System {
    System(Runtime(Running, true, Some(pid), 1, at, 1, None, None), Away, None, [], false, multiset{},
           [Row(Attempt, 1, at, Closed("skipped"))], map[1 := at], {}, {}, {})
  }

  lemma AttemptIsWritten(key: Key, pid: nat, at: nat, rest: seq<Event>)
    requires Possible(key, AttemptedState(pid, at), rest)
    ensures var s := System(FRESH, Away, None, [], false, multiset{}, [], map[], {}, {}, {});
            var events := [Operate(Op.Start(Alive, Spawned(pid, at)))] + ([CronAttempt(1, at, "skipped")] + rest);
            Possible(key, s, events) && After(key, s, events) == After(key, AttemptedState(pid, at), rest)
  {
    var s := System(FRESH, Away, None, [], false, multiset{}, [], map[], {}, {}, {});
    var start, attempt := Operate(Op.Start(Alive, Spawned(pid, at))), CronAttempt(1, at, "skipped");
    var s1 := Next(key, s, start);
    assert Next(key, s1, attempt) == AttemptedState(pid, at);
    StepThenRest(key, s1, attempt, AttemptedState(pid, at), rest);
    StepThenRest(key, s, start, s1, [attempt] + rest);
  }

  lemma AttemptIsFound(key: Key, pid: nat, at: nat)
    ensures var s, events := AttemptedState(pid, at), [Collect(Alive, "manual", false)] + [SamplerCheck];
            && Possible(key, s, events)
            && var after := After(key, s, events);
               && after.recorded == {1} && after.queue == [] && after.runtime.status.Running? && after.rows == s.rows
  {
    var s, collect := AttemptedState(pid, at), Collect(Alive, "manual", false);
    var s1 := Next(key, s, collect);
    assert s1.queue == [RunStarted(key, 1, at, "manual")] && s1.queue[1..] == [];
    assert s1.rows[0].generation == 1 && HasTaskRun(s1.rows, 1, at);
    StepThenRest(key, s1, SamplerCheck, Next(key, s1, SamplerCheck), []);
    assert [SamplerCheck] + [] == [SamplerCheck];
    StepThenRest(key, s, collect, s1, [SamplerCheck]);
  }

  /** Uniqueness has a price: the check looks at rows of every kind. A skipped cron
      attempt stamped with the millisecond in which a manual run started keeps the
      sampler from ever writing that run's start row. */
  lemma AttemptCanHideRun(key: Key, pid: nat, at: nat)
    ensures var s := System(FRESH, Away, None, [], false, multiset{}, [], map[], {}, {}, {});
            var looks := [Collect(Alive, "manual", false)] + [SamplerCheck];
            var events := [Operate(Op.Start(Alive, Spawned(pid, at)))] + ([CronAttempt(1, at, "skipped")] + looks);
            && Initial(s) && Possible(key, s, events)
            && var after := After(key, s, events);
               && after.recorded == {1} && after.queue == [] && after.runtime.status.Running?
               && NoStartRow(after.rows, 1, at)
  {
    AttemptIsFound(key, pid, at);
    AttemptIsWritten(key, pid, at, [Collect(Alive, "manual", false)] + [SamplerCheck]);
  }
}
