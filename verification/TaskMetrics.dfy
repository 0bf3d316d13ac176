/**
 Metrics history of one task: its bounded store (src/daemon/metrics.rs), and the
 sampler that fills it while restarts and history clears go on around it
 (src/daemon/sampler.rs, src/daemon/handle.rs).
 */
module TaskMetrics {
  import opened Prelude
  import opened ProcessTrees
  import opened TaskRuntimes

  const MAX_TASK_METRIC_SAMPLES: nat := 600

  datatype Sample = Sample(timestampMs: nat, totals: Totals)

  /** Samples and restart markers are queues that drop their oldest element. */
  function Appended<T>(queue: seq<T>, x: T): seq<T> {
    Tail(queue + [x], MAX_TASK_METRIC_SAMPLES)
  }

  /** At the end comes the new element, and before it the old ones in their order, without
      the oldest when there were 600. */
  lemma AppendedAt<T>(queue: seq<T>, x: T)
    requires |queue| <= 600
    ensures var r := Appended(queue, x);
            var dropped := if |queue| < 600 then 0 else 1;
            && |r| == |queue| + 1 - dropped && r[|r| - 1] == x
            && forall i :: 0 <= i < |r| - 1 ==> r[i] == queue[i + dropped]
  {
  }

  datatype Window = Window(running: bool, current: Totals, samples: seq<Sample>, processes: seq<Process>,
                           markers: seq<nat>)

  /** The markers that are not older than the first sample shown, in their order. */
  function Since(markers: seq<nat>, samples: seq<Sample>): (r: seq<nat>)
    ensures forall m :: m in r <==> m in markers && (samples == [] || m >= samples[0].timestampMs)
  {
    if markers == [] then []
    else
      assert markers == [markers[0]] + markers[1..];
      (if samples == [] || markers[0] >= samples[0].timestampMs then [markers[0]] else [])
      + Since(markers[1..], samples)
  }

  /** Each marker is kept or dropped on its own, so those kept are in their order. */
  lemma {:induction false} SinceSplits(a: seq<nat>, b: seq<nat>, samples: seq<Sample>)
    ensures Since(a + b, samples) == Since(a, samples) + Since(b, samples)
    ensures |a| == 1 ==> |Since(a, samples)| <= 1
  {
    if a == [] {
      assert a + b == b;
    } else {
      assert (a + b)[1..] == a[1..] + b;
      SinceSplits(a[1..], b, samples);
    }
  }

  class TaskMetricsEntry {
    var running: bool
    var current: Totals
    var processes: seq<Process>
    var samples: seq<Sample>
    var restartMarkersMs: seq<nat>

    /** Bounded queues; and the current value is that of the newest sample while the
        task runs, and nothing otherwise. */
    predicate Valid()
      reads this
    {
      && |samples| <= MAX_TASK_METRIC_SAMPLES && |restartMarkersMs| <= MAX_TASK_METRIC_SAMPLES
      && (if running then samples != [] && current == samples[|samples| - 1].totals
          else current == ZERO_TOTALS && processes == [])
    }

    constructor ()
      ensures Valid() && !running && samples == [] && restartMarkersMs == []
    {
      running, current, processes := false, ZERO_TOTALS, [];
      samples, restartMarkersMs := [], [];
    }

    method ApplyObservation(timestampMs: nat, observation: Option<Aggregate>)
      requires Valid()
      modifies this
      ensures Valid() && running == observation.Some? && restartMarkersMs == old(restartMarkersMs)
      ensures observation.Some? ==>
                && samples == Appended(old(samples), Sample(timestampMs, observation.value.totals))
                && processes == observation.value.rows
      ensures observation.None? ==> samples == old(samples)
    {
      match observation {
        case Some(Aggregate(totals, rows)) =>
          running, current, processes := true, totals, rows;
          samples := samples + [Sample(timestampMs, totals)];
          while |samples| > MAX_TASK_METRIC_SAMPLES
            invariant running && current == totals && processes == rows && restartMarkersMs == old(restartMarkersMs)
            invariant samples == Tail(old(samples) + [Sample(timestampMs, totals)], |samples|)
            invariant |samples| >= Min(|old(samples)| + 1, MAX_TASK_METRIC_SAMPLES)
          {
            samples := samples[1..];
          }
        case None =>
          running, current, processes := false, ZERO_TOTALS, [];
      }
    }

    method MarkRestart(timestampMs: nat)
      requires Valid()
      modifies this`restartMarkersMs
      ensures Valid() && restartMarkersMs == Appended(old(restartMarkersMs), timestampMs)
    {
      restartMarkersMs := restartMarkersMs + [timestampMs];
      while |restartMarkersMs| > MAX_TASK_METRIC_SAMPLES
        invariant restartMarkersMs == Tail(old(restartMarkersMs) + [timestampMs], |restartMarkersMs|)
        invariant |restartMarkersMs| >= Min(|old(restartMarkersMs)| + 1, MAX_TASK_METRIC_SAMPLES)
      {
        restartMarkersMs := restartMarkersMs[1..];
      }
    }

    method Snapshot(windowSeconds: nat) returns (w: Window)
      requires Valid()
      ensures w.running == running && w.current == current && w.processes == processes
      ensures w.samples == Tail(samples, Min(windowSeconds, MAX_TASK_METRIC_SAMPLES))
      ensures w.markers == Since(restartMarkersMs, w.samples)
      ensures forall m :: m in w.markers <==>
                m in restartMarkersMs && (w.samples == [] || m >= w.samples[0].timestampMs)
    {
      var shown := Tail(samples, Min(windowSeconds, MAX_TASK_METRIC_SAMPLES));
      w := Window(running, current, shown, processes, Since(restartMarkersMs, shown));
    }
  }

  // ---- The sampler and what goes on around it ---------------------------------------

  /** What a sample is checked against: pid, start generation, history generation. */
  datatype Identity = Identity(pid: Option<nat>, generation: nat, history: nat)

  function IdentityOf(r: Runtime): Identity {
    Identity(r.pid, r.generation, r.history)
  }

  /** The sampler's progress through one round. `clears` and `starts` count, for the
      statements only, the history clears and starts since the target was collected. */
  datatype Round =
    | Between
    | Collected(target: Identity, clears: nat, starts: nat)
    | Observed(target: Identity, observation: Option<Sample>, clears: nat, starts: nat)

  /** One task with its metrics entry; `tags` says under which identity each sample in
      the entry was collected. */
  datatype System = System(runtime: Runtime, round: Round, samples: seq<Sample>, tags: seq<Identity>)

  datatype Event =
    | Operate(op: Op)
    | ClearTaskHistory
    | HandleRestart(w: Wait, reap: Reap, clear: bool, s: Spawn, othersOk: bool)
    | Collect(w: Wait)
    | Observe(found: Option<Sample>)
    | Record

  /** A request over a whole session reports its effects only if every task succeeded. */
  predicate RestartReported(r: Runtime, e: Event)
    requires e.HandleRestart?
  {
    RestartOk(r, e.w, e.reap, e.s) && e.othersOk
  }

  predicate Clears(r: Runtime, e: Event) {
    match e
    case Operate(op) => op.ClearHistory? || (op.Restart? && op.clear && StopOk(r, op.w, op.reap))
    case ClearTaskHistory => true
    case HandleRestart(w, reap, clear, _, _) => clear && StopOk(r, w, reap)
    case _ => false
  }

  predicate Enabled(s: System, e: Event) {
    match e
    case Operate(op) => !op.ClearHistory? && !op.Restart?
    case Collect(_) => s.round.Between?
    case Observe(_) => s.round.Collected?
    case Record => s.round.Observed?
    case _ => true
  }

  function Counted(s: System, r: Runtime, clears: nat): System {
    var starts := if r.generation > s.runtime.generation then r.generation - s.runtime.generation else 0;
    s.(runtime := r,
       round := match s.round
                case Between => Between
                case Collected(t, c, n) => Collected(t, c + clears, n + starts)
                case Observed(t, o, c, n) => Observed(t, o, c + clears, n + starts))
  }

  function Next(s: System, e: Event): System
    requires Enabled(s, e)
  {
    var cleared := if Clears(s.runtime, e) then 1 else 0;
    match e
    case Operate(op) => Counted(s, Applied(s.runtime, op), cleared)
    case ClearTaskHistory => Counted(s, HistoryCleared(s.runtime), cleared).(samples := [], tags := [])
    case HandleRestart(w, reap, clear, spawn, _) =>
      var after := Counted(s, Restarted(s.runtime, w, reap, clear, spawn), cleared);
      if RestartReported(s.runtime, e) && clear then after.(samples := [], tags := []) else after
    case Collect(w) =>
      var r := Polled(s.runtime, w);
      var id := IdentityOf(r);
      s.(runtime := r, round := Collected(if PollOk(s.runtime, w) then id else id.(pid := None), 0, 0))
    case Observe(found) =>
      var current := IdentityOf(s.runtime) == s.round.target && s.round.target.pid.Some?;
      s.(round := Observed(s.round.target, if current then found else None, s.round.clears, s.round.starts))
    case Record =>
      if IdentityOf(s.runtime) == s.round.target && s.round.observation.Some?
      then s.(round := Between, samples := Appended(s.samples, s.round.observation.value),
              tags := Appended(s.tags, s.round.target))
      else s.(round := Between)
  }

  /** The number of history clears before the generation counter repeats. */
  const CYCLE: nat := U64 - 1

  function Advanced(history: nat, clears: nat): nat {
    (history - 1 + clears) % CYCLE + 1
  }

  ghost predicate RoundOk(s: System, target: Identity, clears: nat, starts: nat) {
    && s.runtime.generation == target.generation + starts
    && 1 <= target.history < U64 && s.runtime.history == Advanced(target.history, clears)
  }

  ghost predicate Inv(s: System) {
    && Consistent(s.runtime) && 1 <= s.runtime.history < U64
    && |s.tags| == |s.samples| <= MAX_TASK_METRIC_SAMPLES
    && match s.round
       case Between => true
       case Collected(target, clears, starts) => RoundOk(s, target, clears, starts)
       case Observed(target, observation, clears, starts) =>
         RoundOk(s, target, clears, starts) && (observation.Some? ==> target.pid.Some?)
  }

  lemma AdvancedOneMore(history: nat, clears: nat)
    requires 1 <= history < U64
    ensures 1 <= Advanced(history, clears) < U64
    ensures NextHistory(Advanced(history, clears)) == Advanced(history, clears + 1)
    ensures Advanced(history, 0) == history
  {
    var h := history - 1 + clears;
    assert (h + 1) % CYCLE == if h % CYCLE == CYCLE - 1 then 0 else h % CYCLE + 1;
  }

  /** The counter is back where it was exactly after whole cycles. */
  lemma AdvancedReturns(history: nat, clears: nat)
    requires 1 <= history < U64
    ensures Advanced(history, clears) == history <==> clears % CYCLE == 0
  {
    var h, rest := history - 1, clears % CYCLE;
    assert clears == CYCLE * (clears / CYCLE) + rest;
    assert (h + clears) % CYCLE == (h + rest) % CYCLE by {
      WholeCycles(h + rest, clears / CYCLE);
    }
    if h + rest < CYCLE {
      assert (h + rest) % CYCLE == h + rest;
    } else {
      assert (h + rest) % CYCLE == h + rest - CYCLE;
    }
  }

  lemma {:induction false} WholeCycles(n: nat, times: nat)
    ensures (n + CYCLE * times) % CYCLE == n % CYCLE
  {
    if times == 0 {
    } else {
      WholeCycles(n, times - 1);
      assert n + CYCLE * times == (n + CYCLE * (times - 1)) + CYCLE;
    }
  }

  lemma RuntimeStepOk(r: Runtime, e: Event)
    requires Consistent(r) && (e.Operate? || e.ClearTaskHistory? || e.HandleRestart?)
    requires e.Operate? ==> !e.op.ClearHistory? && !e.op.Restart?
    ensures var after := match e
              case Operate(op) => Applied(r, op)
              case ClearTaskHistory => HistoryCleared(r)
              case _ => Restarted(r, e.w, e.reap, e.clear, e.s);
            && Consistent(after) && r.generation <= after.generation
            && after.history == if Clears(r, e) then NextHistory(r.history) else r.history
  {
  }

  lemma StepKeepsInv(s: System, e: Event)
    requires Inv(s) && Enabled(s, e)
    ensures Inv(Next(s, e))
  {
    AdvancedOneMore(s.runtime.history, 0);
    if !s.round.Between? {
      AdvancedOneMore(s.round.target.history, s.round.clears);
    }
    if e.Operate? || e.ClearTaskHistory? || e.HandleRestart? {
      RuntimeStepOk(s.runtime, e);
    } else if e.Collect? {
      OperationFollows(s.runtime, Op.Poll(e.w));
    }
  }

  /** What the sampler's last look decides: whether it appends what it observed. */
  predicate Appends(s: System) {
    s.round.Observed? && s.round.observation.Some? && IdentityOf(s.runtime) == s.round.target
  }

  /** A sample that is appended is tagged with the identity current at that moment, and
      the task was not restarted since the round looked at it, nor cleared (but for a
      multiple of 2^64 - 1 clears): equality of the three numbers is enough. */
  lemma NoStaleSample(s: System)
    requires Inv(s) && Appends(s)
    ensures Next(s, Record).samples == Appended(s.samples, s.round.observation.value)
    ensures Next(s, Record).tags == Appended(s.tags, IdentityOf(s.runtime))
    ensures s.runtime.pid.Some? && s.round.starts == 0 && s.round.clears % CYCLE == 0
  {
    AdvancedReturns(s.round.target.history, s.round.clears);
  }

  ghost predicate Possible(s: System, events: seq<Event>)
    decreases |events|
  {
    events != [] ==> Enabled(s, events[0]) && Possible(Next(s, events[0]), events[1..])
  }

  ghost function After(s: System, events: seq<Event>): System
    requires Possible(s, events)
    decreases |events|
  {
    if events == [] then s else After(Next(s, events[0]), events[1..])
  }

  const INITIAL := System(FRESH, Between, [], [])

  lemma {:induction false} RunKeepsInv(s: System, events: seq<Event>)
    requires Inv(s) && Possible(s, events)
    ensures Inv(After(s, events))
    decreases |events|
  {
    if events == [] {
    } else {
      StepKeepsInv(s, events[0]);
      RunKeepsInv(Next(s, events[0]), events[1..]);
    }
  }

  /** In every run from a new task, whenever the sampler is about to record: what it
      appends was collected under the identity of that moment, with no restart and no
      clear in between; and otherwise the entry stays as it is. */
  lemma EveryAppendIsFresh(events: seq<Event>)
    requires Possible(INITIAL, events) && After(INITIAL, events).round.Observed?
    ensures var s := After(INITIAL, events);
            var next := Next(s, Record);
            if Appends(s) then
              && next.samples == Appended(s.samples, s.round.observation.value)
              && next.tags == Appended(s.tags, IdentityOf(s.runtime))
              && s.round.starts == 0 && s.round.clears % CYCLE == 0
            else next.samples == s.samples && next.tags == s.tags
  {
    RunKeepsInv(INITIAL, events);
    var s := After(INITIAL, events);
    if Appends(s) {
      NoStaleSample(s);
    }
  }

  // ---- One entry, one history ---------------------------------------------------------

  /** Every sample in the entry was collected under the current history generation. */
  ghost predicate Uniform(s: System) {
    forall i :: 0 <= i < |s.tags| ==> s.tags[i].history == s.runtime.history
  }

  /** The entry keeps samples that the history clear meant to drop. */
  predicate LosesClear(s: System, e: Event) {
    e.HandleRestart? && Clears(s.runtime, e) && !RestartReported(s.runtime, e) && s.tags != []
  }

  /** Each step keeps the entry uniform, except exactly a clearing restart whose effect
      is not reported while there are samples: because the start failed after the clear,
      or because another task of the same request failed. */
  lemma UniformKeptExactly(s: System, e: Event)
    requires Inv(s) && Enabled(s, e) && Uniform(s)
    ensures Uniform(Next(s, e)) <==> !LosesClear(s, e)
  {
    if e.Operate? || e.ClearTaskHistory? || e.HandleRestart? {
      RuntimeStepOk(s.runtime, e);
      AdvancedOneMore(s.runtime.history, 0);
      AdvancedReturns(s.runtime.history, 1);
      if LosesClear(s, e) {
        assert Next(s, e).tags[0].history == s.runtime.history != Next(s, e).runtime.history;
      }
    }
  }

  ghost predicate NeverLosesClear(s: System, events: seq<Event>)
    requires Possible(s, events)
    decreases |events|
  {
    events != [] ==> !LosesClear(s, events[0]) && NeverLosesClear(Next(s, events[0]), events[1..])
  }

  /** The entry is uniform before the run and after each of its steps. */
  ghost predicate UniformThroughout(s: System, events: seq<Event>)
    requires Possible(s, events)
    decreases |events|
  {
    Uniform(s) && (events != [] ==> UniformThroughout(Next(s, events[0]), events[1..]))
  }

  /** Over every run from a uniform entry: it is uniform all along, and so never mixes
      history generations, if and only if no step loses a clear. */
  lemma {:induction false} EntriesNeverMix(s: System, events: seq<Event>)
    requires Inv(s) && Uniform(s) && Possible(s, events)
    ensures UniformThroughout(s, events) <==> NeverLosesClear(s, events)
    ensures NeverLosesClear(s, events) ==> Uniform(After(s, events))
    decreases |events|
  {
    if events == [] {
    } else {
      StepKeepsInv(s, events[0]);
      UniformKeptExactly(s, events[0]);
      if Uniform(Next(s, events[0])) {
        EntriesNeverMix(Next(s, events[0]), events[1..]);
      }
    }
  }

  /** The entry begins with samples of another history than the current one, all but
      the last `recent` of them at most. */
  ghost predicate StaleBut(s: System, recent: nat) {
    && |s.tags| > 0 && s.tags[0].history != s.runtime.history
    && forall i :: 0 <= i < |s.tags| - recent ==> s.tags[i].history != s.runtime.history
  }

  lemma StepThenRest(s: System, e: Event, next: System, rest: seq<Event>)
    requires Enabled(s, e) && next == Next(s, e) && Possible(next, rest)
    ensures Possible(s, [e] + rest) && After(s, [e] + rest) == After(next, rest)
  {
    assert ([e] + rest)[1..] == rest;
  }

  lemma {:induction false} RunThenRun(s: System, first: seq<Event>, second: seq<Event>)
    requires Possible(s, first) && Possible(After(s, first), second)
    ensures Possible(s, first + second) && After(s, first + second) == After(After(s, first), second)
    decreases |first|
  {
    if first == [] {
      assert first + second == second;
    } else {
      RunThenRun(Next(s, first[0]), first[1..], second);
      assert (first + second)[1..] == first[1..] + second;
    }
  }

  lemma RecordKeepsStale(s: System, recent: nat)
    requires Inv(s) && s.round.Observed? && StaleBut(s, recent) && recent + 1 < MAX_TASK_METRIC_SAMPLES
    ensures Inv(Next(s, Record)) && StaleBut(Next(s, Record), recent + 1)
    ensures Appends(s) ==>
              var tags := Next(s, Record).tags; |tags| > 1 && tags[|tags| - 1].history == s.runtime.history
  {
    StepKeepsInv(s, Record);
    if Appends(s) {
      AppendedAt(s.tags, s.round.target);
    }
  }

  /** Whatever round is in progress can be finished, without a new observation. */
  lemma FinishRound(s: System) returns (events: seq<Event>)
    requires Inv(s) && StaleBut(s, 0)
    ensures Possible(s, events) && forall e :: e in events ==> e.Observe? || e.Record?
    ensures var after := After(s, events); Inv(after) && after.round.Between? && StaleBut(after, 1)
  {
    match s.round {
      case Between =>
        events := [];
      case Observed(_, _, _, _) =>
        RecordKeepsStale(s, 0);
        StepThenRest(s, Record, Next(s, Record), []);
        events := [Record] + [];
      case Collected(_, _, _) =>
        var observed := Next(s, Observe(None));
        StepKeepsInv(s, Observe(None));
        RecordKeepsStale(observed, 0);
        StepThenRest(observed, Record, Next(observed, Record), []);
        StepThenRest(s, Observe(None), observed, [Record] + []);
        events := [Observe(None)] + ([Record] + []);
    }
  }

  /** One round over a task that has a child. */
  lemma SampleOnce(s: System, sample: Sample) returns (events: seq<Event>)
    requires Inv(s) && s.round.Between? && StaleBut(s, 1) && s.runtime.child
    ensures Possible(s, events) && forall e :: e in events ==> e.Collect? || e.Observe? || e.Record?
    ensures StaleBut(After(s, events), 2)
    ensures var after := After(s, events);
            |after.tags| > 1 && after.tags[|after.tags| - 1].history == after.runtime.history
  {
    var collected := Next(s, Collect(Alive));
    var observed := Next(collected, Observe(Some(sample)));
    StepKeepsInv(s, Collect(Alive));
    StepKeepsInv(collected, Observe(Some(sample)));
    RecordKeepsStale(observed, 1);
    StepThenRest(observed, Record, Next(observed, Record), []);
    StepThenRest(collected, Observe(Some(sample)), observed, [Record] + []);
    StepThenRest(s, Collect(Alive), collected, [Observe(Some(sample))] + ([Record] + []));
    events := [Collect(Alive)] + ([Observe(Some(sample))] + ([Record] + []));
  }

  lemma StartUp(s: System, pid: nat, at: nat) returns (events: seq<Event>)
    requires Inv(s) && s.round.Between? && StaleBut(s, 1)
    ensures Possible(s, events) && forall e :: e in events ==> e.Operate? && e.op.Start?
    ensures var up := After(s, events); Inv(up) && up.round.Between? && StaleBut(up, 1) && up.runtime.child
  {
    events := [];
    if !s.runtime.child {
      var start := Operate(Op.Start(Alive, Spawned(pid, at)));
      StepKeepsInv(s, start);
      StepThenRest(s, start, Next(s, start), []);
      events := [start] + [];
    }
  }

  lemma LosingLeavesStale(s: System, e: Event)
    requires Inv(s) && Enabled(s, e) && Uniform(s) && LosesClear(s, e)
    ensures Inv(Next(s, e)) && StaleBut(Next(s, e), 0)
  {
    StepKeepsInv(s, e);
    RuntimeStepOk(s.runtime, e);
    AdvancedOneMore(s.runtime.history, 0);
    AdvancedReturns(s.runtime.history, 1);
  }

  /** Any such restart, for whichever of the two reasons, and whatever round it came
      into: it takes no more than starting the task, if it is down, and the sampler's own
      steps for the entry to hold samples of two histories. */
  lemma LostClearMixes(s: System, e: Event, pid: nat, at: nat, sample: Sample) returns (events: seq<Event>)
    requires Inv(s) && Enabled(s, e) && Uniform(s) && LosesClear(s, e)
    ensures Possible(Next(s, e), events)
    ensures forall f :: f in events ==> f.Collect? || f.Observe? || f.Record? || (f.Operate? && f.op.Start?)
    ensures var tags := After(Next(s, e), events).tags;
            |tags| > 1 && tags[0].history != tags[|tags| - 1].history
  {
    LosingLeavesStale(s, e);
    var s0 := Next(s, e);
    var finish := FinishRound(s0);
    var s1 := After(s0, finish);
    var start := StartUp(s1, pid, at);
    var s2 := After(s1, start);
    var round := SampleOnce(s2, sample);
    RunThenRun(s1, start, round);
    RunThenRun(s0, finish, start + round);
    events := finish + (start + round);
  }

  /** A task that was started and sampled once. */
  lemma OneSample(pid: nat, at: nat, sample: Sample) returns (events: seq<Event>)
    ensures Possible(INITIAL, events)
    ensures var s := After(INITIAL, events);
            Inv(s) && Uniform(s) && s.round.Between? && s.runtime.child && |s.tags| == 1
  {
    var start := Operate(Op.Start(Alive, Spawned(pid, at)));
    var s1 := Next(INITIAL, start);
    var s2 := Next(s1, Collect(Alive));
    var s3 := Next(s2, Observe(Some(sample)));
    var s4 := Next(s3, Record);
    StepThenRest(s3, Record, s4, []);
    StepThenRest(s2, Observe(Some(sample)), s3, [Record] + []);
    StepThenRest(s1, Collect(Alive), s2, [Observe(Some(sample))] + ([Record] + []));
    StepThenRest(INITIAL, start, s1, [Collect(Alive)] + ([Observe(Some(sample))] + ([Record] + [])));
    events := [start] + ([Collect(Alive)] + ([Observe(Some(sample))] + ([Record] + [])));
    RunKeepsInv(INITIAL, events);
  }

  /** A run from a new task: it is sampled, a clearing restart stops it and fails to
      start it again, and after the next start the entry holds both histories. */
  lemma ClearCanBeLost(pid: nat, at: nat, sample: Sample, exit: Exit) returns (events: seq<Event>)
    ensures Possible(INITIAL, events)
    ensures var tags := After(INITIAL, events).tags;
            |tags| > 1 && tags[0].history != tags[|tags| - 1].history
  {
    var first := OneSample(pid, at, sample);
    var s := After(INITIAL, first);
    var restart := HandleRestart(Alive, Reaped(exit), true, SpawnFailed, true);
    assert LosesClear(s, restart);
    var rest := LostClearMixes(s, restart, pid, at, sample);
    StepThenRest(s, restart, Next(s, restart), rest);
    RunThenRun(INITIAL, first, [restart] + rest);
    events := first + ([restart] + rest);
  }
}
