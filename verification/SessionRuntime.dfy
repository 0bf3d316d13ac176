/**
 All tasks of one session: actions over one or all of them, and reloading the
 configuration (src/runtime/mod.rs). A session owns its task runtimes, so they are
 values here; what the operating system answers comes with each operation.
 */
module SessionRuntimes {
  import opened Prelude
  import opened TaskRuntimes

  type Tasks = map<string, Runtime>

  datatype Effect = Effect(restarted: bool, historyCleared: bool)

  type Effects = map<string, Effect>

  datatype ApplyError = TaskNotFound | SomeFailed(labels: set<string>)

  predicate OpOk(r: Runtime, op: Op) {
    match op
    case Poll(w) => PollOk(r, w)
    case Start(w, s) => StartOk(r, w, s)
    case Pause(w, signal) => SignalOk(r, w, Running, signal)
    case Resume(w, signal) => SignalOk(r, w, Paused, signal)
    case Stop(w, reap) => StopOk(r, w, reap)
    case Restart(w, reap, _, s) => RestartOk(r, w, reap, s)
    case ClearHistory => true
  }

  /** What it means for an action to succeed, in terms of what it leaves. */
  lemma OpOkMeans(r: Runtime, op: Op)
    requires Consistent(r)
    ensures var after := Applied(r, op);
            match op
            case Poll(w) => OpOk(r, op) <==> !(r.child && w.WaitFailed?)
            case Start(_, _) => OpOk(r, op) <==> after.generation == r.generation + 1
            case Restart(_, _, _, _) => OpOk(r, op) <==> after.generation == r.generation + 1
            case Pause(_, _) => OpOk(r, op) <==> after.status.Paused? && !r.status.Paused?
            case Resume(_, _) => OpOk(r, op) <==> after.status.Running? && !r.status.Running?
            case Stop(_, _) => OpOk(r, op) <==> after.status.Idle?
            case ClearHistory => OpOk(r, op)
  {
  }

  /** An effect says whether the task was restarted, and whether that gave it another
      history. */
  ghost predicate EffectTells(e: Effect, op: Op, before: Runtime, after: Runtime) {
    (e.restarted <==> op.Restart?) && (e.historyCleared <==> op.Restart? && after.history != before.history)
  }

  lemma EffectIs(r: Runtime, op: Op)
    ensures OpOk(r, op) ==> EffectTells(EffectOf(op), op, r, Applied(r, op))
  {
  }

  function EffectOf(op: Op): Effect {
    Effect(op.Restart?, op.Restart? && op.clear)
  }

  function AppliedToAll(tasks: Tasks, ops: map<string, Op>): Tasks
    requires tasks.Keys <= ops.Keys
  {
    map name | name in tasks :: Applied(tasks[name], ops[name])
  }

  function FailedLabels(tasks: Tasks, ops: map<string, Op>): set<string>
    requires tasks.Keys <= ops.Keys
  {
    set name | name in tasks && !OpOk(tasks[name], ops[name])
  }

  /** How a task is configured; `text` is everything but the flag. */
  datatype Spec = Spec(autoStart: bool, text: string)

  type Specs = map<string, Spec>

  datatype Definition = Definition(order: seq<string>, source: string, tasks: Specs)

  /** What a reload of the configuration may leave behind, whether it succeeds or
      stops at the first task that fails to stop or to start. */
  ghost predicate CanReload(before: Tasks, def: Specs, after: Tasks, ok: bool) {
    && (forall name :: name in before && name in def ==> name in after && after[name] == before[name])
    && (forall name :: name in before && name !in def && name in after ==>
          !ok && exists reap :: StoppedBy(before[name], reap, after[name]))
    && (forall name :: name in after && name !in before ==> name in def && NewTask(def[name].autoStart, after[name]))
    && (ok ==> after.Keys == def.Keys)
  }

  ghost predicate StoppedBy(before: Runtime, reap: (Wait, Reap), after: Runtime) {
    after == before || after == Stopped(before, reap.0, reap.1)
  }

  ghost predicate NewTask(autoStart: bool, r: Runtime) {
    if autoStart then r.pid.Some? && r == Started(FRESH, Alive, Spawned(r.pid.value, r.startedAt)) else r == FRESH
  }

  /** A new task runs its first generation if it starts by itself, and otherwise has not
      run yet. */
  predicate BeginsAs(autoStart: bool, r: Runtime) {
    if autoStart then
      r.status.Running? && r.child && r.pid.Some? && r.generation == 1 && r.history == 1 && r.exitCode.None?
    else r == Runtime(Idle, false, None, 0, 0, 1, None, None)
  }

  lemma NewTaskBegins(autoStart: bool, r: Runtime)
    requires NewTask(autoStart, r)
    ensures BeginsAs(autoStart, r)
  {
  }

  /** The task has no child left after these answers: there was none, or it has ended, or
      it was waited for. */
  predicate Stoppable(r: Runtime, answers: (Wait, Reap)) {
    r.child ==> answers.0.Ended? || (answers.0.Alive? && answers.1.Reaped?)
  }

  /** Every label that is taken out, but for those still to come, can be stopped. */
  ghost predicate AllStoppable(before: Tasks, def: Specs, stops: map<string, (Wait, Reap)>, toCome: set<string>) {
    forall name :: name in before && name !in def && name !in toCome ==>
      name in stops && Stoppable(before[name], stops[name])
  }

  /** Every new label that starts by itself, but for those still to come, is started. */
  ghost predicate AllStarted(before: Tasks, def: Specs, spawns: map<string, Spawn>, toCome: set<string>) {
    forall name :: name in def && name !in before && name !in toCome && def[name].autoStart ==>
      name in spawns && spawns[name].Spawned?
  }

  /** While labels are taken out: what is left is as it was. */
  ghost predicate Stopping(before: Tasks, beforeSpecs: Specs, def: Specs, tasks: Tasks, specs: Specs,
                           removed: set<string>)
  {
    && specs.Keys == tasks.Keys && removed !! def.Keys
    && tasks.Keys == before.Keys * def.Keys + removed && removed <= before.Keys
    && (forall name :: name in tasks ==> tasks[name] == before[name])
    && (forall name :: name in specs ==> name in beforeSpecs && specs[name] == beforeSpecs[name])
  }

  lemma StopOneMore(before: Tasks, beforeSpecs: Specs, def: Specs, tasks: Tasks, specs: Specs, removed: set<string>,
                    name: string, stopped: Runtime)
    requires Stopping(before, beforeSpecs, def, tasks, specs, removed) && name in removed
    ensures Stopping(before, beforeSpecs, def, tasks[name := stopped] - {name}, specs - {name}, removed - {name})
  {
  }

  /** What taking labels out may leave: `ok` is whether all of them could be stopped. */
  ghost predicate StoppedAndLeft(before: Tasks, beforeSpecs: Specs, def: Specs, stops: map<string, (Wait, Reap)>,
                                 tasks: Tasks, specs: Specs, ok: bool)
  {
    && specs.Keys == tasks.Keys && (ok <==> AllStoppable(before, def, stops, {}))
    && (forall name :: name in specs ==> name in beforeSpecs && specs[name] == beforeSpecs[name])
    && before.Keys * def.Keys <= tasks.Keys <= before.Keys && (ok ==> tasks.Keys == before.Keys * def.Keys)
    && forall name :: name in tasks ==>
         || tasks[name] == before[name]
         || (!ok && name in stops && name !in def
             && tasks[name] == Stopped(before[name], stops[name].0, stops[name].1))
  }

  lemma StopFails(before: Tasks, beforeSpecs: Specs, def: Specs, stops: map<string, (Wait, Reap)>, tasks: Tasks,
                  specs: Specs, removed: set<string>, name: string)
    requires Stopping(before, beforeSpecs, def, tasks, specs, removed) && name in removed
    requires name in stops && !StopOk(before[name], stops[name].0, stops[name].1)
    ensures var stopped := Stopped(before[name], stops[name].0, stops[name].1);
            StoppedAndLeft(before, beforeSpecs, def, stops, tasks[name := stopped], specs, false)
  {
  }

  lemma StopEnds(before: Tasks, beforeSpecs: Specs, def: Specs, stops: map<string, (Wait, Reap)>, tasks: Tasks,
                 specs: Specs)
    requires Stopping(before, beforeSpecs, def, tasks, specs, {}) && AllStoppable(before, def, stops, {})
    ensures StoppedAndLeft(before, beforeSpecs, def, stops, tasks, specs, true)
  {
  }

  /** While labels are configured: those that were there run on, others are new. */
  ghost predicate Configuring(before: Tasks, beforeSpecs: Specs, def: Specs, tasks: Tasks, specs: Specs,
                              rest: set<string>)
  {
    && specs.Keys == tasks.Keys && rest <= def.Keys && before.Keys <= def.Keys
    && tasks.Keys == before.Keys + (def.Keys - rest)
    && (forall name :: name in tasks ==>
          if name in before then tasks[name] == before[name] else NewTask(def[name].autoStart, tasks[name]))
    && (forall name :: name in specs ==>
          if name in rest then name in beforeSpecs && specs[name] == beforeSpecs[name] else specs[name] == def[name])
  }

  lemma ConfigureOneMore(before: Tasks, beforeSpecs: Specs, def: Specs, tasks: Tasks, specs: Specs, rest: set<string>,
                         name: string, task: Runtime)
    requires Configuring(before, beforeSpecs, def, tasks, specs, rest) && name in rest
    requires if name in tasks then task == tasks[name] else NewTask(def[name].autoStart, task)
    ensures Configuring(before, beforeSpecs, def, tasks[name := task], specs[name := def[name]], rest - {name})
  {
  }

  class SessionRuntime {
    var tasks: Tasks
    var specs: Specs
    var taskOrder: seq<string>
    var source: string

    predicate Valid()
      reads this
    {
      specs.Keys == tasks.Keys
    }

    constructor (def: Definition)
      ensures Valid() && specs == def.tasks && taskOrder == def.order && source == def.source
      ensures tasks == map name | name in def.tasks :: FRESH
    {
      tasks := map name | name in def.tasks :: FRESH;
      specs, taskOrder, source := def.tasks, def.order, def.source;
    }

    method ApplyOne(name: string, op: Op) returns (r: Result<Effects, ApplyError>)
      modifies this`tasks
      ensures tasks.Keys == old(tasks).Keys
      ensures name !in old(tasks) ==> tasks == old(tasks) && r == Err(TaskNotFound)
      ensures name in old(tasks) ==>
                && tasks == old(tasks)[name := Applied(old(tasks)[name], op)]
                && r == if OpOk(old(tasks)[name], op) then Ok(map[name := EffectOf(op)]) else Err(SomeFailed({name}))
      ensures r.Ok? ==> r.value.Keys == {name} && EffectTells(r.value[name], op, old(tasks)[name], tasks[name])
    {
      if name !in tasks {
        return Err(TaskNotFound);
      }
      var before := tasks[name];
      EffectIs(before, op);
      tasks := tasks[name := Applied(before, op)];
      return if OpOk(before, op) then Ok(map[name := EffectOf(op)]) else Err(SomeFailed({name}));
    }

    /** Every task is acted on, but one failure hides the effects on all others. */
    method ApplyAll(ops: map<string, Op>) returns (r: Result<Effects, ApplyError>)
      requires tasks.Keys <= ops.Keys
      modifies this`tasks
      ensures tasks.Keys == old(tasks).Keys
      ensures tasks == AppliedToAll(old(tasks), ops)
      ensures forall name :: name in tasks ==> tasks[name] == Applied(old(tasks)[name], ops[name])
      ensures r == if FailedLabels(old(tasks), ops) == {} then Ok(map name | name in old(tasks) :: EffectOf(ops[name]))
                   else Err(SomeFailed(FailedLabels(old(tasks), ops)))
      ensures r.Ok? <==> forall name :: name in old(tasks) ==> OpOk(old(tasks)[name], ops[name])
      ensures r.Ok? ==>
                && r.value.Keys == old(tasks).Keys
                && forall name :: name in r.value ==>
                     EffectTells(r.value[name], ops[name], old(tasks)[name], tasks[name])
      ensures r.Err? ==>
                && r.error.SomeFailed?
                && forall name :: name in r.error.labels <==> name in old(tasks) && !OpOk(old(tasks)[name], ops[name])
    {
      var failures: set<string> := {};
      var effects: Effects := map[];
      var rest := tasks.Keys;
      while rest != {}
        invariant rest <= old(tasks).Keys == tasks.Keys
        invariant forall name :: name in tasks ==>
                    tasks[name] == if name in rest then old(tasks)[name] else Applied(old(tasks)[name], ops[name])
        invariant failures == FailedLabels(old(tasks), ops) - rest
        invariant effects == map name | name in old(tasks) && name !in rest && name !in failures :: EffectOf(ops[name])
        decreases rest
      {
        var name :| name in rest;
        rest := rest - {name};
        var op := ops[name];
        if OpOk(tasks[name], op) {
          effects := effects[name := EffectOf(op)];
        } else {
          failures := failures + {name};
        }
        tasks := tasks[name := Applied(tasks[name], op)];
      }
      assert failures == FailedLabels(old(tasks), ops);
      forall name | name in tasks && OpOk(old(tasks)[name], ops[name])
        ensures EffectTells(EffectOf(ops[name]), ops[name], old(tasks)[name], tasks[name])
      {
        EffectIs(old(tasks)[name], ops[name]);
      }
      assert failures == {} ==> effects == map name | name in old(tasks) :: EffectOf(ops[name]);
      return if failures == {} then Ok(effects) else Err(SomeFailed(failures));
    }

    method StopRemoved(def: Specs, stops: map<string, (Wait, Reap)>) returns (ok: bool)
      requires Valid() && tasks.Keys - def.Keys <= stops.Keys
      modifies this`tasks, this`specs
      ensures StoppedAndLeft(old(tasks), old(specs), def, stops, tasks, specs, ok)
    {
      var removed := tasks.Keys - def.Keys;
      while removed != {}
        invariant Stopping(old(tasks), old(specs), def, tasks, specs, removed)
        invariant AllStoppable(old(tasks), def, stops, removed) && old(tasks).Keys - def.Keys <= stops.Keys
        decreases removed
      {
        var name :| name in removed;
        var (w, reap) := stops[name];
        ok := StopOk(tasks[name], w, reap);
        var stopped := Stopped(tasks[name], w, reap);
        StopOneMore(old(tasks), old(specs), def, tasks, specs, removed, name, stopped);
        if !ok {
          StopFails(old(tasks), old(specs), def, stops, tasks, specs, removed, name);
        }
        tasks := tasks[name := stopped];
        if !ok {
          return;
        }
        tasks, specs := tasks - {name}, specs - {name};
        removed := removed - {name};
      }
      StopEnds(old(tasks), old(specs), def, stops, tasks, specs);
      return true;
    }

    /** A task that stays only gets its new configuration; its runtime goes on. */
    method ConfigureAll(def: Specs, spawns: map<string, Spawn>) returns (ok: bool)
      requires Valid() && tasks.Keys <= def.Keys <= spawns.Keys
      modifies this`tasks, this`specs
      ensures Valid() && old(tasks).Keys <= tasks.Keys <= def.Keys && (ok ==> specs == def)
      ensures ok <==> AllStarted(old(tasks), def, spawns, {})
      ensures forall name :: name in tasks ==>
                if name in old(tasks) then tasks[name] == old(tasks)[name]
                else NewTask(def[name].autoStart, tasks[name])
      ensures forall name :: name in specs ==>
                specs[name] == def[name] || (name in old(specs) && specs[name] == old(specs)[name])
    {
      var rest := def.Keys;
      while rest != {}
        invariant Configuring(old(tasks), old(specs), def, tasks, specs, rest)
        invariant AllStarted(old(tasks), def, spawns, rest)
        decreases rest
      {
        var name :| name in rest;
        var task := FRESH;
        if name in tasks {
          task := tasks[name];
        } else if def[name].autoStart {
          if !StartOk(FRESH, Alive, spawns[name]) {
            return false;
          }
          task := Started(FRESH, Alive, spawns[name]);
        }
        ConfigureOneMore(old(tasks), old(specs), def, tasks, specs, rest, name, task);
        tasks, specs := tasks[name := task], specs[name := def[name]];
        rest := rest - {name};
      }
      return true;
    }

    /** `stops` and `spawns` are the answers to stopping and starting each task. The new
        order is in place even when the reload fails, the new source only when it succeeds. */
    method Update(def: Definition, stops: map<string, (Wait, Reap)>, spawns: map<string, Spawn>) returns (ok: bool)
      requires Valid() && tasks.Keys - def.tasks.Keys <= stops.Keys && def.tasks.Keys <= spawns.Keys
      modifies this
      ensures Valid() && CanReload(old(tasks), def.tasks, tasks, ok)
      ensures taskOrder == def.order && source == if ok then def.source else old(source)
      ensures ok ==> specs == def.tasks
      ensures ok ==> forall name :: name in tasks && name !in old(tasks) ==>
                       BeginsAs(def.tasks[name].autoStart, tasks[name])
      ensures ok <==> AllStoppable(old(tasks), def.tasks, stops, {}) && AllStarted(old(tasks), def.tasks, spawns, {})
      ensures forall name :: name in specs ==>
                || (name in def.tasks && specs[name] == def.tasks[name])
                || (name in old(specs) && specs[name] == old(specs)[name])
    {
      taskOrder := def.order;
      ok := StopRemoved(def.tasks, stops);
      if ok {
        ok := ConfigureAll(def.tasks, spawns);
      } else {
        forall name | name in tasks && name !in def.tasks
          ensures exists reap :: StoppedBy(old(tasks)[name], reap, tasks[name])
        {
          assert StoppedBy(old(tasks)[name], stops[name], tasks[name]);
        }
      }
      if ok {
        source := def.source;
        forall name | name in tasks && name !in old(tasks)
          ensures BeginsAs(def.tasks[name].autoStart, tasks[name])
        {
          NewTaskBegins(def.tasks[name].autoStart, tasks[name]);
        }
      }
    }
  }

  // ---- A label that is never taken out keeps its runtime ------------------------------------

  datatype Event =
    | One(name: string, op: Op)
    | All(ops: map<string, Op>)
    | Reload(def: Specs, ok: bool)

  ghost predicate CanStep(before: Tasks, e: Event, after: Tasks) {
    match e
    case One(name, op) => after == if name in before then before[name := Applied(before[name], op)] else before
    case All(ops) => before.Keys <= ops.Keys && after == AppliedToAll(before, ops)
    case Reload(def, ok) => CanReload(before, def, after, ok)
  }

  ghost predicate AllConsistent(tasks: Tasks) {
    forall name :: name in tasks ==> Consistent(tasks[name])
  }

  lemma CanFollowTwice(a: Runtime, b: Runtime, c: Runtime)
    requires CanFollow(a, b) && CanFollow(b, c)
    ensures CanFollow(a, c)
  {
  }

  /** A step never turns a task's generation back while the label stays. */
  lemma StepFollows(before: Tasks, e: Event, after: Tasks)
    requires AllConsistent(before) && CanStep(before, e, after)
    ensures AllConsistent(after)
    ensures forall name :: name in before && name in after ==> CanFollow(before[name], after[name])
    ensures !e.Reload? ==> after.Keys == before.Keys
  {
    forall name | name in after
      ensures Consistent(after[name])
      ensures name in before ==> CanFollow(before[name], after[name])
    {
      if name in before {
        StepFollowsOne(before, e, after, name);
      }
    }
  }

  lemma StepFollowsOne(before: Tasks, e: Event, after: Tasks, name: string)
    requires AllConsistent(before) && CanStep(before, e, after)
    requires name in before && name in after
    ensures Consistent(after[name]) && CanFollow(before[name], after[name])
  {
    match e {
      case One(_, op) => OperationFollows(before[name], op);
      case All(ops) => OperationFollows(before[name], ops[name]);
      case Reload(def, ok) =>
        if name !in def {
          var reap :| StoppedBy(before[name], reap, after[name]);
          OperationFollows(before[name], Op.Stop(reap.0, reap.1));
        }
    }
  }

  ghost predicate StepAt(states: seq<Tasks>, events: seq<Event>, i: nat) {
    i < |events| && i + 1 < |states| && CanStep(states[i], events[i], states[i + 1])
  }

  /** The states of a session from one event to the next. */
  ghost predicate IsRun(states: seq<Tasks>, events: seq<Event>) {
    && |states| == |events| + 1
    && forall i {:trigger StepAt(states, events, i)} :: 0 <= i < |events| ==> StepAt(states, events, i)
  }

  /** Over any actions and reloads: as long as a label is there, its generations only
      grow and a finished one stays finished. */
  lemma {:induction false} PresentLabelFollows(states: seq<Tasks>, events: seq<Event>, name: string)
    requires IsRun(states, events) && AllConsistent(states[0])
    requires forall i :: 0 <= i < |states| ==> name in states[i]
    ensures AllConsistent(states[|events|])
    ensures CanFollow(states[0][name], states[|events|][name])
    decreases |events|
  {
    if events == [] {
    } else {
      var n := |events| - 1;
      var before, steps := states[..n + 1], events[..n];
      assert IsRun(before, steps) by {
        forall i | 0 <= i < n ensures StepAt(before, steps, i) {
          assert StepAt(states, events, i);
        }
      }
      PresentLabelFollows(before, steps, name);
      assert StepAt(states, events, n);
      StepFollows(states[n], events[n], states[n + 1]);
      CanFollowTwice(states[0][name], states[n][name], states[n + 1][name]);
    }
  }

  /** It has to be there all the time: a label that is taken out and put back between
      two looks has lost a generation that had run. */
  lemma ReplacementResets(name: string)
    ensures var ran := FRESH.(status := Exited, generation := 1);
            var spec := Spec(false, "");
            var states: seq<Tasks> := [map[name := ran], map[], map[name := FRESH]];
            var events := [Reload(map[], true), Reload(map[name := spec], true)];
            && IsRun(states, events) && AllConsistent(states[0])
            && !CanFollow(states[0][name], states[2][name])
  {
    var ran := FRESH.(status := Exited, generation := 1);
    var spec := Spec(false, "");
    var states: seq<Tasks> := [map[name := ran], map[], map[name := FRESH]];
    var events := [Reload(map[], true), Reload(map[name := spec], true)];
    assert StepAt(states, events, 0);
    assert StepAt(states, events, 1);
  }
}
