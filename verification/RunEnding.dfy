/**
 What the end of a run is reported as, against what the operating system said of its
 child and which stops succeeded (src/daemon/notifications.rs, src/runtime/task.rs).
 */
module RunEndings {
  import opened Prelude
  import opened TaskRuntimes
  import opened RunTransitions

  /** How each generation's child ended, as far as any call was told, and which
      generations a stop has succeeded on. This looks only at the calls and their answers,
      never at the status that the runtime makes of them. */
  datatype Facts = Facts(exits: map<nat, Exit>, stopped: set<nat>)

  const NOTHING := Facts(map[], {})

  function LearnedByPoll(r: Runtime, w: Wait): Option<Exit> {
    if r.child && w.Ended? then Some(w.exit) else None
  }

  function LearnedByStop(r: Runtime, w: Wait, reap: Reap): Option<Exit> {
    if !r.child || w.WaitFailed? then None
    else if w.Ended? then Some(w.exit)
    else if reap.Reaped? then Some(reap.exit)
    else None
  }

  function Learned(r: Runtime, op: Op): Option<Exit> {
    match op
    case Poll(w) => LearnedByPoll(r, w)
    case Start(w, _) => LearnedByPoll(r, w)
    case Pause(w, _) => LearnedByPoll(r, w)
    case Resume(w, _) => LearnedByPoll(r, w)
    case Stop(w, reap) => LearnedByStop(r, w, reap)
    case Restart(w, reap, _, _) => LearnedByStop(r, w, reap)
    case ClearHistory => None
  }

  /** A stop succeeds when there is no child, or it has ended, or it is waited for. */
  predicate Stops(r: Runtime, op: Op) {
    match op
    case Stop(w, reap) => r.child ==> w.Ended? || (w.Alive? && reap.Reaped?)
    case Restart(w, reap, _, _) => r.child ==> w.Ended? || (w.Alive? && reap.Reaped?)
    case _ => false
  }

  function OpOf(e: Event): Op {
    match e
    case Do(op) => op
    case Take(w, _, _) => Op.Poll(w)
  }

  function Noted(f: Facts, r: Runtime, op: Op): Facts {
    var exit := Learned(r, op);
    Facts(if exit.Some? then f.exits[r.generation := exit.value] else f.exits,
          if Stops(r, op) then f.stopped + {r.generation} else f.stopped)
  }

  function NotedAll(key: Key, l: Life, f: Facts, events: seq<Event>): Facts
    decreases |events|
  {
    if events == [] then f
    else NotedAll(key, Lived(key, l, events[0]), Noted(f, l.runtime, OpOf(events[0])), events[1..])
  }

  /** The report of an end: the exit's own code, and its text when it failed or has no code. */
  function Report(key: Key, generation: nat, status: string, exit: Exit): Transition {
    RunFinished(key, generation, status, exit.code,
                if status == "failed" || exit.code.None? then Some(exit.text) else None)
  }

  predicate StatusFits(status: string, exit: Exit) {
    status == "stopped" || (status == "exited" && exit.success) || (status == "failed" && !exit.success)
  }

  /** Either the report says nothing but that the run is over, or it says how its child
      really ended. */
  predicate Truthful(exits: map<nat, Exit>, t: Transition) {
    t.RunFinished? ==>
      || t == RunFinished(t.key, t.generation, "stopped", None, None)
      || (t.generation in exits && StatusFits(t.status, exits[t.generation])
          && t == Report(t.key, t.generation, t.status, exits[t.generation]))
  }

  /** The run is over: its child has ended, or it was stopped without one. */
  predicate Over(f: Facts, g: nat) {
    g in f.exits || g in f.stopped
  }

  predicate EndedByItself(f: Facts, g: nat, success: bool) {
    g !in f.stopped && g in f.exits && f.exits[g].success == success
  }

  /** What the runtime keeps of an end is what was learned of it. */
  predicate EndingKept(r: Runtime, f: Facts) {
    && (forall g :: g in f.exits ==> g <= r.generation) && (forall g :: g in f.stopped ==> g <= r.generation)
    && (r.child ==> !Over(f, r.generation))
    && (if r.generation in f.exits then
          r.exitCode == f.exits[r.generation].code && r.lastExit == Some(f.exits[r.generation].text)
        else
          r.exitCode.None? && r.lastExit.None?)
    && (r.status.Exited? <==> EndedByItself(f, r.generation, true))
    && (r.status.Failed? <==> EndedByItself(f, r.generation, false))
    && (r.generation > 0 ==> (r.status.Idle? <==> r.generation in f.stopped))
  }

  lemma OperationKeepsEnding(r: Runtime, f: Facts, op: Op)
    requires Consistent(r) && EndingKept(r, f)
    ensures EndingKept(Applied(r, op), Noted(f, r, op))
    ensures forall g :: g in f.exits ==> g in Noted(f, r, op).exits && Noted(f, r, op).exits[g] == f.exits[g]
  {
  }

  lemma BoundariesAreTruthful(key: Key, before: Option<Track>, r: Runtime, f: Facts, autoStart: bool, trigger: string)
    requires EndingKept(r, f)
    ensures forall t :: t in Boundaries(key, before, SnapshotOf(r, autoStart), trigger) ==> Truthful(f.exits, t)
  {
    var s := SnapshotOf(r, autoStart);
    if Finished(s.status) {
      assert Truthful(f.exits, FinishedRunDetails(key, s));
    }
  }

  ghost predicate EndingsOk(l: Life, f: Facts) {
    Consistent(l.runtime) && EndingKept(l.runtime, f) && forall t :: t in l.stream ==> Truthful(f.exits, t)
  }

  lemma EventKeepsEndings(key: Key, l: Life, f: Facts, e: Event)
    requires EndingsOk(l, f)
    ensures EndingsOk(Lived(key, l, e), Noted(f, l.runtime, OpOf(e)))
  {
    OperationFollows(l.runtime, OpOf(e));
    OperationKeepsEnding(l.runtime, f, OpOf(e));
    var noted := Noted(f, l.runtime, OpOf(e));
    forall t | t in l.stream ensures Truthful(noted.exits, t) {
      assert Truthful(f.exits, t);
    }
    if e.Take? && PollOk(l.runtime, e.w) {
      BoundariesAreTruthful(key, l.track, Polled(l.runtime, e.w), noted, e.autoStart, e.trigger);
    }
  }

  lemma {:induction false} RunKeepsEndings(key: Key, l: Life, f: Facts, events: seq<Event>)
    requires EndingsOk(l, f)
    ensures EndingsOk(LivedAll(key, l, events), NotedAll(key, l, f, events))
    decreases |events|
  {
    if events == [] {
    } else {
      EventKeepsEndings(key, l, f, events[0]);
      RunKeepsEndings(key, Lived(key, l, events[0]), Noted(f, l.runtime, OpOf(events[0])), events[1..]);
    }
  }

  /** Over any operations, answers and sampling times: every end in the stream that says
      more than "stopped" carries the code and the text that this very run's child left,
      is called exited only if the child succeeded and failed only if it did not. */
  lemma EndingsAreTruthful(key: Key, events: seq<Event>)
    ensures forall t :: t in LivedAll(key, BORN, events).stream ==>
              Truthful(NotedAll(key, BORN, NOTHING, events).exits, t)
  {
    RunKeepsEndings(key, BORN, NOTHING, events);
  }

  // ---- Which label, and when ---------------------------------------------------------------

  ghost function EndedGenerations(stream: seq<Transition>): set<nat> {
    set t | t in stream && t.RunFinished? :: t.generation
  }

  /** The end of the generation that was seen: stopped if a stop has succeeded on it, and
      otherwise exited or failed as its child did; with the code of the exit if one was
      learned, and its text if the run failed or there is no code. */
  predicate TellsEnd(t: Transition, f: Facts)
    requires t.RunFinished?
  {
    var g := t.generation;
    && (t.status == "stopped" <==> g in f.stopped)
    && (t.status == "exited" <==> EndedByItself(f, g, true))
    && (t.status == "failed" <==> EndedByItself(f, g, false))
    && t.exitCode == (if g in f.exits then f.exits[g].code else None)
    && t.error == (if g in f.exits && (t.status == "failed" || f.exits[g].code.None?)
                   then Some(f.exits[g].text) else None)
  }

  /** What one look adds to what was told `before`, when it sees generation `g`: the start
      of `g` if that is new, the end of `g` if it is over and that was not told, and the
      end of an older run whose end was never seen; each as it was. */
  ghost predicate TellsExactly(before: seq<Transition>, told: seq<Transition>, g: nat, startedAt: nat, trigger: string,
                               f: Facts)
  {
    && (forall t :: t in told && t.RunStarted? ==>
          t.generation == g && t.startedAt == startedAt && t.trigger == trigger)
    && StartedGenerations(told) == (if g > 0 then {g} else {}) - StartedGenerations(before)
    && (forall t :: t in told && t.RunFinished? ==>
          if t.generation == g then TellsEnd(t, f)
          else t.status == "stopped" && t.exitCode.None? && t.error.None?)
    && EndedGenerations(told)
         == (StartedGenerations(before) - {g} + (if g > 0 && Over(f, g) then {g} else {})) - EndedGenerations(before)
  }

  function OpenSet(track: Option<Track>): set<nat> {
    if track.Some? && Active(track.value.status) then {track.value.generation} else {}
  }

  /** What was told has an end for every run but the open one. */
  ghost predicate StreamOk(l: Life) {
    && (forall g :: g in l.sampled ==> 0 < g <= LastSampled(l.track))
    && EndedGenerations(l.stream) == l.sampled - OpenSet(l.track)
    && OpenSet(l.track) <= l.sampled
  }

  lemma BoundariesTell(key: Key, track: Option<Track>, s: Snapshot, trigger: string)
    requires LastSampled(track) <= s.generation
    requires track.Some? && track.value.generation == 0 ==> !Active(track.value.status)
    ensures var told := Boundaries(key, track, s, trigger);
            var isNew := s.generation > 0 && s.generation != LastSampled(track);
            var ends := Finished(s.status) && (isNew || s.generation in OpenSet(track));
            && (forall t :: t in told <==>
                  || (isNew && t == RunStarted(key, s.generation, s.startedAt, trigger))
                  || (ends && t == FinishedRunDetails(key, s))
                  || (isNew && OpenSet(track) != {}
                      && t == RunFinished(key, LastSampled(track), "stopped", None, None)))
  {
    var told := Boundaries(key, track, s, trigger);
    var close := if track.Some? then [RunFinished(key, track.value.generation, "stopped", None, None)] else [];
    var start, end := [RunStarted(key, s.generation, s.startedAt, trigger)], [FinishedRunDetails(key, s)];
    assert told == [] || told == start || told == end || told == start + end || told == close + start
           || told == close + start + end;
  }

  lemma LookStarts(key: Key, l: Life, r: Runtime, trigger: string, autoStart: bool)
    requires LifeOk(l) && StreamOk(l) && TrackOk(l.track, r)
    ensures var told := Boundaries(key, l.track, SnapshotOf(r, autoStart), trigger);
            && (forall t :: t in told && t.RunStarted? ==>
                  t.generation == r.generation && t.startedAt == r.startedAt && t.trigger == trigger)
            && StartedGenerations(told)
                 == (if r.generation > 0 then {r.generation} else {}) - StartedGenerations(l.stream)
  {
    var s := SnapshotOf(r, autoStart);
    BoundariesTell(key, l.track, s, trigger);
    var start := RunStarted(key, s.generation, s.startedAt, trigger);
    assert start in Boundaries(key, l.track, s, trigger) <==> s.generation > 0 && s.generation !in l.sampled;
  }

  lemma LookEnds(key: Key, l: Life, r: Runtime, f: Facts, trigger: string, autoStart: bool)
    requires LifeOk(l) && StreamOk(l) && Consistent(r) && EndingKept(r, f) && TrackOk(l.track, r)
    ensures var told, g := Boundaries(key, l.track, SnapshotOf(r, autoStart), trigger), r.generation;
            && (forall t :: t in told && t.RunFinished? ==>
                  if t.generation == g then TellsEnd(t, f)
                  else t.status == "stopped" && t.exitCode.None? && t.error.None?)
            && EndedGenerations(told)
                 == (l.sampled - {g} + (if g > 0 && Over(f, g) then {g} else {})) - EndedGenerations(l.stream)
  {
    var s := SnapshotOf(r, autoStart);
    var told := Boundaries(key, l.track, s, trigger);
    BoundariesTell(key, l.track, s, trigger);
    var end := FinishedRunDetails(key, s);
    var close := RunFinished(key, LastSampled(l.track), "stopped", None, None);
    assert Finished(s.status) && s.generation > 0 ==> TellsEnd(end, f);
    assert forall g :: g in EndedGenerations(told) <==>
             (g == s.generation && end in told) || (g == LastSampled(l.track) && close in told);
  }

  lemma LookTells(key: Key, l: Life, r: Runtime, f: Facts, trigger: string, autoStart: bool)
    requires LifeOk(l) && StreamOk(l) && Consistent(r) && EndingKept(r, f) && TrackOk(l.track, r)
    ensures TellsExactly(l.stream, Boundaries(key, l.track, SnapshotOf(r, autoStart), trigger), r.generation,
                         r.startedAt, trigger, f)
  {
    LookStarts(key, l, r, trigger, autoStart);
    LookEnds(key, l, r, f, trigger, autoStart);
  }

  lemma EndedAppend(first: seq<Transition>, second: seq<Transition>)
    ensures EndedGenerations(first + second) == EndedGenerations(first) + EndedGenerations(second)
  {
  }

  lemma EventKeepsStream(key: Key, l: Life, e: Event)
    requires LifeOk(l) && StreamOk(l)
    ensures StreamOk(Lived(key, l, e))
  {
    if e.Take? && PollOk(l.runtime, e.w) {
      OperationFollows(l.runtime, Op.Poll(e.w));
      var s := SnapshotOf(Polled(l.runtime, e.w), e.autoStart);
      BoundariesTell(key, l.track, s, e.trigger);
      EndedAppend(l.stream, Boundaries(key, l.track, s, e.trigger));
    }
  }

  /** Every look of a run tells exactly what happened since the last one. */
  ghost predicate ToldThroughout(key: Key, l: Life, f: Facts, events: seq<Event>)
    decreases |events|
  {
    events != [] ==>
      var e, next := events[0], Lived(key, l, events[0]);
      var noted := Noted(f, l.runtime, OpOf(e));
      && l.stream <= next.stream
      && (if e.Take? && PollOk(l.runtime, e.w) then
            TellsExactly(l.stream, next.stream[|l.stream|..], next.runtime.generation, next.runtime.startedAt,
                         e.trigger, noted)
          else next.stream == l.stream)
      && ToldThroughout(key, next, noted, events[1..])
  }

  lemma {:induction false} RunTells(key: Key, l: Life, f: Facts, events: seq<Event>)
    requires LifeOk(l) && StreamOk(l) && EndingKept(l.runtime, f)
    ensures ToldThroughout(key, l, f, events)
    decreases |events|
  {
    if events == [] {
    } else {
      var e := events[0];
      OperationFollows(l.runtime, OpOf(e));
      OperationKeepsEnding(l.runtime, f, OpOf(e));
      EventKeepsLife(key, l, e);
      EventKeepsStream(key, l, e);
      if e.Take? && PollOk(l.runtime, e.w) {
        var r := Polled(l.runtime, e.w);
        LookTells(key, l, r, Noted(f, l.runtime, OpOf(e)), e.trigger, e.autoStart);
        var told := Boundaries(key, l.track, SnapshotOf(r, e.autoStart), e.trigger);
        assert (l.stream + told)[|l.stream|..] == told;
      }
      RunTells(key, Lived(key, l, e), Noted(f, l.runtime, OpOf(e)), events[1..]);
    }
  }

  /** Over any operations, answers and sampling times: each look tells the start and the
      end of the generation it sees, once, the end under the label that the facts give it
      at that moment; and of a run that was replaced before it was seen to end, that it
      was stopped. */
  lemma EndingsAreExact(key: Key, events: seq<Event>)
    ensures ToldThroughout(key, BORN, NOTHING, events)
  {
    RunTells(key, BORN, NOTHING, events);
  }

  /** A child that has failed by itself is reported as stopped, without its error text,
      when a stop comes before the next look. */
  lemma StopHidesFailure(key: Key, pid: nat, at: nat, exit: Exit, reap: Reap)
    requires !exit.success && exit.code.Some?
    ensures var events := [Do(Op.Start(Alive, Spawned(pid, at))), Do(Op.Stop(Ended(exit), reap)),
                           Take(Alive, "manual", false)];
            && NotedAll(key, BORN, NOTHING, events) == Facts(map[1 := exit], {1})
            && LivedAll(key, BORN, events).stream
                 == [RunStarted(key, 1, at, "manual"), RunFinished(key, 1, "stopped", exit.code, None)]
  {
    var start, stop := Do(Op.Start(Alive, Spawned(pid, at))), Do(Op.Stop(Ended(exit), reap));
    var look := Take(Alive, "manual", false);
    var started := Lived(key, BORN, start);
    var stopped := Lived(key, started, stop);
    var f := Noted(NOTHING, BORN.runtime, OpOf(start));
    assert f == NOTHING;
    assert [start, stop, look][1..] == [stop, look] && [stop, look][1..] == [look] && [look][1..] == [];
    assert LivedAll(key, stopped, [look]) == Lived(key, stopped, look);
    assert LivedAll(key, started, [stop, look]) == Lived(key, stopped, look);
    var told := [RunStarted(key, 1, at, "manual"), RunFinished(key, 1, "stopped", exit.code, None)];
    assert Lived(key, stopped, look).stream == [] + told;
    var g := Noted(f, started.runtime, OpOf(stop));
    assert g == Facts(map[1 := exit], {1});
    assert NotedAll(key, stopped, g, [look]) == Noted(g, stopped.runtime, OpOf(look)) == g;
    assert NotedAll(key, started, f, [stop, look]) == g;
  }
}
