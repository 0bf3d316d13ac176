/** Rebuilding run boundaries from samples (src/daemon/notifications.rs). */
module RunTransitions {
  import opened Prelude
  import opened TaskRuntimes

  datatype Key = Key(session: string, task: string)

  datatype Snapshot = Snapshot(
    status: Status, generation: nat, startedAt: nat, lastExit: Option<string>, exitCode: Option<int>, autoStart: bool)

  datatype Sample = Sample(key: Key, snapshot: Snapshot)

  /** What a sampler remembers of a task. */
  datatype Track = Track(generation: nat, status: Status)

  datatype Transition =
    | RunStarted(key: Key, generation: nat, startedAt: nat, trigger: string)
    | RunFinished(key: Key, generation: nat, status: string, exitCode: Option<int>, error: Option<string>)

  predicate Finished(s: Status) {
    s.Exited? || s.Failed? || s.Idle?
  }

  function StatusLabel(s: Status): string {
    match s
    case Idle => "idle"
    case Running => "running"
    case Paused => "paused"
    case Exited => "exited"
    case Failed => "failed"
  }

  function FinishedRunDetails(key: Key, s: Snapshot): Transition {
    RunFinished(key, s.generation, if s.status.Idle? then "stopped" else StatusLabel(s.status), s.exitCode,
                if s.status.Failed? || s.exitCode.None? then s.lastExit else None)
  }

  function DefaultTrigger(s: Snapshot): string {
    if s.autoStart then "auto_start" else "manual"
  }

  /** The boundaries that lie between the last look at a task and this one. */
  function Boundaries(key: Key, before: Option<Track>, s: Snapshot, trigger: string): seq<Transition> {
    var changed := before.None? || before.value.generation != s.generation;
    var wasActive := before.Some? && Active(before.value.status);
    if s.generation == 0 then []
    else if changed then
      (if wasActive then [RunFinished(key, before.value.generation, "stopped", None, None)] else [])
      + [RunStarted(key, s.generation, s.startedAt, trigger)]
      + (if Finished(s.status) then [FinishedRunDetails(key, s)] else [])
    else if wasActive && Finished(s.status) then [FinishedRunDetails(key, s)]
    else []
  }

  lemma BoundariesKey(key: Key, before: Option<Track>, s: Snapshot, trigger: string)
    ensures forall t :: t in Boundaries(key, before, s, trigger) ==> t.key == key
  {
  }

  /** What both collectors do for one task. */
  method CollectBoundaries(key: Key, before: Option<Track>, s: Snapshot, trigger: string)
    returns (found: seq<Transition>)
    ensures found == Boundaries(key, before, s, trigger)
  {
    var generationChanged := before.None? || before.value.generation != s.generation;
    var previousActive := before.Some? && Active(before.value.status);
    found := [];
    if s.generation > 0 && generationChanged && previousActive {
      found := found + [RunFinished(key, before.value.generation, "stopped", None, None)];
    }
    if s.generation > 0 && generationChanged {
      found := found + [RunStarted(key, s.generation, s.startedAt, trigger)];
      if Finished(s.status) {
        found := found + [FinishedRunDetails(key, s)];
      }
    } else if s.generation > 0 && previousActive && Finished(s.status) {
      found := found + [FinishedRunDetails(key, s)];
    }
  }

  function Look(s: Snapshot): Track {
    Track(s.generation, s.status)
  }

  function Lookup<K, V>(m: map<K, V>, k: K): Option<V> {
    if k in m then Some(m[k]) else None
  }

  // ---- One task's stream -----------------------------------------------------------

  /** `open` is the run that has started and not finished, `last` the newest generation. */
  datatype Bracket = Bracket(open: Option<nat>, last: nat)

  function Step(b: Option<Bracket>, t: Transition): Option<Bracket> {
    match (b, t)
    case (None, _) => None
    case (Some(b), RunStarted(_, g, _, _)) =>
      if b.open.None? && g > b.last then Some(Bracket(Some(g), g)) else None
    case (Some(b), RunFinished(_, g, _, _, _)) =>
      if b.open == Some(g) then Some(Bracket(None, g)) else None
  }

  function Steps(b: Option<Bracket>, stream: seq<Transition>): Option<Bracket>
    decreases |stream|
  {
    if stream == [] then b else Steps(Step(b, stream[0]), stream[1..])
  }

  /** Reads a stream as Started(g1), Finished(g1), Started(g2), ... with g1 < g2 < ...;
      `None` when it is anything else. */
  function Scan(stream: seq<Transition>): Option<Bracket> {
    Steps(Some(Bracket(None, 0)), stream)
  }

  lemma {:induction false} StepsAppend(b: Option<Bracket>, first: seq<Transition>, second: seq<Transition>)
    ensures Steps(b, first + second) == Steps(Steps(b, first), second)
    decreases |first|
  {
    if first == [] {
      assert first + second == second;
    } else {
      assert (first + second)[1..] == first[1..] + second;
      StepsAppend(Step(b, first[0]), first[1..], second);
    }
  }

  lemma StepsOne(b: Option<Bracket>, t: Transition)
    ensures Steps(b, [t]) == Step(b, t)
  {
    assert [t][1..] == [];
  }

  function SnapshotOf(r: Runtime, autoStart: bool): Snapshot {
    Snapshot(r.status, r.generation, r.startedAt, r.lastExit, r.exitCode, autoStart)
  }

  datatype Event =
    | Do(op: Op)
    | Take(w: Wait, trigger: string, autoStart: bool)

  /** A task, the sampler's memory of it, everything emitted for it so far, and
      (for the statements only) the positive generations that were sampled. */
  datatype Life = Life(runtime: Runtime, track: Option<Track>, stream: seq<Transition>, sampled: set<nat>)

  const BORN := Life(FRESH, None, [], {})

  /** Taking a snapshot polls first; a failed poll skips the sample. */
  function Lived(key: Key, l: Life, e: Event): Life {
    match e
    case Do(op) => l.(runtime := Applied(l.runtime, op))
    case Take(w, trigger, autoStart) =>
      var r := Polled(l.runtime, w);
      if !PollOk(l.runtime, w) then l.(runtime := r)
      else
        var s := SnapshotOf(r, autoStart);
        Life(r, Some(Look(s)), l.stream + Boundaries(key, l.track, s, trigger),
             l.sampled + if s.generation > 0 then {s.generation} else {})
  }

  function LivedAll(key: Key, l: Life, events: seq<Event>): Life
    decreases |events|
  {
    if events == [] then l else LivedAll(key, Lived(key, l, events[0]), events[1..])
  }

  ghost predicate TrackOk(track: Option<Track>, r: Runtime) {
    track.Some? ==>
      && track.value.generation <= r.generation
      && (track.value.generation == r.generation && !Active(track.value.status) ==> !Active(r.status))
      && (track.value.generation == 0 ==> !Active(track.value.status))
  }

  function OpenRun(track: Option<Track>): Option<nat> {
    if track.Some? && Active(track.value.status) then Some(track.value.generation) else None
  }

  function LastSampled(track: Option<Track>): nat {
    if track.Some? then track.value.generation else 0
  }

  ghost function StartedGenerations(stream: seq<Transition>): set<nat> {
    set t | t in stream && t.RunStarted? :: t.generation
  }

  ghost predicate LifeOk(l: Life) {
    && Consistent(l.runtime) && TrackOk(l.track, l.runtime)
    && Scan(l.stream) == Some(Bracket(OpenRun(l.track), LastSampled(l.track)))
    && StartedGenerations(l.stream) == l.sampled
    && (LastSampled(l.track) > 0 ==> LastSampled(l.track) in l.sampled)
  }

  lemma BoundariesScan(key: Key, track: Option<Track>, s: Snapshot, trigger: string)
    requires LastSampled(track) <= s.generation
    requires track.Some? && track.value.generation == s.generation && !Active(track.value.status) ==> !Active(s.status)
    requires s.generation == 0 ==> s.status.Idle?
    requires track.Some? && track.value.generation == 0 ==> !Active(track.value.status)
    ensures Steps(Some(Bracket(OpenRun(track), LastSampled(track))), Boundaries(key, track, s, trigger))
         == Some(Bracket(OpenRun(Some(Look(s))), s.generation))
  {
    var b := Some(Bracket(OpenRun(track), LastSampled(track)));
    var start := RunStarted(key, s.generation, s.startedAt, trigger);
    var finish := FinishedRunDetails(key, s);
    StepsOne(b, finish);
    if s.generation > 0 && (track.None? || track.value.generation != s.generation) {
      var close := if track.Some? && Active(track.value.status)
                   then [RunFinished(key, track.value.generation, "stopped", None, None)] else [];
      var tail := if Finished(s.status) then [finish] else [];
      var closed := Some(Bracket(None, LastSampled(track)));
      assert Steps(b, close) == closed by {
        if close != [] {
          StepsOne(b, close[0]);
        }
      }
      StepsAppend(b, close, [start]);
      StepsOne(closed, start);
      StepsAppend(b, close + [start], tail);
      StepsOne(Some(Bracket(Some(s.generation), s.generation)), finish);
      assert Boundaries(key, track, s, trigger) == close + [start] + tail;
    }
  }

  lemma EventKeepsLife(key: Key, l: Life, e: Event)
    requires LifeOk(l)
    ensures LifeOk(Lived(key, l, e))
  {
    match e {
      case Do(op) =>
        OperationFollows(l.runtime, op);
      case Take(w, trigger, autoStart) =>
        OperationFollows(l.runtime, Op.Poll(w));
        if PollOk(l.runtime, w) {
          var s := SnapshotOf(Polled(l.runtime, w), autoStart);
          BoundariesScan(key, l.track, s, trigger);
          StepsAppend(Some(Bracket(None, 0)), l.stream, Boundaries(key, l.track, s, trigger));
          StartedGenerationsGrow(key, l, s, trigger);
        }
    }
  }

  lemma StartedGenerationsGrow(key: Key, l: Life, s: Snapshot, trigger: string)
    requires LifeOk(l)
    ensures StartedGenerations(l.stream + Boundaries(key, l.track, s, trigger))
         == l.sampled + if s.generation > 0 then {s.generation} else {}
  {
    var added := Boundaries(key, l.track, s, trigger);
    assert StartedGenerations(l.stream + added) == StartedGenerations(l.stream) + StartedGenerations(added);
    if s.generation > 0 && (l.track.None? || l.track.value.generation != s.generation) {
      assert RunStarted(key, s.generation, s.startedAt, trigger) in added;
      assert forall t :: t in added && t.RunStarted? ==> t == RunStarted(key, s.generation, s.startedAt, trigger);
    }
  }

  lemma {:induction false} LivedAllKeepsLife(key: Key, l: Life, events: seq<Event>)
    requires LifeOk(l)
    ensures LifeOk(LivedAll(key, l, events))
    decreases |events|
  {
    if events == [] {
    } else {
      EventKeepsLife(key, l, events[0]);
      LivedAllKeepsLife(key, Lived(key, l, events[0]), events[1..]);
    }
  }

  /** Over any operations and any sampling times, the emitted stream is
      Started(g1), Finished(g1), Started(g2), ... with increasing generations; the
      last run is open exactly when the task was last seen active; and the runs
      reported are exactly the generations that were sampled. */
  lemma StreamIsBracketed(key: Key, events: seq<Event>)
    ensures var l := LivedAll(key, BORN, events);
            && Scan(l.stream) == Some(Bracket(OpenRun(l.track), LastSampled(l.track)))
            && StartedGenerations(l.stream) == l.sampled
  {
    LivedAllKeepsLife(key, BORN, events);
  }
}
