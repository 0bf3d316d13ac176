/** The sampler over all tasks at once, for as long as the daemon runs (src/daemon/notifications.rs). */
module RunSamplers {
  import opened Prelude
  import opened TaskRuntimes
  import opened RunTransitions
  import opened RunCollectors

  /** A task of a round, with what its poll finds. */
  datatype Visit = Visit(key: Key, w: Wait, autoStart: bool)

  /** Every task's runtime, what the sampler remembers, and all it ever emitted. */
  datatype Fleet = Fleet(runtimes: map<Key, Runtime>, tracked: Tracked, stream: seq<Transition>)

  datatype Event =
    | Add(key: Key)
    | Do(key: Key, op: Op)
    | Sweep(looks: seq<Visit>, triggers: Triggers)

  ghost predicate DistinctLooks(looks: seq<Visit>) {
    forall i, j :: 0 <= i < j < |looks| ==> looks[i].key != looks[j].key
  }

  ghost predicate Enabled(f: Fleet, e: Event) {
    match e
    case Add(key) => key !in f.runtimes && key !in f.tracked && forall t :: t in f.stream ==> t.key != key
    case Do(key, _) => key in f.runtimes
    case Sweep(looks, _) => DistinctLooks(looks) && forall look :: look in looks ==> look.key in f.runtimes
  }

  /** Every task that is looked at is polled. */
  function PolledAll(runtimes: map<Key, Runtime>, looks: seq<Visit>): map<Key, Runtime> {
    if looks == [] then runtimes
    else
      var look := looks[|looks| - 1];
      var before := PolledAll(runtimes, looks[..|looks| - 1]);
      if look.key in before then before[look.key := Polled(before[look.key], look.w)] else before
  }

  /** A task whose poll fails gives no sample. In the program neither do the other tasks
      of its session in that round: those polled before it are only polled (a `Do`), and
      those after it are not looked at. The choice of `looks` in a sweep covers this. */
  function Samples(runtimes: map<Key, Runtime>, looks: seq<Visit>): seq<Sample> {
    if looks == [] then []
    else
      var look := looks[|looks| - 1];
      Samples(runtimes, looks[..|looks| - 1])
      + if look.key in runtimes && PollOk(runtimes[look.key], look.w)
        then [Sample(look.key, SnapshotOf(Polled(runtimes[look.key], look.w), look.autoStart))] else []
  }

  ghost function Next(f: Fleet, e: Event): Fleet
    requires Enabled(f, e)
  {
    match e
    case Add(key) => f.(runtimes := f.runtimes[key := FRESH])
    case Do(key, op) => f.(runtimes := f.runtimes[key := Applied(f.runtimes[key], op)])
    case Sweep(looks, triggers) =>
      var g := Collect(Gathered([], f.tracked, triggers), Samples(f.runtimes, looks));
      Fleet(PolledAll(f.runtimes, looks), g.tracked, f.stream + g.transitions)
  }

  /** One task of the fleet, as the sampler alone with it would see it. */
  ghost function LifeOf(f: Fleet, key: Key): Life
    requires key in f.runtimes
  {
    var stream := Only(f.stream, key);
    Life(f.runtimes[key], Lookup(f.tracked, key), stream, StartedGenerations(stream))
  }

  ghost predicate FleetOk(f: Fleet) {
    forall key :: key in f.runtimes ==> LifeOk(LifeOf(f, key))
  }

  // ---- One round --------------------------------------------------------------------------

  ghost predicate LooksAt(looks: seq<Visit>, key: Key) {
    exists i :: 0 <= i < |looks| && looks[i].key == key
  }

  lemma {:induction false} PolledAllAt(runtimes: map<Key, Runtime>, looks: seq<Visit>, key: Key)
    requires DistinctLooks(looks)
    ensures PolledAll(runtimes, looks).Keys == runtimes.Keys
    ensures key in runtimes && !LooksAt(looks, key) ==> PolledAll(runtimes, looks)[key] == runtimes[key]
    ensures forall i :: 0 <= i < |looks| && looks[i].key == key && key in runtimes ==>
              PolledAll(runtimes, looks)[key] == Polled(runtimes[key], looks[i].w)
  {
    if looks == [] {
    } else {
      var front, last := looks[..|looks| - 1], looks[|looks| - 1];
      PolledAllAt(runtimes, front, key);
      if last.key == key {
        assert !LooksAt(front, key);
      } else if LooksAt(front, key) {
        var i :| 0 <= i < |front| && front[i].key == key;
        assert looks[i].key == key;
      }
    }
  }

  lemma {:induction false} SampledKeys(runtimes: map<Key, Runtime>, looks: seq<Visit>)
    requires DistinctLooks(looks)
    ensures DistinctKeys(Samples(runtimes, looks))
    ensures forall s :: s in Samples(runtimes, looks) ==> LooksAt(looks, s.key)
  {
    if looks == [] {
    } else {
      var front, last := looks[..|looks| - 1], looks[|looks| - 1];
      SampledKeys(runtimes, front);
      assert !LooksAt(front, last.key);
      forall s | s in Samples(runtimes, front) ensures LooksAt(looks, s.key) && s.key != last.key {
        var i :| 0 <= i < |front| && front[i].key == s.key;
        assert looks[i].key == s.key;
      }
      assert looks[|looks| - 1].key == last.key;
    }
  }

  /** A task that is looked at is sampled if and only if its poll succeeds. */
  lemma {:induction false} SampledExactly(runtimes: map<Key, Runtime>, looks: seq<Visit>, i: nat)
    requires DistinctLooks(looks) && i < |looks| && looks[i].key in runtimes
    ensures var Visit(key, w, autoStart) := looks[i];
            if PollOk(runtimes[key], w)
            then Sample(key, SnapshotOf(Polled(runtimes[key], w), autoStart)) in Samples(runtimes, looks)
            else !Mentions(Samples(runtimes, looks), key)
  {
    var front := looks[..|looks| - 1];
    if i < |front| {
      SampledExactly(runtimes, front, i);
    } else {
      SampledKeys(runtimes, front);
      assert !LooksAt(front, looks[i].key);
    }
  }

  /** For one task, a round over all of them is at most one look at that task. */
  lemma SweepIsOneLook(f: Fleet, looks: seq<Visit>, triggers: Triggers, key: Key)
    requires FleetOk(f) && Enabled(f, Sweep(looks, triggers)) && key in f.runtimes
    ensures key in Next(f, Sweep(looks, triggers)).runtimes && LifeOk(LifeOf(Next(f, Sweep(looks, triggers)), key))
  {
    var samples, next := Samples(f.runtimes, looks), Next(f, Sweep(looks, triggers));
    var start := Gathered([], f.tracked, triggers);
    PolledAllAt(f.runtimes, looks, key);
    SampledKeys(f.runtimes, looks);
    OnlyAppend(f.stream, Collect(start, samples).transitions, key);
    if i :| 0 <= i < |looks| && looks[i].key == key {
      var look := looks[i];
      SampledExactly(f.runtimes, looks, i);
      if PollOk(f.runtimes[key], look.w) {
        SampledRound(f, look, triggers, samples);
      } else {
        UnmentionedUntouched(start, samples, key);
        OperationFollows(f.runtimes[key], Op.Poll(look.w));
        EventKeepsLife(key, LifeOf(f, key), Take(look.w, "", look.autoStart));
        assert Only(f.stream, key) + [] == Only(f.stream, key);
      }
    } else {
      forall i | 0 <= i < |samples| ensures samples[i].key != key {
        assert samples[i] in samples;
      }
      UnmentionedUntouched(start, samples, key);
      assert Only(f.stream, key) + [] == Only(f.stream, key);
    }
  }

  lemma SampledRound(f: Fleet, look: Visit, triggers: Triggers, samples: seq<Sample>)
    requires look.key in f.runtimes && LifeOk(LifeOf(f, look.key)) && PollOk(f.runtimes[look.key], look.w)
    requires DistinctKeys(samples)
    requires Sample(look.key, SnapshotOf(Polled(f.runtimes[look.key], look.w), look.autoStart)) in samples
    ensures var g := Collect(Gathered([], f.tracked, triggers), samples);
            var stream := Only(f.stream, look.key) + Only(g.transitions, look.key);
            LifeOk(Life(Polled(f.runtimes[look.key], look.w), Lookup(g.tracked, look.key), stream,
                        StartedGenerations(stream)))
  {
    var key, s := look.key, SnapshotOf(Polled(f.runtimes[look.key], look.w), look.autoStart);
    var at :| 0 <= at < |samples| && samples[at] == Sample(key, s);
    var start := Gathered([], f.tracked, triggers);
    CollectIsPerTask(start, samples, at);
    var trigger := TriggerFor(triggers, key, s);
    EventKeepsLife(key, LifeOf(f, key), Take(look.w, trigger, look.autoStart));
    var found := Boundaries(key, Lookup(f.tracked, key), s, trigger);
    assert [] + found == found;
  }

  // ---- Every run --------------------------------------------------------------------------

  lemma StepKeepsFleet(f: Fleet, e: Event)
    requires FleetOk(f) && Enabled(f, e)
    ensures FleetOk(Next(f, e))
  {
    match e {
      case Sweep(looks, triggers) =>
        forall key | key in Next(f, e).runtimes ensures LifeOk(LifeOf(Next(f, e), key)) {
          PolledAllAt(f.runtimes, looks, key);
          SweepIsOneLook(f, looks, triggers, key);
        }
      case Do(key, op) =>
        EventKeepsLife(key, LifeOf(f, key), RunTransitions.Event.Do(op));
        forall other | other in Next(f, e).runtimes ensures LifeOk(LifeOf(Next(f, e), other)) {
          if other != key {
            assert LifeOf(Next(f, e), other) == LifeOf(f, other);
          }
        }
      case Add(key) =>
        forall other | other in Next(f, e).runtimes ensures LifeOk(LifeOf(Next(f, e), other)) {
          if other == key {
            NothingOnly(f.stream, key);
          } else {
            assert LifeOf(Next(f, e), other) == LifeOf(f, other);
          }
        }
    }
  }

  lemma {:induction false} NothingOnly(stream: seq<Transition>, key: Key)
    requires forall t :: t in stream ==> t.key != key
    ensures Only(stream, key) == []
  {
    if stream == [] {
    } else {
      NothingOnly(stream[..|stream| - 1], key);
    }
  }

  ghost predicate Possible(f: Fleet, events: seq<Event>)
    decreases |events|
  {
    events != [] ==> Enabled(f, events[0]) && Possible(Next(f, events[0]), events[1..])
  }

  ghost function After(f: Fleet, events: seq<Event>): Fleet
    requires Possible(f, events)
    decreases |events|
  {
    if events == [] then f else After(Next(f, events[0]), events[1..])
  }

  lemma {:induction false} RunKeepsFleet(f: Fleet, events: seq<Event>)
    requires FleetOk(f) && Possible(f, events)
    ensures FleetOk(After(f, events))
    decreases |events|
  {
    if events == [] {
    } else {
      StepKeepsFleet(f, events[0]);
      RunKeepsFleet(Next(f, events[0]), events[1..]);
    }
  }

  /** Over any operations on any tasks and any rounds of sampling, what the sampler has
      emitted for each task is Started(g1), Finished(g1), Started(g2), ... with
      increasing generations, open exactly when that task was last seen active. */
  lemma EveryStreamIsBracketed(events: seq<Event>, key: Key)
    requires Possible(Fleet(map[], map[], []), events)
    requires key in After(Fleet(map[], map[], []), events).runtimes
    ensures var f := After(Fleet(map[], map[], []), events);
            var track := Lookup(f.tracked, key);
            Scan(Only(f.stream, key)) == Some(Bracket(OpenRun(track), LastSampled(track)))
  {
    RunKeepsFleet(Fleet(map[], map[], []), events);
    assert LifeOk(LifeOf(After(Fleet(map[], map[], []), events), key));
  }
}
