/**
 When the two collectors of run transitions say the same: the map that remembers every
 task, and the comparison that knows the last inventory (src/daemon/notifications.rs).
 */
module RunAgreements {
  import opened Prelude
  import opened TaskRuntimes
  import opened RunTransitions
  import opened RunCollectors

  function Untriggered(t: Transition): Transition {
    if t.RunStarted? then t.(trigger := "") else t
  }

  function Erased(ts: seq<Transition>): (r: seq<Transition>)
    ensures |r| == |ts|
    ensures forall i :: 0 <= i < |ts| ==> r[i] == Untriggered(ts[i])
  {
    seq(|ts|, i requires 0 <= i < |ts| => Untriggered(ts[i]))
  }

  lemma ErasedAppend(a: seq<Transition>, b: seq<Transition>)
    ensures Erased(a + b) == Erased(a) + Erased(b)
  {
  }

  lemma TriggerIsErased(key: Key, before: Option<Track>, s: Snapshot, t1: string, t2: string)
    ensures Erased(Boundaries(key, before, s, t1)) == Erased(Boundaries(key, before, s, t2))
  {
  }

  /** One inventory of the stream, with the triggers recorded when it was taken. */
  datatype Round = Round(samples: seq<Sample>, triggers: Triggers)

  function Incremental(tracked: Tracked, rounds: seq<Round>): seq<Transition>
    decreases |rounds|
  {
    if rounds == [] then []
    else
      var g := Collect(Gathered([], tracked, rounds[0].triggers), rounds[0].samples);
      g.transitions + Incremental(g.tracked, rounds[1..])
  }

  function Pairwise(previous: seq<Sample>, rounds: seq<Round>): seq<Transition>
    decreases |rounds|
  {
    if rounds == [] then []
    else Compared(Index(previous), rounds[0].samples) + Pairwise(rounds[0].samples, rounds[1..])
  }

  lemma {:induction false} CollectSplit(g: Gathered, samples: seq<Sample>)
    requires samples != []
    ensures Collect(g, samples) == CollectOne(Collect(g, samples[..|samples| - 1]), samples[|samples| - 1])
    decreases |samples|
  {
    if |samples| > 1 {
      assert samples[1..][..|samples| - 2] == samples[..|samples| - 1][1..];
      CollectSplit(CollectOne(g, samples[0]), samples[1..]);
    } else {
      assert samples[1..] == [];
    }
  }

  lemma {:induction false} IndexMentions(samples: seq<Sample>, key: Key)
    ensures key in Index(samples) <==> Mentions(samples, key)
  {
    if samples == [] {
    } else {
      var front := samples[..|samples| - 1];
      IndexMentions(front, key);
      if Mentions(front, key) {
        var i :| 0 <= i < |front| && front[i].key == key;
        assert samples[i].key == key;
      }
    }
  }

  lemma {:induction false} CollectTracks(tracked: Tracked, triggers: Triggers, samples: seq<Sample>, key: Key)
    ensures Lookup(Collect(Gathered([], tracked, triggers), samples).tracked, key)
         == if key in Index(samples) then LookOf(Index(samples), key) else Lookup(tracked, key)
  {
    if samples == [] {
    } else {
      CollectTracks(tracked, triggers, samples[..|samples| - 1], key);
      CollectSplit(Gathered([], tracked, triggers), samples);
    }
  }

  // ---- One sample --------------------------------------------------------------------------

  /** A task comes back that the comparison has forgotten and the map has not. They say
      the same of it exactly when there is nothing to say, or a new run started and the
      remembered one had ended. */
  predicate ReturnsQuietly(remembered: Track, s: Snapshot) {
    s.generation == 0 || (s.generation != remembered.generation && !Active(remembered.status))
  }

  lemma ReturnAgreesExactly(key: Key, remembered: Track, s: Snapshot, t1: string, t2: string)
    ensures Erased(Boundaries(key, Some(remembered), s, t1)) == Erased(Boundaries(key, None, s, t2)) <==>
              ReturnsQuietly(remembered, s)
  {
    var kept, forgotten := Boundaries(key, Some(remembered), s, t1), Boundaries(key, None, s, t2);
    if !ReturnsQuietly(remembered, s) {
      assert Erased(forgotten)[0].RunStarted?;
      if |kept| > 0 {
        assert Erased(kept)[0].RunFinished?;
      }
    }
  }

  /** A sample of a task that the map remembers and the previous inventory does not have
      must return quietly; there is no condition on any other. */
  predicate SampleOk(tracked: Tracked, previous: map<Key, Snapshot>, sample: Sample) {
    sample.key in tracked && sample.key !in previous ==> ReturnsQuietly(tracked[sample.key], sample.snapshot)
  }

  /** What the previous inventory says of a task, the map says too. */
  ghost predicate Covers(tracked: Tracked, previous: map<Key, Snapshot>) {
    forall key :: key in previous ==> Lookup(tracked, key) == LookOf(previous, key)
  }

  lemma SampleAgreesExactly(tracked: Tracked, previous: map<Key, Snapshot>, sample: Sample, t1: string, t2: string)
    requires Covers(tracked, previous)
    ensures var kept := Boundaries(sample.key, Lookup(tracked, sample.key), sample.snapshot, t1);
            var compared := Boundaries(sample.key, LookOf(previous, sample.key), sample.snapshot, t2);
            Erased(kept) == Erased(compared) <==> SampleOk(tracked, previous, sample)
  {
    var Sample(key, s) := sample;
    if key in tracked && key !in previous {
      ReturnAgreesExactly(key, tracked[key], s, t1, t2);
    } else {
      TriggerIsErased(key, LookOf(previous, key), s, t1, t2);
    }
  }

  // ---- One round ---------------------------------------------------------------------------

  ghost predicate RoundOk(tracked: Tracked, previous: map<Key, Snapshot>, samples: seq<Sample>) {
    forall i :: 0 <= i < |samples| ==> SampleOk(tracked, previous, samples[i])
  }

  predicate SaysTheSame(tracked: Tracked, triggers: Triggers, previous: map<Key, Snapshot>, samples: seq<Sample>) {
    Erased(Collect(Gathered([], tracked, triggers), samples).transitions) == Erased(Compared(previous, samples))
  }

  /** Within one round the map only changes on labels already passed. */
  lemma {:induction false} RoundAgrees(tracked: Tracked, triggers: Triggers, previous: map<Key, Snapshot>,
                                       samples: seq<Sample>)
    requires DistinctKeys(samples) && Covers(tracked, previous) && RoundOk(tracked, previous, samples)
    ensures SaysTheSame(tracked, triggers, previous, samples)
  {
    if samples == [] {
    } else {
      var front, last := samples[..|samples| - 1], samples[|samples| - 1];
      RoundAgrees(tracked, triggers, previous, front);
      CollectSplit(Gathered([], tracked, triggers), samples);
      var g := Collect(Gathered([], tracked, triggers), front);
      IndexMentions(front, last.key);
      CollectTracks(tracked, triggers, front, last.key);
      var trigger := TriggerFor(g.triggers, last.key, last.snapshot);
      var found := Boundaries(last.key, Lookup(tracked, last.key), last.snapshot, trigger);
      var compared := Boundaries(last.key, LookOf(previous, last.key), last.snapshot, DefaultTrigger(last.snapshot));
      assert SampleOk(tracked, previous, last);
      SampleAgreesExactly(tracked, previous, last, trigger, DefaultTrigger(last.snapshot));
      ErasedAppend(g.transitions, found);
      ErasedAppend(Compared(previous, front), compared);
    }
  }

  lemma {:induction false} OnlyErased(ts: seq<Transition>, key: Key)
    ensures Only(Erased(ts), key) == Erased(Only(ts, key))
  {
    if ts == [] {
    } else {
      var front, last := ts[..|ts| - 1], ts[|ts| - 1];
      OnlyErased(front, key);
      assert Erased(ts)[..|ts| - 1] == Erased(front);
      ErasedAppend(Only(front, key), if last.key == key then [last] else []);
    }
  }

  lemma ComparedLast(previous: map<Key, Snapshot>, front: seq<Sample>, last: Sample, key: Key)
    ensures Only(Compared(previous, front + [last]), key)
         == Only(Compared(previous, front), key)
            + (if last.key == key
               then Boundaries(key, LookOf(previous, key), last.snapshot, DefaultTrigger(last.snapshot)) else [])
  {
    var found := Boundaries(last.key, LookOf(previous, last.key), last.snapshot, DefaultTrigger(last.snapshot));
    assert (front + [last])[..|front|] == front;
    BoundariesKey(last.key, LookOf(previous, last.key), last.snapshot, DefaultTrigger(last.snapshot));
    OnlyAppend(Compared(previous, front), found, key);
    OnlyUniform(found, last.key, key);
  }

  lemma {:induction false} ComparedUnmentioned(previous: map<Key, Snapshot>, samples: seq<Sample>, key: Key)
    requires !Mentions(samples, key)
    ensures Only(Compared(previous, samples), key) == []
  {
    if samples == [] {
    } else {
      var front, last := samples[..|samples| - 1], samples[|samples| - 1];
      assert samples == front + [last] && last.key != key;
      assert forall i :: 0 <= i < |front| ==> front[i] == samples[i];
      ComparedUnmentioned(previous, front, key);
      ComparedLast(previous, front, last, key);
    }
  }

  /** For one task, comparing inventories is comparing the two looks at that task. */
  lemma {:induction false} ComparedIsPerTask(previous: map<Key, Snapshot>, samples: seq<Sample>, i: nat)
    requires DistinctKeys(samples) && i < |samples|
    ensures var Sample(key, s) := samples[i];
            Only(Compared(previous, samples), key) == Boundaries(key, LookOf(previous, key), s, DefaultTrigger(s))
  {
    var front, last := samples[..|samples| - 1], samples[|samples| - 1];
    assert samples == front + [last];
    assert forall j :: 0 <= j < |front| ==> front[j] == samples[j];
    ComparedLast(previous, front, last, samples[i].key);
    if i == |front| {
      assert !Mentions(front, last.key);
      ComparedUnmentioned(previous, front, last.key);
    } else {
      ComparedIsPerTask(previous, front, i);
    }
  }

  lemma RoundAgreesOnlyIf(tracked: Tracked, triggers: Triggers, previous: map<Key, Snapshot>, samples: seq<Sample>,
                          i: nat)
    requires DistinctKeys(samples) && Covers(tracked, previous) && i < |samples|
    requires SaysTheSame(tracked, triggers, previous, samples)
    ensures SampleOk(tracked, previous, samples[i])
  {
    var Sample(key, s) := samples[i];
    var g := Collect(Gathered([], tracked, triggers), samples);
    CollectIsPerTask(Gathered([], tracked, triggers), samples, i);
    ComparedIsPerTask(previous, samples, i);
    OnlyErased(g.transitions, key);
    OnlyErased(Compared(previous, samples), key);
    var trigger := TriggerFor(triggers, key, s);
    var found := Boundaries(key, Lookup(tracked, key), s, trigger);
    assert [] + found == found;
    SampleAgreesExactly(tracked, previous, samples[i], trigger, DefaultTrigger(s));
  }

  lemma RoundAgreesExactly(tracked: Tracked, triggers: Triggers, previous: map<Key, Snapshot>, samples: seq<Sample>)
    requires DistinctKeys(samples) && Covers(tracked, previous)
    ensures SaysTheSame(tracked, triggers, previous, samples) <==> RoundOk(tracked, previous, samples)
  {
    if RoundOk(tracked, previous, samples) {
      RoundAgrees(tracked, triggers, previous, samples);
    }
    if SaysTheSame(tracked, triggers, previous, samples) {
      forall i | 0 <= i < |samples| ensures SampleOk(tracked, previous, samples[i]) {
        RoundAgreesOnlyIf(tracked, triggers, previous, samples, i);
      }
    }
  }

  // ---- A stream of inventories ---------------------------------------------------------------

  function TrackedAfter(tracked: Tracked, round: Round): Tracked {
    Collect(Gathered([], tracked, round.triggers), round.samples).tracked
  }

  ghost predicate DistinctRounds(rounds: seq<Round>) {
    forall i :: 0 <= i < |rounds| ==> DistinctKeys(rounds[i].samples)
  }

  /** In every round both collectors report the same, up to trigger text. */
  ghost predicate AgreeThroughout(tracked: Tracked, previous: seq<Sample>, rounds: seq<Round>)
    decreases |rounds|
  {
    rounds != [] ==>
      && SaysTheSame(tracked, rounds[0].triggers, Index(previous), rounds[0].samples)
      && AgreeThroughout(TrackedAfter(tracked, rounds[0]), rounds[0].samples, rounds[1..])
  }

  /** Every task that was out of an inventory returns quietly. */
  ghost predicate QuietThroughout(tracked: Tracked, previous: seq<Sample>, rounds: seq<Round>)
    decreases |rounds|
  {
    rounds != [] ==>
      && RoundOk(tracked, Index(previous), rounds[0].samples)
      && QuietThroughout(TrackedAfter(tracked, rounds[0]), rounds[0].samples, rounds[1..])
  }

  lemma RoundCovers(tracked: Tracked, round: Round)
    ensures Covers(TrackedAfter(tracked, round), Index(round.samples))
    ensures TrackedAfter(tracked, round).Keys == tracked.Keys + Index(round.samples).Keys
  {
    var next := TrackedAfter(tracked, round);
    forall key
      ensures Lookup(next, key)
           == if key in Index(round.samples) then LookOf(Index(round.samples), key) else Lookup(tracked, key)
      ensures key in next <==> key in tracked || key in Index(round.samples)
    {
      CollectTracks(tracked, round.triggers, round.samples, key);
    }
  }

  /** Over any stream of inventories, whatever tasks come and go: the incremental
      collector reports in every round what comparing neighbours reports, if and only if
      every task that was missing from an inventory returns quietly. */
  lemma {:induction false} CollectorsAgreeExactly(tracked: Tracked, previous: seq<Sample>, rounds: seq<Round>)
    requires Covers(tracked, Index(previous)) && DistinctRounds(rounds)
    ensures AgreeThroughout(tracked, previous, rounds) <==> QuietThroughout(tracked, previous, rounds)
    decreases |rounds|
  {
    if rounds == [] {
    } else {
      RoundAgreesExactly(tracked, rounds[0].triggers, Index(previous), rounds[0].samples);
      RoundCovers(tracked, rounds[0]);
      CollectorsAgreeExactly(TrackedAfter(tracked, rounds[0]), rounds[0].samples, rounds[1..]);
    }
  }

  lemma {:induction false} AgreeingStreams(tracked: Tracked, previous: seq<Sample>, rounds: seq<Round>)
    requires AgreeThroughout(tracked, previous, rounds)
    ensures Erased(Incremental(tracked, rounds)) == Erased(Pairwise(previous, rounds))
    decreases |rounds|
  {
    if rounds == [] {
    } else {
      var round, rest := rounds[0], rounds[1..];
      var g := Collect(Gathered([], tracked, round.triggers), round.samples);
      AgreeingStreams(g.tracked, round.samples, rest);
      ErasedAppend(g.transitions, Incremental(g.tracked, rest));
      ErasedAppend(Compared(Index(previous), round.samples), Pairwise(round.samples, rest));
    }
  }

  ghost predicate NothingDisappears(previous: seq<Sample>, rounds: seq<Round>)
    decreases |rounds|
  {
    rounds != [] ==>
      && Index(previous).Keys <= Index(rounds[0].samples).Keys
      && NothingDisappears(rounds[0].samples, rounds[1..])
  }

  lemma {:induction false} NothingReturns(tracked: Tracked, previous: seq<Sample>, rounds: seq<Round>)
    requires tracked.Keys == Index(previous).Keys && NothingDisappears(previous, rounds)
    ensures QuietThroughout(tracked, previous, rounds)
    decreases |rounds|
  {
    if rounds == [] {
    } else {
      RoundCovers(tracked, rounds[0]);
      NothingReturns(TrackedAfter(tracked, rounds[0]), rounds[0].samples, rounds[1..]);
    }
  }

  /** In particular, when no task disappears between inventories, the two streams are the
      same up to trigger text. */
  lemma IncrementalIsPairwise(tracked: Tracked, previous: seq<Sample>, rounds: seq<Round>)
    requires Covers(tracked, Index(previous)) && tracked.Keys == Index(previous).Keys
    requires DistinctRounds(rounds) && NothingDisappears(previous, rounds)
    ensures Erased(Incremental(tracked, rounds)) == Erased(Pairwise(previous, rounds))
  {
    NothingReturns(tracked, previous, rounds);
    CollectorsAgreeExactly(tracked, previous, rounds);
    AgreeingStreams(tracked, previous, rounds);
  }

  /** A running task that one inventory misses is reported as started twice by the
      comparison, with no end in between, and once by the map. */
  lemma MissedTaskStartsTwice(key: Key, at: nat)
    ensures var running := Sample(key, Snapshot(Running, 1, at, None, None, false));
            var rounds := [Round([running], map[]), Round([], map[]), Round([running], map[])];
            var start := RunStarted(key, 1, at, "manual");
            && Pairwise([], rounds) == [start, start]
            && Incremental(map[], rounds) == [start]
  {
    var running := Sample(key, Snapshot(Running, 1, at, None, None, false));
    var rest := [Round([], map[]), Round([running], map[])];
    var rounds := [Round([running], map[])] + rest;
    assert rounds[1..] == rest && rest[1..] == [Round([running], map[])];
    MissedIsCompared(key, at);
    MissedIsTracked(key, at);
    assert rounds == [Round([running], map[]), Round([], map[]), Round([running], map[])];
  }

  lemma MissedIsCompared(key: Key, at: nat)
    ensures var running := Sample(key, Snapshot(Running, 1, at, None, None, false));
            var rest := [Round([], map[]), Round([running], map[])];
            var start := RunStarted(key, 1, at, "manual");
            && Compared(Index([]), [running]) == [start]
            && Pairwise([running], rest) == [start]
  {
    var running := Sample(key, Snapshot(Running, 1, at, None, None, false));
    assert [running][..0] == [];
    var last := [Round([running], map[])];
    assert ([Round([], map[])] + last)[1..] == last && last[1..] == [];
    assert Pairwise([], last) == Compared(Index([]), [running]);
    assert [Round([], map[])] + last == [Round([], map[]), Round([running], map[])];
  }

  lemma MissedIsTracked(key: Key, at: nat)
    ensures var running := Sample(key, Snapshot(Running, 1, at, None, None, false));
            var rest := [Round([], map[]), Round([running], map[])];
            var tracked := map[key := Track(1, Running)];
            && Collect(Gathered([], map[], map[]), [running])
                 == Gathered([RunStarted(key, 1, at, "manual")], tracked, map[])
            && Incremental(tracked, rest) == []
  {
    var running := Sample(key, Snapshot(Running, 1, at, None, None, false));
    var tracked: Tracked := map[key := Track(1, Running)];
    assert [running][1..] == [];
    var none: Triggers := map[];
    var g := Gathered([], tracked, none);
    assert CollectOne(g, running) == g;
    assert Collect(g, [running]) == g && Collect(g, []) == g;
    var first := CollectOne(Gathered([], map[], none), running);
    assert first == Gathered([RunStarted(key, 1, at, "manual")], tracked, none);
    assert Collect(Gathered([], map[], none), [running]) == first;
    var last := [Round([running], map[])];
    assert ([Round([], map[])] + last)[1..] == last && last[1..] == [];
    assert Incremental(tracked, last) == [];
    assert [Round([], map[])] + last == [Round([], map[]), Round([running], map[])];
  }
}
