/**
 The two collectors of run transitions, over all tasks at once: the local sampler
 keeps a map of what it saw, the leader compares consecutive worker inventories
 (src/daemon/notifications.rs).
 */
module RunCollectors {
  import opened Prelude
  import opened TaskRuntimes
  import opened RunTransitions

  type Tracked = map<Key, Track>
  type Triggers = map<Key, string>

  ghost predicate DistinctKeys(samples: seq<Sample>) {
    forall i, j :: 0 <= i < j < |samples| ==> samples[i].key != samples[j].key
  }

  // ---- The local sampler ---------------------------------------------------------

  datatype Gathered = Gathered(transitions: seq<Transition>, tracked: Tracked, triggers: Triggers)

  function TriggerFor(triggers: Triggers, key: Key, s: Snapshot): string {
    if key in triggers then triggers[key] else DefaultTrigger(s)
  }

  predicate Starts(before: Option<Track>, s: Snapshot) {
    s.generation > 0 && (before.None? || before.value.generation != s.generation)
  }

  function CollectOne(g: Gathered, sample: Sample): Gathered {
    var Sample(key, s) := sample;
    var before := Lookup(g.tracked, key);
    Gathered(g.transitions + Boundaries(key, before, s, TriggerFor(g.triggers, key, s)),
             g.tracked[key := Look(s)], if Starts(before, s) then g.triggers - {key} else g.triggers)
  }

  function Collect(g: Gathered, samples: seq<Sample>): Gathered
    decreases |samples|
  {
    if samples == [] then g else Collect(CollectOne(g, samples[0]), samples[1..])
  }

  class Sampler {
    var tracked: Tracked

    constructor ()
      ensures tracked == map[]
    {
      tracked := map[];
    }

    method CollectRunTransitions(samples: seq<Sample>, triggers: Triggers)
      returns (transitions: seq<Transition>, rest: Triggers)
      modifies this
      ensures Gathered(transitions, tracked, rest) == Collect(Gathered([], old(tracked), triggers), samples)
    {
      transitions, rest := [], triggers;
      for i := 0 to |samples|
        invariant Collect(Gathered(transitions, tracked, rest), samples[i..])
               == Collect(Gathered([], old(tracked), triggers), samples)
      {
        ghost var g := Gathered(transitions, tracked, rest);
        assert samples[i..][1..] == samples[i + 1..];
        var Sample(key, s) := samples[i];
        var previous := Lookup(tracked, key);
        var found := CollectBoundaries(key, previous, s, TriggerFor(rest, key, s));
        if Starts(previous, s) {
          rest := rest - {key};
        }
        transitions := transitions + found;
        tracked := tracked[key := Look(s)];
        assert Gathered(transitions, tracked, rest) == CollectOne(g, samples[i]);
      }
    }
  }

  // ---- Each task sees only its own stream -----------------------------------------

  function Only(transitions: seq<Transition>, key: Key): seq<Transition> {
    if transitions == [] then []
    else Only(transitions[..|transitions| - 1], key)
         + if transitions[|transitions| - 1].key == key then [transitions[|transitions| - 1]] else []
  }

  lemma {:induction false} OnlyAppend(a: seq<Transition>, b: seq<Transition>, key: Key)
    ensures Only(a + b, key) == Only(a, key) + Only(b, key)
  {
    if b == [] {
      assert a + b == a;
    } else {
      var front := b[..|b| - 1];
      assert (a + b)[..|a + b| - 1] == a + front;
      OnlyAppend(a, front, key);
    }
  }

  lemma {:induction false} OnlyUniform(a: seq<Transition>, owner: Key, key: Key)
    requires forall t :: t in a ==> t.key == owner
    ensures Only(a, key) == if key == owner then a else []
  {
    if a == [] {
    } else {
      OnlyUniform(a[..|a| - 1], owner, key);
      assert a == a[..|a| - 1] + [a[|a| - 1]];
    }
  }

  lemma CollectOneOnly(g: Gathered, sample: Sample, key: Key)
    ensures var after := CollectOne(g, sample);
            && Only(after.transitions, key) == Only(g.transitions, key)
                 + (if sample.key == key
                    then Boundaries(key, Lookup(g.tracked, key), sample.snapshot,
                                    TriggerFor(g.triggers, key, sample.snapshot))
                    else [])
            && Lookup(after.tracked, key)
                 == (if sample.key == key then Some(Look(sample.snapshot)) else Lookup(g.tracked, key))
            && (sample.key != key ==> Lookup(after.triggers, key) == Lookup(g.triggers, key))
            && (sample.key == key ==>
                  Lookup(after.triggers, key)
                    == if Starts(Lookup(g.tracked, key), sample.snapshot) then None else Lookup(g.triggers, key))
  {
    var added := Boundaries(sample.key, Lookup(g.tracked, sample.key), sample.snapshot,
                            TriggerFor(g.triggers, sample.key, sample.snapshot));
    BoundariesKey(sample.key, Lookup(g.tracked, sample.key), sample.snapshot,
                  TriggerFor(g.triggers, sample.key, sample.snapshot));
    OnlyAppend(g.transitions, added, key);
    OnlyUniform(added, sample.key, key);
  }

  ghost predicate Mentions(samples: seq<Sample>, key: Key) {
    exists i :: 0 <= i < |samples| && samples[i].key == key
  }

  lemma {:induction false} UnmentionedUntouched(g: Gathered, samples: seq<Sample>, key: Key)
    requires !Mentions(samples, key)
    ensures Only(Collect(g, samples).transitions, key) == Only(g.transitions, key)
    ensures Lookup(Collect(g, samples).tracked, key) == Lookup(g.tracked, key)
    ensures Lookup(Collect(g, samples).triggers, key) == Lookup(g.triggers, key)
    decreases |samples|
  {
    if samples == [] {
    } else {
      assert samples[0].key != key;
      CollectOneOnly(g, samples[0], key);
      assert forall i :: 0 <= i < |samples| - 1 ==> samples[1..][i] == samples[i + 1];
      UnmentionedUntouched(CollectOne(g, samples[0]), samples[1..], key);
    }
  }

  /** One round of sampling is, for each task, one look at that task alone; and a
      recorded trigger that labelled a start is used up. */
  lemma {:induction false} CollectIsPerTask(g: Gathered, samples: seq<Sample>, at: nat)
    requires DistinctKeys(samples) && at < |samples|
    ensures var Sample(key, s) := samples[at];
            var after := Collect(g, samples);
            && Only(after.transitions, key)
                 == Only(g.transitions, key)
                    + Boundaries(key, Lookup(g.tracked, key), s, TriggerFor(g.triggers, key, s))
            && Lookup(after.tracked, key) == Some(Look(s))
            && Lookup(after.triggers, key)
                 == (if Starts(Lookup(g.tracked, key), s) then None else Lookup(g.triggers, key))
    decreases |samples|
  {
    var Sample(key, s) := samples[at];
    var next, rest := CollectOne(g, samples[0]), samples[1..];
    CollectOneOnly(g, samples[0], key);
    assert forall i :: 0 <= i < |rest| ==> rest[i] == samples[i + 1];
    if at == 0 {
      assert !Mentions(rest, key);
      UnmentionedUntouched(next, rest, key);
    } else {
      CollectIsPerTask(next, rest, at - 1);
      assert samples[0].key != key && rest[at - 1] == samples[at];
      assert Lookup(next.triggers, key) == Lookup(g.triggers, key);
      assert TriggerFor(next.triggers, key, s) == TriggerFor(g.triggers, key, s);
      assert Only(next.transitions, key) == Only(g.transitions, key);
    }
  }

  lemma StartInBoundaries(key: Key, before: Option<Track>, s: Snapshot, trigger: string)
    ensures var told := Boundaries(key, before, s, trigger);
            && (forall t :: t in told && t.RunStarted? ==> t.trigger == trigger)
            && ((exists t :: t in told && t.RunStarted?) <==> Starts(before, s))
  {
    if Starts(before, s) {
      assert RunStarted(key, s.generation, s.startedAt, trigger) in Boundaries(key, before, s, trigger);
    }
  }

  /** A start that the sampler reports carries the trigger that was recorded for the task,
      or says how it is configured to start; and a recorded trigger stays until a start
      has used it. */
  lemma StartsAreLabelled(g: Gathered, samples: seq<Sample>, at: nat) returns (told: seq<Transition>)
    requires DistinctKeys(samples) && at < |samples|
    ensures var Sample(key, s) := samples[at];
            && Only(Collect(g, samples).transitions, key) == Only(g.transitions, key) + told
            && (forall t :: t in told && t.RunStarted? ==>
                  t.trigger == if key in g.triggers then g.triggers[key]
                               else if s.autoStart then "auto_start" else "manual")
            && ((exists t :: t in told && t.RunStarted?) <==> Starts(Lookup(g.tracked, key), s))
    ensures var Sample(key, s) := samples[at];
            Lookup(Collect(g, samples).triggers, key)
              == if Starts(Lookup(g.tracked, key), s) then None else Lookup(g.triggers, key)
  {
    var Sample(key, s) := samples[at];
    CollectIsPerTask(g, samples, at);
    told := Boundaries(key, Lookup(g.tracked, key), s, TriggerFor(g.triggers, key, s));
    StartInBoundaries(key, Lookup(g.tracked, key), s, TriggerFor(g.triggers, key, s));
  }

  // ---- The leader's comparison of inventories --------------------------------------

  function Index(inventory: seq<Sample>): map<Key, Snapshot> {
    if inventory == [] then map[]
    else
      var last := inventory[|inventory| - 1];
      Index(inventory[..|inventory| - 1])[last.key := last.snapshot]
  }

  function LookOf(previous: map<Key, Snapshot>, key: Key): Option<Track> {
    if key in previous then Some(Look(previous[key])) else None
  }

  function Compared(previous: map<Key, Snapshot>, current: seq<Sample>): seq<Transition> {
    if current == [] then []
    else
      var Sample(key, s) := current[|current| - 1];
      Compared(previous, current[..|current| - 1]) + Boundaries(key, LookOf(previous, key), s, DefaultTrigger(s))
  }

  method CollectInventoryTransitions(previous: seq<Sample>, current: seq<Sample>) returns (transitions: seq<Transition>)
    ensures transitions == Compared(Index(previous), current)
  {
    var previousTasks := Index(previous);
    transitions := [];
    for i := 0 to |current|
      invariant transitions == Compared(previousTasks, current[..i])
    {
      assert current[..i + 1][..i] == current[..i];
      var Sample(key, s) := current[i];
      var found := CollectBoundaries(key, LookOf(previousTasks, key), s, DefaultTrigger(s));
      transitions := transitions + found;
    }
    assert current[..|current|] == current;
  }
}
