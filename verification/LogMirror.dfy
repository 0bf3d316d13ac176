/**
 Buffers, one polling client, and at most one poll outstanding: every
 interleaving of pushes, clears, polls, selections and merges.
 */
module LogMirror {
  import opened Prelude
  import opened LogBuffers
  import opened LogClient

  /** Everything one generation has ever been given, and the task it serves. */
  datatype Stream = Stream(task: string, written: seq<Entry>)

  /** `crossed` and `length` are bookkeeping for the statements below: whether the
      client was reset while the poll was out, and how long the log was when served. */
  datatype Poll =
    | Idle
    | Sent(task: string, after: Option<nat>, crossed: bool)
    | Served(task: string, after: Option<nat>, crossed: bool, payload: LogsPayload, length: nat)

  datatype System = System(streams: map<nat, Stream>, current: map<string, nat>, view: View, poll: Poll)

  datatype Event =
    | Push(task: string, entry: Entry)
    | Clear(task: string, generation: nat)
    | Remove(task: string)
    | Send
    | Serve
    | Lose
    | Deliver
    | Select(index: nat)
    | Relabel(labels: seq<string>)

  predicate Enabled(s: System, e: Event) {
    match e
    case Push(task, _) => task in s.current && s.current[task] in s.streams
    case Clear(_, generation) => generation !in s.streams
    case Remove(_) => true
    case Send => s.poll.Idle? && s.view.Label().Some?
    case Serve => s.poll.Sent? && s.poll.task in s.current && s.current[s.poll.task] in s.streams
    case Lose => !s.poll.Idle?
    case Deliver => s.poll.Served?
    case Select(_) => true
    case Relabel(_) => true
  }

  function Crossed(poll: Poll, reset: bool): Poll {
    if poll.Idle? || !reset then poll else poll.(crossed := true)
  }

  function Next(s: System, e: Event): System
    requires Enabled(s, e)
  {
    match e
    case Push(task, entry) =>
      var g := s.current[task];
      s.(streams := s.streams[g := Stream(s.streams[g].task, s.streams[g].written + [entry])])
    case Clear(task, g) =>
      s.(streams := s.streams[g := Stream(task, [])], current := s.current[task := g])
    case Remove(task) => s.(current := s.current - {task})
    case Send => s.(poll := Sent(s.view.Label().value, s.view.cache.last, false))
    case Serve =>
      var g := s.current[s.poll.task];
      var written := s.streams[g].written;
      s.(poll := Served(s.poll.task, s.poll.after, s.poll.crossed,
                        Owed(g, written, s.poll.after, LOG_CACHE_LIMIT), |written|))
    case Lose => s.(poll := Idle)
    case Deliver =>
      var view := if s.view.Label() == Some(s.poll.task)
                  then s.view.(cache := Merged(s.view.cache, s.poll.payload)) else s.view;
      s.(view := view, poll := Idle)
    case Select(index) =>
      var view := Selected(s.view, index);
      s.(view := view, poll := Crossed(s.poll, view.selected != s.view.selected))
    case Relabel(labels) =>
      var view := Relabelled(s.view, labels);
      s.(view := view, poll := Crossed(s.poll, view.Label() != s.view.Label()))
  }

  const INITIAL := System(map[], map[], View([], 0, EMPTY_CACHE), Idle)

  // ---- What is invariant -------------------------------------------------

  /** `lines` is a stretch of the log, ending at the number of its last line. */
  ghost predicate Stretch(lines: seq<LogLine>, log: seq<LogLine>) {
    lines != [] ==>
      var end := lines[|lines| - 1].number;
      |lines| <= end <= |log| && lines == log[end - |lines|..end]
  }

  ghost predicate CacheOk(s: System, cache: Cache) {
    && |cache.lines| <= LOG_CACHE_LIMIT
    && cache.last == (if cache.lines == [] then None else Some(cache.lines[|cache.lines| - 1].number))
    && match cache.generation
       case None => cache == EMPTY_CACHE
       case Some(g) =>
         && g in s.streams
         && s.view.Label() == Some(s.streams[g].task)
         && Stretch(cache.lines, Numbered(s.streams[g].written))
  }

  /** A poll not crossed by a reset still speaks of what the client holds. */
  ghost predicate AskedBy(s: System, task: string, after: Option<nat>, crossed: bool) {
    if crossed then s.view.cache == EMPTY_CACHE
    else s.view.cache.last == after && s.view.Label() == Some(task)
  }

  ghost predicate PollOk(s: System) {
    match s.poll
    case Idle => true
    case Sent(task, after, crossed) => AskedBy(s, task, after, crossed)
    case Served(task, after, crossed, payload, length) =>
      var g := payload.generation;
      && AskedBy(s, task, after, crossed)
      && g in s.streams && s.streams[g].task == task && length <= |s.streams[g].written|
      && payload == Owed(g, s.streams[g].written[..length], after, LOG_CACHE_LIMIT)
      && (s.view.cache.generation == Some(g) && s.view.cache.last.Some? ==> s.view.cache.last.value <= length)
  }

  ghost predicate Inv(s: System) {
    && (forall task :: task in s.current ==>
          s.current[task] in s.streams && s.streams[s.current[task]].task == task)
    && CacheOk(s, s.view.cache)
    && PollOk(s)
  }

  /** The client holds the newest `LOG_CACHE_LIMIT` of these entries. */
  ghost predicate Complete(cache: Cache, written: seq<Entry>) {
    cache.lines == Tail(Numbered(written), LOG_CACHE_LIMIT)
  }

  /** The buffer contents that the answered poll was served from. */
  ghost function ServedFrom(s: System): seq<Entry>
    requires Inv(s) && s.poll.Served?
  {
    s.streams[s.poll.payload.generation].written[..s.poll.length]
  }

  // ---- One merge -----------------------------------------------------------

  /** The cached lines that a merge keeps in front of the payload. */
  function Carried(cache: Cache, payload: LogsPayload): seq<LogLine> {
    if payload.reset || cache.last.None? || cache.generation != Some(payload.generation) then [] else cache.lines
  }

  lemma MergedLines(cache: Cache, payload: LogsPayload)
    requires cache.generation.None? ==> cache.last.None?
    ensures Merged(cache, payload).lines == Tail(Carried(cache, payload) + payload.lines, LOG_CACHE_LIMIT)
  {
    assert [] + payload.lines == payload.lines;
  }

  lemma TailShown<T>(log: seq<T>, sent: seq<T>, n: nat)
    requires sent == Tail(log, n)
    ensures |Tail([] + sent, n)| == Min(n, |log|) && IsSuffix(Tail([] + sent, n), log)
  {
    assert [] + sent == sent;
  }

  lemma DeltaShown<T>(log: seq<T>, carried: seq<T>, sent: seq<T>, end: nat, n: nat)
    requires |carried| <= end <= |log| && carried == log[end - |carried|..end] && sent == log[end..]
    ensures |Tail(carried + sent, n)| == Min(n, |carried| + |log| - end) && IsSuffix(Tail(carried + sent, n), log)
  {
    assert carried + sent == log[end - |carried|..];
  }

  /** The payload that answers `after` extends a stretch ending at `after` to a
      stretch ending at `length`; this is the whole content of the protocol. */
  lemma MergeExtends(cache: Cache, payload: LogsPayload, written: seq<Entry>, after: Option<nat>)
    requires payload == Owed(payload.generation, written, after, LOG_CACHE_LIMIT)
    requires cache.last == after || cache.last.None?
    requires cache.generation.None? ==> cache.last.None?
    requires cache.last.Some? ==> cache.lines != [] && cache.last.value == cache.lines[|cache.lines| - 1].number
    requires cache.generation == Some(payload.generation) ==> Stretch(cache.lines, Numbered(written))
    ensures var lines := Merged(cache, payload).lines;
            var delta := if payload.reset || after.None? then Min(|written|, LOG_CACHE_LIMIT)
                         else |written| - after.value;
            |lines| == Min(LOG_CACHE_LIMIT, |Carried(cache, payload)| + delta)
            && IsSuffix(lines, Numbered(written))
  {
    var log, carried := Numbered(written), Carried(cache, payload);
    MergedLines(cache, payload);
    if payload.reset || after.None? {
      TailShown(log, payload.lines, LOG_CACHE_LIMIT);
    } else {
      assert carried != [] ==> carried[|carried| - 1].number == after.value;
      DeltaShown(log, carried, payload.lines, after.value, LOG_CACHE_LIMIT);
    }
  }

  /** A merge leaves the client with a suffix of the buffer the answer was made
      from, and with the full newest stretch exactly when nothing was skipped. */
  lemma MergeShowsSuffix(s: System)
    requires Inv(s) && Enabled(s, Deliver) && s.view.Label() == Some(s.poll.task)
    ensures var payload, after, length := s.poll.payload, s.poll.after, s.poll.length;
            var cache := Next(s, Deliver).view.cache;
            && IsSuffix(cache.lines, Retained(ServedFrom(s)))
            && (Complete(cache, ServedFrom(s)) <==>
                  after.None? || payload.reset
                  || |Carried(s.view.cache, payload)| + (length - after.value) >= Min(length, LOG_CACHE_LIMIT))
  {
    var cache, payload := s.view.cache, s.poll.payload;
    var log := Numbered(ServedFrom(s));
    if cache.generation == Some(payload.generation) {
      StretchOfPrefix(cache.lines, s.streams[payload.generation].written, s.poll.length);
    }
    MergeExtends(cache, payload, ServedFrom(s), s.poll.after);
    SuffixWithin(Merged(cache, payload).lines, log, LOG_CACHE_LIMIT, MAX_LOG_LINES);
  }

  lemma StretchOfPrefix(lines: seq<LogLine>, written: seq<Entry>, length: nat)
    requires Stretch(lines, Numbered(written)) && length <= |written|
    requires lines != [] ==> lines[|lines| - 1].number <= length
    ensures Stretch(lines, Numbered(written[..length]))
  {
    NumberedPrefix(written, length);
  }

  lemma SuffixWithin<T>(lines: seq<T>, log: seq<T>, small: nat, large: nat)
    requires IsSuffix(lines, log) && |lines| <= small <= large
    ensures IsSuffix(lines, Tail(log, large))
    ensures lines == Tail(log, small) <==> |lines| == Min(|log|, small)
  {
  }

  /** The cache stays complete across every merge of the same generation that no
      reset crossed, whatever was evicted or truncated in between. */
  lemma CompleteStaysComplete(s: System)
    requires Inv(s) && Enabled(s, Deliver) && !s.poll.crossed
    requires s.poll.after.Some? ==>
               && s.view.cache.generation == Some(s.poll.payload.generation)
               && var written := s.streams[s.poll.payload.generation].written;
                  s.poll.after.value <= |written| && Complete(s.view.cache, written[..s.poll.after.value])
    ensures Complete(Next(s, Deliver).view.cache, ServedFrom(s))
  {
    MergeShowsSuffix(s);
  }

  // ---- Every run -----------------------------------------------------------

  lemma StepKeepsInv(s: System, e: Event)
    requires Inv(s) && Enabled(s, e)
    ensures Inv(Next(s, e))
  {
    match e {
      case Deliver =>
        if s.view.Label() == Some(s.poll.task) {
          DeliverKeepsInv(s);
        }
      case Push(task, entry) =>
        PushKeepsInv(s, task, entry);
      case Serve =>
        var written := s.streams[s.current[s.poll.task]].written;
        assert written[..|written|] == written;
      case _ =>
    }
  }

  lemma DeliverKeepsInv(s: System)
    requires Inv(s) && Enabled(s, Deliver) && s.view.Label() == Some(s.poll.task)
    ensures Inv(Next(s, Deliver))
  {
    MergeShowsSuffix(s);
    SuffixIsStretch(Next(s, Deliver).view.cache.lines, s.streams[s.poll.payload.generation].written, s.poll.length);
  }

  lemma SuffixIsStretch(lines: seq<LogLine>, written: seq<Entry>, length: nat)
    requires length <= |written| && IsSuffix(lines, Retained(written[..length]))
    ensures Stretch(lines, Numbered(written))
  {
    NumberedPrefix(written, length);
    var part := Numbered(written[..length]);
    if lines != [] {
      assert lines == part[|part| - |lines|..];
      assert lines[|lines| - 1] == part[|part| - 1];
    }
  }

  lemma PushKeepsCache(s: System, task: string, entry: Entry)
    requires Inv(s) && Enabled(s, Push(task, entry))
    ensures CacheOk(Next(s, Push(task, entry)), s.view.cache)
  {
    var before := s.streams[s.current[task]].written;
    assert (before + [entry])[..|before|] == before;
    NumberedPrefix(before + [entry], |before|);
  }

  lemma PushKeepsPoll(s: System, task: string, entry: Entry)
    requires Inv(s) && Enabled(s, Push(task, entry))
    ensures PollOk(Next(s, Push(task, entry)))
  {
    var g := s.current[task];
    if s.poll.Served? && s.poll.payload.generation == g {
      assert (s.streams[g].written + [entry])[..s.poll.length] == s.streams[g].written[..s.poll.length];
    }
  }

  lemma PushKeepsInv(s: System, task: string, entry: Entry)
    requires Inv(s) && Enabled(s, Push(task, entry))
    ensures Inv(Next(s, Push(task, entry)))
  {
    PushKeepsCache(s, task, entry);
    PushKeepsPoll(s, task, entry);
  }

  ghost predicate Possible(s: System, events: seq<Event>)
    decreases |events|
  {
    events != [] ==> Enabled(s, events[0]) && Possible(Next(s, events[0]), events[1..])
  }

  ghost function After(s: System, events: seq<Event>): System
    requires Possible(s, events)
    decreases |events|
  {
    if events == [] then s else After(Next(s, events[0]), events[1..])
  }

  lemma {:induction false} RunKeepsInv(s: System, events: seq<Event>)
    requires Inv(s) && Possible(s, events)
    ensures Inv(After(s, events))
    decreases |events|
  {
    if events == [] {
    } else {
      StepKeepsInv(s, events[0]);
      RunKeepsInv(Next(s, events[0]), events[1..]);
    }
  }

  /** From the empty client, over every interleaving: what is on screen is a
      stretch of the selected task's log, and each merge shows a buffer suffix. */
  lemma EveryRunMirrors(events: seq<Event>)
    requires Possible(INITIAL, events)
    ensures var s := After(INITIAL, events);
            && Inv(s)
            && (Enabled(s, Deliver) && s.view.Label() == Some(s.poll.task) ==>
                  IsSuffix(Next(s, Deliver).view.cache.lines, Retained(ServedFrom(s))))
  {
    RunKeepsInv(INITIAL, events);
    var s := After(INITIAL, events);
    if Enabled(s, Deliver) && s.view.Label() == Some(s.poll.task) {
      MergeShowsSuffix(s);
    }
  }

  // ---- A label that stays listed -------------------------------------------------------

  /** Nothing else is selected, and every new label list still has `name`. */
  ghost predicate Stays(events: seq<Event>, name: string) {
    forall e :: e in events ==> !e.Select? && (e.Relabel? ==> name in e.labels)
  }

  /** What is left of a cache after the answers of a run have been merged into it, and
      nothing else has been done to it. */
  ghost function OnlyMerged(s: System, events: seq<Event>, name: string, cache: Cache): Cache
    requires Possible(s, events)
    decreases |events|
  {
    if events == [] then cache
    else
      var merges := events[0].Deliver? && s.poll.task == name;
      OnlyMerged(Next(s, events[0]), events[1..], name, if merges then Merged(cache, s.poll.payload) else cache)
  }

  /** However often the label list is sent again, in whatever order: as long as it has
      the selected label, that label stays selected and its lines are never dropped. */
  lemma {:induction false} ListedLabelKeepsCache(s: System, events: seq<Event>, name: string)
    requires Possible(s, events) && s.view.Label() == Some(name) && Stays(events, name)
    ensures After(s, events).view.Label() == Some(name)
    ensures After(s, events).view.cache == OnlyMerged(s, events, name, s.view.cache)
    decreases |events|
  {
    if events == [] {
    } else {
      assert events[0] in events && forall e :: e in events[1..] ==> e in events;
      ListedLabelKeepsCache(Next(s, events[0]), events[1..], name);
    }
  }

  lemma StepThenRest(s: System, e: Event, next: System, rest: seq<Event>)
    requires Enabled(s, e) && next == Next(s, e) && Possible(next, rest)
    ensures Possible(s, [e] + rest) && After(s, [e] + rest) == After(next, rest)
  {
    assert ([e] + rest)[1..] == rest;
  }

  lemma {:induction false} RunThenRun(s: System, first: seq<Event>, second: seq<Event>)
    requires Possible(s, first) && Possible(After(s, first), second)
    ensures Possible(s, first + second) && After(s, first + second) == After(After(s, first), second)
    decreases |first|
  {
    if first == [] {
      assert first + second == second;
    } else {
      RunThenRun(Next(s, first[0]), first[1..], second);
      assert (first + second)[1..] == first[1..] + second;
    }
  }
}
