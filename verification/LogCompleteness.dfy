/** Which lines the terminal client lacks, over whole runs of the mirror. */
module LogCompleteness {
  import opened Prelude
  import opened LogBuffers
  import opened LogClient
  import opened LogMirror

  /** The number of the newest cached line. */
  function Newest(cache: Cache): nat {
    if cache.last.Some? then cache.last.value else 0
  }

  ghost function LogOf(s: System): seq<LogLine> {
    if s.view.cache.generation.Some? && s.view.cache.generation.value in s.streams
    then Numbered(s.streams[s.view.cache.generation.value].written) else []
  }

  /** The client was never shown the first `base` lines of the log it follows, and of
      the others holds the newest up to the last one it has seen. */
  ghost predicate Based(s: System, base: nat) {
    && base <= Newest(s.view.cache) <= |LogOf(s)|
    && s.view.cache.lines == Tail(LogOf(s)[base..Newest(s.view.cache)], LOG_CACHE_LIMIT)
  }

  /** The newest lines there are, up to the last one seen. */
  ghost predicate Whole(s: System) {
    && Newest(s.view.cache) <= |LogOf(s)|
    && s.view.cache.lines == Tail(LogOf(s)[..Newest(s.view.cache)], LOG_CACHE_LIMIT)
  }

  /** A delta arrives for a client that does not hold what the delta continues: the
      log was cleared, or the client reset, while the poll was out. */
  predicate Gaps(s: System, e: Event) {
    && e.Deliver? && s.poll.Served? && s.view.Label() == Some(s.poll.task)
    && !s.poll.payload.reset && s.poll.after.Some? && s.poll.payload.lines != []
    && Carried(s.view.cache, s.poll.payload) == []
  }

  /** Any other merge that keeps nothing of the cache, and any reset, starts over. */
  predicate StartsOver(s: System, e: Event)
    requires Enabled(s, e)
  {
    if e.Deliver? then s.view.Label() == Some(s.poll.task) && Carried(s.view.cache, s.poll.payload) == []
    else Next(s, e).view.cache != s.view.cache
  }

  /** How many lines are missing at the front after a step. */
  function NextBase(s: System, e: Event, base: nat): nat
    requires Enabled(s, e)
  {
    if Gaps(s, e) then s.poll.after.value else if StartsOver(s, e) then 0 else base
  }

  lemma NewBase<T>(log: seq<T>, full: seq<T>, base: nat, end: nat)
    requires base <= end <= |log| <= |full| && log == full[..|log|]
    ensures log[base..end] == full[base..end]
  {
  }

  lemma TailOfTail<T>(s: seq<T>, t: seq<T>, n: nat)
    ensures Tail(Tail(s, n) + t, n) == Tail(s + t, n)
  {
    if |s| > n {
      assert (s + t)[|s| - n..] == Tail(s, n) + t;
      TailOfSuffix(s + t, |s| - n, n);
    }
  }

  lemma DeltaTail<T>(log: seq<T>, carried: seq<T>, sent: seq<T>, base: nat, after: nat, n: nat)
    requires base <= after <= |log| && sent == log[after..] && carried == Tail(log[base..after], n)
    ensures Tail(carried + sent, n) == Tail(log[base..], n)
  {
    assert log[base..after] + log[after..] == log[base..];
    TailOfTail(log[base..after], sent, n);
  }

  /** What a delta leaves, in terms of the log. */
  lemma DeltaMerged(cache: Cache, payload: LogsPayload, written: seq<Entry>, after: nat, base: nat)
    requires payload == Owed(payload.generation, written, Some(after), LOG_CACHE_LIMIT) && !payload.reset
    requires cache.generation.None? ==> cache.last.None?
    requires Carried(cache, payload) != [] ==>
               base <= after && cache.lines == Tail(Numbered(written)[base..after], LOG_CACHE_LIMIT)
    ensures var from := if Carried(cache, payload) == [] then after else base;
            from <= |written| && Merged(cache, payload).lines == Tail(Numbered(written)[from..], LOG_CACHE_LIMIT)
  {
    MergedLines(cache, payload);
    var from := if Carried(cache, payload) == [] then after else base;
    DeltaTail(Numbered(written), Carried(cache, payload), payload.lines, from, after, LOG_CACHE_LIMIT);
  }

  lemma FullMerged(cache: Cache, payload: LogsPayload, written: seq<Entry>, after: Option<nat>)
    requires payload == Owed(payload.generation, written, after, LOG_CACHE_LIMIT)
    requires payload.reset || after.None?
    requires cache.generation.None? ==> cache.last.None?
    requires Carried(cache, payload) == []
    ensures Merged(cache, payload).lines == Tail(Numbered(written)[0..], LOG_CACHE_LIMIT)
  {
    var log := Numbered(written);
    MergedLines(cache, payload);
    assert log[0..] == log && [] + payload.lines == payload.lines;
    assert Clamp(LOG_CACHE_LIMIT) == LOG_CACHE_LIMIT;
  }

  lemma LastNumber(written: seq<Entry>, from: nat, n: nat)
    requires from <= |written| && n > 0
    ensures var lines := Tail(Numbered(written)[from..], n);
            if from == |written| then lines == []
            else lines != [] && lines[|lines| - 1].number == |written|
  {
  }

  /** From where on the client holds the log it was answered from. */
  function DeliveredFrom(s: System, base: nat): nat
    requires s.poll.Served?
  {
    if s.poll.payload.reset || s.poll.after.None? then 0
    else if Carried(s.view.cache, s.poll.payload) == [] then s.poll.after.value
    else base
  }

  lemma DeliverMerges(s: System, base: nat)
    requires Inv(s) && Based(s, base) && Enabled(s, Deliver) && s.view.Label() == Some(s.poll.task)
    ensures var from := DeliveredFrom(s, base);
            && from <= |ServedFrom(s)|
            && Next(s, Deliver).view.cache.lines == Tail(Numbered(ServedFrom(s))[from..], LOG_CACHE_LIMIT)
  {
    var cache, payload, written := s.view.cache, s.poll.payload, ServedFrom(s);
    if payload.reset || s.poll.after.None? {
      FullMerged(cache, payload, written, s.poll.after);
    } else {
      if Carried(cache, payload) != [] {
        NumberedPrefix(s.streams[payload.generation].written, s.poll.length);
        NewBase(Numbered(written), LogOf(s), base, s.poll.after.value);
      }
      DeltaMerged(cache, payload, written, s.poll.after.value, base);
    }
  }

  lemma LinesAreBased(cache: Cache, all: seq<Entry>, length: nat, from: nat)
    requires from <= length <= |all|
    requires cache.lines == Tail(Numbered(all[..length])[from..], LOG_CACHE_LIMIT)
    requires cache.last == if cache.lines == [] then None else Some(cache.lines[|cache.lines| - 1].number)
    ensures Newest(cache) == if from < length then length else 0
    ensures from < length ==> cache.lines == Tail(Numbered(all)[from..length], LOG_CACHE_LIMIT)
    ensures from == length ==> cache.lines == []
  {
    NumberedPrefix(all, length);
    LastNumber(all[..length], from, LOG_CACHE_LIMIT);
    assert Numbered(all)[..length][from..] == Numbered(all)[from..length];
  }

  lemma LinesAfterBase(s: System, base: nat)
    requires Based(s, base) && s.view.cache.lines != []
    ensures base < Newest(s.view.cache)
  {
    assert |LogOf(s)[base..Newest(s.view.cache)]| == Newest(s.view.cache) - base;
  }

  lemma NextBaseIsFrom(s: System, base: nat)
    requires Inv(s) && Based(s, base) && Enabled(s, Deliver) && s.view.Label() == Some(s.poll.task)
    ensures NextBase(s, Deliver, base) == if DeliveredFrom(s, base) < s.poll.length then DeliveredFrom(s, base) else 0
  {
    var cache, payload := s.view.cache, s.poll.payload;
    if Carried(cache, payload) != [] {
      LinesAfterBase(s, base);
    } else if !payload.reset && s.poll.after.Some? {
      assert |payload.lines| == s.poll.length - s.poll.after.value;
    }
  }

  lemma DeliverBase(s: System, base: nat)
    requires Inv(s) && Based(s, base) && Enabled(s, Deliver) && s.view.Label() == Some(s.poll.task)
    ensures Based(Next(s, Deliver), NextBase(s, Deliver, base))
  {
    NextBaseIsFrom(s, base);
    DeliverMerges(s, base);
    LinesAreBased(Next(s, Deliver).view.cache, s.streams[s.poll.payload.generation].written, s.poll.length,
                  DeliveredFrom(s, base));
  }

  lemma PushBase(s: System, task: string, entry: Entry, base: nat)
    requires Inv(s) && Based(s, base) && Enabled(s, Push(task, entry))
    ensures Based(Next(s, Push(task, entry)), base)
  {
    var g := s.current[task];
    var before, after := s.streams[g].written, s.streams[g].written + [entry];
    assert after[..|before|] == before;
    NumberedPrefix(after, |before|);
    NewBase(Numbered(before), Numbered(after), 0, 0);
    if s.view.cache.generation == Some(g) {
      NewBase(Numbered(before), Numbered(after), base, Newest(s.view.cache));
    }
  }

  lemma StepBase(s: System, e: Event, base: nat)
    requires Inv(s) && Based(s, base) && Enabled(s, e)
    ensures Based(Next(s, e), NextBase(s, e, base))
  {
    match e {
      case Deliver =>
        if s.view.Label() == Some(s.poll.task) {
          DeliverBase(s, base);
        }
      case Push(task, entry) =>
        PushBase(s, task, entry, base);
      case _ =>
    }
  }

  /** The lines missing at the front after a run: set by a gap, and back to none with
      the next reset or full answer. */
  ghost function Missing(s: System, events: seq<Event>, base: nat): nat
    requires Possible(s, events)
    decreases |events|
  {
    if events == [] then base else Missing(Next(s, events[0]), events[1..], NextBase(s, events[0], base))
  }

  lemma {:induction false} RunBase(s: System, events: seq<Event>, base: nat)
    requires Inv(s) && Based(s, base) && Possible(s, events)
    ensures Based(After(s, events), Missing(s, events, base))
    decreases |events|
  {
    if events == [] {
    } else {
      StepKeepsInv(s, events[0]);
      StepBase(s, events[0], base);
      RunBase(Next(s, events[0]), events[1..], NextBase(s, events[0], base));
    }
  }

  lemma BasedIsWhole(s: System, base: nat)
    requires Based(s, base)
    ensures Whole(s) <==> base == 0 || Newest(s.view.cache) - base >= LOG_CACHE_LIMIT
  {
    var log, end := LogOf(s), Newest(s.view.cache);
    assert |log[base..end]| == end - base;
    if end - base >= LOG_CACHE_LIMIT {
      assert log[base..end] == log[..end][base..];
      TailOfSuffix(log[..end], base, LOG_CACHE_LIMIT);
    }
  }

  /** After every run from the empty client: it holds the newest lines up to the last
      it has seen, if and only if nothing has been missing since its last full answer or
      reset, or what was missing has scrolled out of its 1,000 lines. */
  lemma WholeExactly(events: seq<Event>)
    requires Possible(INITIAL, events)
    ensures var s := After(INITIAL, events);
            var base := Missing(INITIAL, events, 0);
            && Based(s, base)
            && (Whole(s) <==> base == 0 || Newest(s.view.cache) - base >= LOG_CACHE_LIMIT)
  {
    RunBase(INITIAL, events, 0);
    BasedIsWhole(After(INITIAL, events), Missing(INITIAL, events, 0));
  }

  // ---- A run that loses lines ------------------------------------------------------------

  /** A task with one log of one line, or two logs; the client with what it holds. */
  ghost function OneLog(task: string, written: seq<Entry>, cache: Cache, poll: Poll): System {
    System(map[1 := Stream(task, written)], map[task := 1], View([task], 0, cache), poll)
  }

  ghost function TwoLogs(task: string, cleared: seq<Entry>, written: seq<Entry>, cache: Cache, poll: Poll): System {
    System(map[1 := Stream(task, cleared), 2 := Stream(task, written)], map[task := 2], View([task], 0, cache), poll)
  }

  ghost function OneLine(entry: Entry): Cache {
    Cache([LogLine(1, entry.stream, entry.text)], Some(1), Some(1))
  }

  lemma LogIsWritten(task: string, entry: Entry) returns (events: seq<Event>)
    ensures Possible(INITIAL, events) && After(INITIAL, events) == OneLog(task, [entry], EMPTY_CACHE, Idle)
  {
    var s1 := Next(INITIAL, Relabel([task]));
    assert s1 == System(map[], map[], View([task], 0, EMPTY_CACHE), Idle);
    var s2 := Next(s1, Clear(task, 1));
    assert s2 == OneLog(task, [], EMPTY_CACHE, Idle);
    var s3 := Next(s2, Push(task, entry));
    assert s3 == OneLog(task, [] + [entry], EMPTY_CACHE, Idle) && [] + [entry] == [entry];
    StepThenRest(s2, Push(task, entry), s3, []);
    StepThenRest(s1, Clear(task, 1), s2, [Push(task, entry)] + []);
    StepThenRest(INITIAL, Relabel([task]), s1, [Clear(task, 1)] + ([Push(task, entry)] + []));
    events := [Relabel([task])] + ([Clear(task, 1)] + ([Push(task, entry)] + []));
  }

  lemma LogIsShown(task: string, entry: Entry) returns (events: seq<Event>)
    ensures Possible(OneLog(task, [entry], EMPTY_CACHE, Idle), events)
    ensures After(OneLog(task, [entry], EMPTY_CACHE, Idle), events) == OneLog(task, [entry], OneLine(entry), Idle)
  {
    var s1 := OneLog(task, [entry], EMPTY_CACHE, Sent(task, None, false));
    assert Numbered([entry]) == OneLine(entry).lines;
    var payload := LogsPayload(1, false, OneLine(entry).lines);
    var s2 := OneLog(task, [entry], EMPTY_CACHE, Served(task, None, false, payload, 1));
    var s3 := OneLog(task, [entry], OneLine(entry), Idle);
    assert Next(s1, Serve) == s2;
    assert Next(s2, Deliver) == s3;
    StepThenRest(s2, Deliver, s3, []);
    StepThenRest(s1, Serve, s2, [Deliver] + []);
    StepThenRest(OneLog(task, [entry], EMPTY_CACHE, Idle), Send, s1, [Serve] + ([Deliver] + []));
    events := [Send] + ([Serve] + ([Deliver] + []));
  }

  /** It polls for what follows line 1; before that is answered the log is cleared and
      two new lines come. */
  lemma ClearCrosses(task: string, entry: Entry, first: Entry, second: Entry) returns (events: seq<Event>)
    ensures var s := OneLog(task, [entry], OneLine(entry), Idle);
            && Possible(s, events)
            && After(s, events) == TwoLogs(task, [entry], [first, second], OneLine(entry), Sent(task, Some(1), false))
  {
    var s0, poll := OneLog(task, [entry], OneLine(entry), Idle), Sent(task, Some(1), false);
    var s1 := OneLog(task, [entry], OneLine(entry), poll);
    var s2 := TwoLogs(task, [entry], [], OneLine(entry), poll);
    var s3 := TwoLogs(task, [entry], [first], OneLine(entry), poll);
    var s4 := TwoLogs(task, [entry], [first, second], OneLine(entry), poll);
    assert Next(s1, Clear(task, 2)) == s2;
    assert [] + [first] == [first] && [first] + [second] == [first, second];
    assert Next(s2, Push(task, first)) == s3;
    assert Next(s3, Push(task, second)) == s4;
    StepThenRest(s3, Push(task, second), s4, []);
    events := [Push(task, second)] + [];
    StepThenRest(s2, Push(task, first), s3, events);
    events := [Push(task, first)] + events;
    StepThenRest(s1, Clear(task, 2), s2, events);
    events := [Clear(task, 2)] + events;
    StepThenRest(s0, Send, s1, events);
    events := [Send] + events;
  }

  /** The answer is the second of them, as a plain delta. */
  lemma DeltaIsShown(task: string, entry: Entry, first: Entry, second: Entry) returns (events: seq<Event>)
    ensures var s := TwoLogs(task, [entry], [first, second], OneLine(entry), Sent(task, Some(1), false));
            var shown := Cache([LogLine(2, second.stream, second.text)], Some(2), Some(2));
            && Possible(s, events)
            && After(s, events) == TwoLogs(task, [entry], [first, second], shown, Idle)
  {
    var lines := [LogLine(2, second.stream, second.text)];
    var s0 := TwoLogs(task, [entry], [first, second], OneLine(entry), Sent(task, Some(1), false));
    assert Numbered([first, second])[1..] == lines;
    var s1 := s0.(poll := Served(task, Some(1), false, LogsPayload(2, false, lines), 2));
    var s2 := TwoLogs(task, [entry], [first, second], Cache(lines, Some(2), Some(2)), Idle);
    assert Next(s0, Serve) == s1;
    assert Next(s1, Deliver) == s2;
    StepThenRest(s1, Deliver, s2, []);
    StepThenRest(s0, Serve, s1, [Deliver] + []);
    events := [Serve] + ([Deliver] + []);
  }

  /** So a clear that crosses a poll can cost the client the beginning of the new log:
      the first line is there to be shown, and is not asked for again. */
  lemma ClearCanLoseLines(task: string, entry: Entry, first: Entry, second: Entry) returns (events: seq<Event>)
    ensures Possible(INITIAL, events)
    ensures var s := After(INITIAL, events);
            && s.view.cache.lines == [LogLine(2, second.stream, second.text)]
            && LogOf(s) == Numbered([first, second]) && !Whole(s)
  {
    var write := LogIsWritten(task, entry);
    var show := LogIsShown(task, entry);
    var cross := ClearCrosses(task, entry, first, second);
    var delta := DeltaIsShown(task, entry, first, second);
    RunThenRun(OneLog(task, [entry], OneLine(entry), Idle), cross, delta);
    RunThenRun(OneLog(task, [entry], EMPTY_CACHE, Idle), show, cross + delta);
    RunThenRun(INITIAL, write, show + (cross + delta));
    events := write + (show + (cross + delta));
    assert |Tail(LogOf(After(INITIAL, events))[..2], LOG_CACHE_LIMIT)| == 2;
  }
}
