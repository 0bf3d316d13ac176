/** The per-task ring buffer of log lines (src/runtime/log_buffer.rs). */
module LogBuffers {
  import opened Prelude

  const MAX_LOG_LINES: nat := 5_000

  /** What a caller hands to `push`. */
  datatype Entry = Entry(stream: string, text: string)

  datatype LogLine = LogLine(number: nat, stream: string, text: string)

  datatype LogsPayload = LogsPayload(generation: nat, reset: bool, lines: seq<LogLine>)

  /** The unbounded log that a generation would be if nothing were ever evicted. */
  function Numbered(written: seq<Entry>): (log: seq<LogLine>)
    ensures |log| == |written|
    ensures forall i :: 0 <= i < |log| ==> log[i] == LogLine(i + 1, written[i].stream, written[i].text)
  {
    seq(|written|, i requires 0 <= i < |written| => LogLine(i + 1, written[i].stream, written[i].text))
  }

  lemma NumberedPrefix(written: seq<Entry>, n: nat)
    requires n <= |written|
    ensures Numbered(written[..n]) == Numbered(written)[..n]
  {
  }

  function Retained(written: seq<Entry>): seq<LogLine> {
    Tail(Numbered(written), MAX_LOG_LINES)
  }

  function Clamp(limit: nat): nat {
    Max(1, Min(limit, MAX_LOG_LINES))
  }

  function Evicted(count: nat): nat {
    Max(0, count - MAX_LOG_LINES)
  }

  /** Whether an answer to a poll must replace what the poller holds. */
  predicate MustReset(count: nat, after: Option<nat>, limit: nat) {
    after.Some? &&
    (after.value > count || after.value < Evicted(count) || count - after.value > Clamp(limit))
  }

  /** What a poll is owed, said of the unbounded log alone: the lines after
      `after`, or failing that the newest `limit` lines and a reset. */
  function Owed(generation: nat, written: seq<Entry>, after: Option<nat>, limit: nat): LogsPayload {
    var reset := MustReset(|written|, after, limit);
    LogsPayload(generation, reset,
                if reset || after.None? then Tail(Numbered(written), Clamp(limit))
                else Numbered(written)[after.value..])
  }

  /** The answer is the end of the log: all that came after `after`, unless that number
      lies ahead of the log or more lines followed than may be sent; then, as for a first
      poll, it is as many of the newest lines as may be sent, at least 1 and at most 5,000. */
  ghost predicate Answers(payload: LogsPayload, generation: nat, written: seq<Entry>, after: Option<nat>, limit: nat) {
    var most := if limit == 0 then 1 else if limit > 5_000 then 5_000 else limit;
    && payload.generation == generation && IsSuffix(payload.lines, Numbered(written))
    && (payload.reset <==> after.Some? && (after.value > |written| || |written| > after.value + most))
    && |payload.lines| == if payload.reset || after.None? then Min(most, |written|) else |written| - after.value
  }

  lemma OwedAnswers(generation: nat, written: seq<Entry>, after: Option<nat>, limit: nat)
    ensures Answers(Owed(generation, written, after, limit), generation, written, after, limit)
  {
  }

  function LinesAfter(lines: seq<LogLine>, after: nat): seq<LogLine> {
    if lines == [] then []
    else (if lines[0].number > after then [lines[0]] else []) + LinesAfter(lines[1..], after)
  }

  ghost predicate ConsecutiveFrom(lines: seq<LogLine>, first: nat) {
    forall i :: 0 <= i < |lines| ==> lines[i].number == first + i
  }

  /** On consecutive numbers, filtering is dropping a prefix. */
  lemma {:induction false} LinesAfterDrops(lines: seq<LogLine>, first: nat, after: nat)
    requires ConsecutiveFrom(lines, first)
    ensures var skip := Min(|lines|, Max(0, after + 1 - first));
            LinesAfter(lines, after) == lines[skip..]
  {
    if lines == [] {
    } else {
      var rest := lines[1..];
      assert ConsecutiveFrom(rest, first + 1) by {
        forall i | 0 <= i < |rest| ensures rest[i].number == first + 1 + i {
          assert rest[i] == lines[i + 1];
        }
      }
      LinesAfterDrops(rest, first + 1, after);
      if first > after {
        assert rest[0..] == rest;
      } else {
        var k := Min(|rest|, Max(0, after - first));
        assert rest[k..] == lines[k + 1..];
      }
    }
  }

  /** What can be read off the retained lines about what was evicted. */
  lemma RetainedShowsEvicted(written: seq<Entry>)
    ensures var lines, from := Retained(written), Evicted(|written|);
            && from <= |written| && lines == Numbered(written)[from..] && ConsecutiveFrom(lines, from + 1)
            && (if lines == [] then from == |written| == 0 else lines[0].number - 1 == from)
  {
    assert Numbered(written)[0..] == Numbered(written);
  }

  /** An answer to `after` is impossible: it is ahead of the log or was evicted. */
  predicate Lost(count: nat, after: Option<nat>) {
    after.Some? && (after.value > count || after.value < Evicted(count))
  }

  /** The first line that may be sent, counted in lines before it. */
  function CandidatesFrom(count: nat, after: Option<nat>): nat {
    if Lost(count, after) || after.None? then Evicted(count) else after.value
  }

  lemma CandidatesAre(written: seq<Entry>, after: Option<nat>)
    ensures var lines := Retained(written);
            && (Lost(|written|, after) <==>
                  && after.Some?
                  && (after.value > |written| || (lines != [] && after.value < Max(0, lines[0].number - 1))))
            && CandidatesFrom(|written|, after) <= |written|
            && (if Lost(|written|, after) || after.None? then lines else LinesAfter(lines, after.value))
                 == Numbered(written)[CandidatesFrom(|written|, after)..]
  {
    RetainedShowsEvicted(written);
    if !Lost(|written|, after) && after.Some? {
      LinesAfterDrops(Retained(written), Evicted(|written|) + 1, after.value);
    }
  }

  lemma CandidatesAreOwed(generation: nat, written: seq<Entry>, after: Option<nat>, limit: nat)
    requires CandidatesFrom(|written|, after) <= |written|
    ensures var candidates := Numbered(written)[CandidatesFrom(|written|, after)..];
            var reset := if |candidates| > Clamp(limit) then after.Some? else Lost(|written|, after);
            Owed(generation, written, after, limit) == LogsPayload(generation, reset, Tail(candidates, Clamp(limit)))
  {
    if MustReset(|written|, after, limit) || after.None? {
      TailOfSuffix(Numbered(written), CandidatesFrom(|written|, after), Clamp(limit));
    }
  }

  class LogBuffer {
    var generation: nat
    var nextSeq: nat
    var lines: seq<LogLine>
    ghost var written: seq<Entry>

    ghost predicate Valid()
      reads this
    {
      nextSeq == |written| && lines == Retained(written)
    }

    constructor (newGeneration: nat)
      ensures Valid() && generation == newGeneration && written == []
    {
      generation := newGeneration;
      nextSeq := 0;
      lines := [];
      written := [];
    }

    method Push(stream: string, text: string)
      requires Valid()
      modifies this
      ensures Valid() && generation == old(generation)
      ensures written == old(written) + [Entry(stream, text)]
      ensures IsSuffix(lines, Numbered(written)) && |lines| == Min(|written|, 5_000)
    {
      nextSeq := nextSeq + 1;
      if |lines| >= MAX_LOG_LINES {
        lines := lines[1..];
      }
      lines := lines + [LogLine(nextSeq, stream, text)];
      written := written + [Entry(stream, text)];
      assert Numbered(written) == Numbered(old(written)) + [LogLine(nextSeq, stream, text)];
    }

    method Snapshot(after: Option<nat>, limit: nat) returns (payload: LogsPayload)
      requires Valid()
      ensures payload == Owed(generation, written, after, limit)
    {
      var clamped := Clamp(limit);
      CandidatesAre(written, after);
      var reset := after.Some? &&
                   (after.value > nextSeq || (lines != [] && after.value < Max(0, lines[0].number - 1)));
      var candidates := lines;
      if !reset && after.Some? {
        candidates := LinesAfter(lines, after.value);
      }
      CandidatesAreOwed(generation, written, after, limit);
      if |candidates| > clamped {
        reset := after.Some?;
      }
      payload := LogsPayload(generation, reset, Tail(candidates, clamped));
    }

    method Clear(newGeneration: nat)
      modifies this
      ensures Valid() && generation == newGeneration && written == []
    {
      generation, nextSeq, lines := newGeneration, 0, [];
      written := [];
    }
  }
}
