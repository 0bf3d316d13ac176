/** The scheduler's time window: which seconds a round looks at (src/daemon/scheduler.rs). */
module SchedulerWindows {
  import opened Prelude
  import opened Text

  /** A task with a schedule expression, as a session snapshot lists it. */
  datatype Scheduled = Scheduled(session: string, task: string, schedule: Option<string>)

  function Fields(s: string): nat {
    if s == "" then 0
    else Fields(s[1..]) + if !IsWhitespace(s[0]) && (|s| == 1 || IsWhitespace(s[1])) then 1 else 0
  }

  /** A five-field expression gets a field for the seconds. */
  function NormalizedSchedule(expression: string): string {
    if Fields(expression) == 5 then "0 " + expression else expression
  }

  /** The words of an expression: what stands between white space. */
  function Words(s: string): seq<string> {
    if s == "" then []
    else if IsWhitespace(s[0]) then Words(s[1..])
    else if |s| == 1 || IsWhitespace(s[1]) then [[s[0]]] + Words(s[1..])
    else
      var rest := Words(s[1..]);
      if rest == [] then [s] else [[s[0]] + rest[0]] + rest[1..]
  }

  lemma {:induction false} FieldsAreWords(s: string)
    ensures Fields(s) == |Words(s)|
    ensures s != "" && !IsWhitespace(s[0]) ==> Words(s) != []
  {
    if s == "" {
    } else {
      FieldsAreWords(s[1..]);
    }
  }

  /** An expression of five fields is read as one of six with the second 0 in front, so
      that it means one second of each of its minutes; any other is read as it is. */
  lemma NormalizedIs(expression: string)
    ensures if |Words(expression)| == 5 then Words(NormalizedSchedule(expression)) == ["0"] + Words(expression)
            else NormalizedSchedule(expression) == expression
  {
    FieldsAreWords(expression);
    if |Words(expression)| == 5 {
      var normalized := "0 " + expression;
      assert normalized[1..] == " " + expression && normalized[1..][1..] == expression;
      assert IsWhitespace(' ') && !IsWhitespace('0');
    }
  }

  /** `includes(expression, second)`: the expression parses and holds at that second. */
  type Calendar = (string, nat) -> bool

  predicate Matches(includes: Calendar, t: Scheduled, second: nat) {
    t.schedule.Some? && includes(NormalizedSchedule(t.schedule.value), second)
  }

  ghost predicate DueIn(includes: Calendar, t: Scheduled, after: nat, upTo: nat) {
    exists second: nat :: after < second <= upTo && Matches(includes, t, second)
  }

  /** Due is a task whose schedule holds at some second after `after` and up to `upTo`. */
  lemma DueMeans(includes: Calendar, t: Scheduled, after: nat, upTo: nat)
    ensures DueIn(includes, t, after, upTo) <==>
              && t.schedule.Some?
              && exists second: nat :: after < second <= upTo
                                       && includes(NormalizedSchedule(t.schedule.value), second)
  {
    if t.schedule.Some? {
      forall second: nat
        ensures Matches(includes, t, second) <==> includes(NormalizedSchedule(t.schedule.value), second)
      {
      }
    }
  }

  function FilterDue(includes: Calendar, tasks: seq<Scheduled>, after: nat, upTo: nat): seq<Scheduled> {
    if tasks == [] then []
    else
      var last := tasks[|tasks| - 1];
      FilterDue(includes, tasks[..|tasks| - 1], after, upTo)
      + if Count(includes, last, after, upTo) > 0 then [last] else []
  }

  /** How many seconds after `after`, and up to `upTo`, the schedule matches. */
  function Count(includes: Calendar, t: Scheduled, after: nat, upTo: nat): nat
    decreases upTo
  {
    if upTo <= after then 0 else Count(includes, t, after, upTo - 1) + if Matches(includes, t, upTo) then 1 else 0
  }

  lemma {:induction false} CountIsDue(includes: Calendar, t: Scheduled, after: nat, upTo: nat)
    ensures Count(includes, t, after, upTo) > 0 <==> DueIn(includes, t, after, upTo)
    decreases upTo
  {
    if upTo <= after {
    } else {
      CountIsDue(includes, t, after, upTo - 1);
    }
  }

  lemma {:induction false} FilterDueIs(includes: Calendar, tasks: seq<Scheduled>, after: nat, upTo: nat)
    ensures forall t :: t in FilterDue(includes, tasks, after, upTo) <==> t in tasks && DueIn(includes, t, after, upTo)
    ensures |FilterDue(includes, tasks, after, upTo)| <= |tasks|
  {
    if tasks == [] {
    } else {
      var front, last := tasks[..|tasks| - 1], tasks[|tasks| - 1];
      assert tasks == front + [last];
      FilterDueIs(includes, front, after, upTo);
      CountIsDue(includes, last, after, upTo);
    }
  }

  lemma {:induction false} CountSplits(includes: Calendar, t: Scheduled, a: nat, b: nat, c: nat)
    requires a <= b <= c
    ensures Count(includes, t, a, c) == Count(includes, t, a, b) + Count(includes, t, b, c)
    decreases c
  {
    if b == c {
    } else {
      CountSplits(includes, t, a, b, c - 1);
    }
  }

  class Scheduler {
    var lastProcessedSecond: nat

    constructor (nowMs: nat)
      ensures lastProcessedSecond == nowMs / 1000
    {
      lastProcessedSecond := nowMs / 1000;
    }

    /** The window is walked in milliseconds, up to the start of the current second. */
    method IsDue(includes: Calendar, t: Scheduled, nowSecond: nat) returns (due: bool)
      ensures due <==> DueIn(includes, t, lastProcessedSecond, nowSecond)
      ensures due <==>
                && t.schedule.Some?
                && exists second: nat :: lastProcessedSecond < second <= nowSecond
                                         && includes(NormalizedSchedule(t.schedule.value), second)
    {
      DueMeans(includes, t, lastProcessedSecond, nowSecond);
      if t.schedule.None? {
        return false;
      }
      var expression := NormalizedSchedule(t.schedule.value);
      var timestamp := (lastProcessedSecond + 1) * 1000;
      while timestamp <= nowSecond * 1000
        invariant timestamp >= (lastProcessedSecond + 1) * 1000
        invariant forall second: nat :: lastProcessedSecond < second && second * 1000 < timestamp ==>
                    !Matches(includes, t, second)
      {
        if includes(expression, timestamp / 1000) {
          assert Matches(includes, t, timestamp / 1000);
          return true;
        }
        timestamp := timestamp + 1;
      }
      return false;
    }

    /** One wake-up of the loop. */
    method Round(includes: Calendar, tasks: seq<Scheduled>, nowMs: nat) returns (due: seq<Scheduled>)
      modifies this
      ensures lastProcessedSecond == Max(old(lastProcessedSecond), nowMs / 1000)
      ensures due == FilterDue(includes, tasks, old(lastProcessedSecond), lastProcessedSecond)
      ensures forall t :: t in due <==> t in tasks && DueIn(includes, t, old(lastProcessedSecond), lastProcessedSecond)
    {
      due := [];
      FilterDueIs(includes, tasks, lastProcessedSecond, Max(lastProcessedSecond, nowMs / 1000));
      var nowSecond := nowMs / 1000;
      if nowSecond <= lastProcessedSecond {
        NothingDue(includes, tasks, lastProcessedSecond);
        return;
      }
      for i := 0 to |tasks|
        invariant due == FilterDue(includes, tasks[..i], lastProcessedSecond, nowSecond)
        invariant lastProcessedSecond == old(lastProcessedSecond)
      {
        assert tasks[..i + 1][..i] == tasks[..i];
        CountIsDue(includes, tasks[i], lastProcessedSecond, nowSecond);
        var isDue := IsDue(includes, tasks[i], nowSecond);
        if isDue {
          due := due + [tasks[i]];
        }
      }
      assert tasks[..|tasks|] == tasks;
      lastProcessedSecond := nowSecond;
    }
  }

  lemma {:induction false} NothingDue(includes: Calendar, tasks: seq<Scheduled>, second: nat)
    ensures FilterDue(includes, tasks, second, second) == []
  {
    if tasks == [] {
    } else {
      NothingDue(includes, tasks[..|tasks| - 1], second);
    }
  }

  // ---- Over any clock --------------------------------------------------------------------

  /** The last processed second after these clock readings, in milliseconds. */
  function Processed(start: nat, clock: seq<nat>): nat {
    if clock == [] then start else Max(Processed(start, clock[..|clock| - 1]), clock[|clock| - 1] / 1000)
  }

  /** In how many rounds a second lay in the window. */
  function Inspections(start: nat, clock: seq<nat>, second: nat): nat {
    if clock == [] then 0
    else
      var front := clock[..|clock| - 1];
      Inspections(start, front, second) + if Processed(start, front) < second <= Processed(start, clock) then 1 else 0
  }

  /** However the clock jumps, forwards or back, no second is ever looked at twice, and
      none between the start and the latest reading is skipped. */
  lemma {:induction false} EverySecondOnce(start: nat, clock: seq<nat>, second: nat)
    ensures Inspections(start, clock, second) == if start < second <= Processed(start, clock) then 1 else 0
    ensures Processed(start, clock) >= start
  {
    if clock == [] {
    } else {
      EverySecondOnce(start, clock[..|clock| - 1], second);
    }
  }

  /** In how many rounds the task was due. */
  function Firings(includes: Calendar, t: Scheduled, start: nat, clock: seq<nat>): nat {
    if clock == [] then 0
    else
      var front := clock[..|clock| - 1];
      Firings(includes, t, start, front)
      + if Count(includes, t, Processed(start, front), Processed(start, clock)) > 0 then 1 else 0
  }

  /** No round's window held two matching seconds. */
  ghost predicate NeverLate(includes: Calendar, t: Scheduled, start: nat, clock: seq<nat>) {
    clock != [] ==>
      var front := clock[..|clock| - 1];
      NeverLate(includes, t, start, front) && Count(includes, t, Processed(start, front), Processed(start, clock)) <= 1
  }

  /** A task fires at most once for each matching second, at least once if there is
      any, and exactly once for each if and only if no round was late enough to span
      two of them. */
  lemma {:induction false} FiresOncePerMatch(includes: Calendar, t: Scheduled, start: nat, clock: seq<nat>)
    ensures var firings := Firings(includes, t, start, clock);
            var matches := Count(includes, t, start, Processed(start, clock));
            && firings <= matches && (matches > 0 ==> firings > 0)
            && (firings == matches <==> NeverLate(includes, t, start, clock))
  {
    if clock == [] {
    } else {
      var front := clock[..|clock| - 1];
      FiresOncePerMatch(includes, t, start, front);
      EverySecondOnce(start, front, 0);
      CountSplits(includes, t, start, Processed(start, front), Processed(start, clock));
    }
  }

  /** A schedule for every second, and a scheduler that wakes two seconds late: one run
      for two times. */
  lemma LateWakeFiresOnce(t: Scheduled)
    requires t.schedule.Some?
    ensures var always: Calendar := (expression, second) => true;
            Firings(always, t, 0, [2000]) == 1 && Count(always, t, 0, Processed(0, [2000])) == 2
  {
    var always: Calendar := (expression, second) => true;
    assert [2000][..0] == [];
    assert Processed(0, [2000]) == 2;
    assert Count(always, t, 0, 1) == 1;
  }
}
