/** Deduplicating commands on the worker (src/cluster/worker.rs). */
module CommandCaches {
  import opened Prelude

  const COMMAND_CACHE_SIZE: nat := 256

  datatype Entry = Entry(id: string, response: string)

  function Find(entries: seq<Entry>, id: string): (r: Option<string>)
    ensures r.Some? ==> Entry(id, r.value) in entries
    ensures r.None? <==> forall e :: e in entries ==> e.id != id
  {
    if entries == [] then None
    else if entries[0].id == id then Some(entries[0].response)
    else Find(entries[1..], id)
  }

  function Inserted(entries: seq<Entry>, e: Entry, capacity: nat): seq<Entry> {
    Tail(entries + [e], capacity)
  }

  class CommandResultCache {
    const capacity: nat
    var entries: seq<Entry>

    constructor (capacity: nat)
      ensures this.capacity == capacity && entries == []
    {
      this.capacity, entries := capacity, [];
    }

    method Get(id: string) returns (r: Option<string>)
      ensures r == Find(entries, id)
    {
      r := None;
      for i := 0 to |entries|
        invariant Find(entries[i..], id) == Find(entries, id)
      {
        if entries[i].id == id {
          return Some(entries[i].response);
        }
        assert entries[i..][1..] == entries[i + 1..];
      }
    }

    method Insert(id: string, response: string)
      modifies this
      ensures |old(entries)| <= capacity ==> entries == Inserted(old(entries), Entry(id, response), capacity)
    {
      entries := entries + [Entry(id, response)];
      while |entries| > capacity
        invariant |old(entries)| <= capacity ==>
                    entries == old(entries) + [Entry(id, response)]
                    || entries == Inserted(old(entries), Entry(id, response), capacity)
      {
        entries := entries[1..];
      }
    }
  }

  // ---- Handling commands ------------------------------------------------------------------

  /** The cache, and for the statements every execution there ever was. */
  datatype Worker = Worker(entries: seq<Entry>, executed: seq<Entry>)

  /** A command, with the response that executing it now would give. */
  datatype Command = Command(id: string, outcome: string)

  function Handled(w: Worker, c: Command): Worker {
    if Find(w.entries, c.id).Some? then w
    else
      var e := Entry(c.id, c.outcome);
      Worker(Inserted(w.entries, e, COMMAND_CACHE_SIZE), w.executed + [e])
  }

  function Answer(w: Worker, c: Command): string {
    var cached := Find(w.entries, c.id);
    if cached.Some? then cached.value else c.outcome
  }

  function HandledAll(w: Worker, commands: seq<Command>): Worker {
    if commands == [] then w
    else Handled(HandledAll(w, commands[..|commands| - 1]), commands[|commands| - 1])
  }

  ghost predicate DistinctIds(entries: seq<Entry>) {
    forall i, j :: 0 <= i < j < |entries| ==> entries[i].id != entries[j].id
  }

  /** The cache is the last 256 executions, and their ids are distinct. */
  ghost predicate Inv(w: Worker) {
    w.entries == Tail(w.executed, COMMAND_CACHE_SIZE) && DistinctIds(w.entries)
  }

  lemma HandlingKeepsInv(w: Worker, c: Command)
    requires Inv(w)
    ensures Inv(Handled(w, c))
  {
    if Find(w.entries, c.id).None? {
      var grown := w.entries + [Entry(c.id, c.outcome)];
      assert DistinctIds(grown);
      assert Handled(w, c).entries == Tail(grown, COMMAND_CACHE_SIZE);
      assert Tail(grown, COMMAND_CACHE_SIZE) == Tail(Handled(w, c).executed, COMMAND_CACHE_SIZE);
    }
  }

  lemma {:induction false} CacheIsLastExecutions(commands: seq<Command>)
    ensures Inv(HandledAll(Worker([], []), commands))
  {
    if commands == [] {
    } else {
      CacheIsLastExecutions(commands[..|commands| - 1]);
      HandlingKeepsInv(HandledAll(Worker([], []), commands[..|commands| - 1]), commands[|commands| - 1]);
    }
  }

  lemma {:induction false} FindAt(entries: seq<Entry>, i: nat)
    requires DistinctIds(entries) && i < |entries|
    ensures Find(entries, entries[i].id) == Some(entries[i].response)
  {
    if i == 0 {
    } else {
      FindAt(entries[1..], i - 1);
    }
  }

  lemma RecentIsFound(w: Worker, k: nat)
    requires Inv(w) && k < |w.executed| && |w.executed| - 1 - k < COMMAND_CACHE_SIZE
    ensures Find(w.entries, w.executed[k].id) == Some(w.executed[k].response)
  {
    var from := |w.executed| - |w.entries|;
    assert w.entries[k - from] == w.executed[k];
    FindAt(w.entries, k - from);
  }

  lemma OldIsForgotten(w: Worker, k: nat, id: string)
    requires Inv(w) && k < |w.executed| && |w.executed| - 1 - k >= COMMAND_CACHE_SIZE
    requires forall j :: k < j < |w.executed| ==> w.executed[j].id != id
    ensures Find(w.entries, id).None?
  {
    var from := |w.executed| - |w.entries|;
    forall e | e in w.entries ensures e.id != id {
      var j :| 0 <= j < |w.entries| && w.entries[j] == e;
      assert w.executed[from + j] == e;
    }
  }

  /** A command is answered from execution `k` and not executed again if and only if
      `k` is its last execution and fewer than 256 executions came after it. */
  lemma AnsweredFromExecution(w: Worker, k: nat, c: Command)
    requires Inv(w) && k < |w.executed| && w.executed[k].id == c.id
    requires forall j :: k < j < |w.executed| ==> w.executed[j].id != c.id
    ensures Handled(w, c) == w <==> |w.executed| - 1 - k < 256
    ensures Handled(w, c) == w ==> Answer(w, c) == w.executed[k].response
  {
    if |w.executed| - 1 - k < COMMAND_CACHE_SIZE {
      RecentIsFound(w, k);
    } else {
      OldIsForgotten(w, k, c.id);
      assert |Handled(w, c).executed| == |w.executed| + 1;
    }
  }

  function OtherIds(commands: seq<Command>, id: string): set<string> {
    set c | c in commands && c.id != id :: c.id
  }

  /** Since execution `k`, ids were executed once each, and only ids of `others`. */
  ghost predicate RecentOnce(w: Worker, k: nat, others: set<string>) {
    && k < |w.executed| && w.executed[k].id !in others
    && (forall i :: k < i < |w.executed| ==> w.executed[i].id in others)
    && (forall i, j :: k < i < j < |w.executed| ==> w.executed[i].id != w.executed[j].id)
  }

  lemma RecentIsShort(w: Worker, k: nat, others: set<string>)
    requires RecentOnce(w, k, others)
    ensures |w.executed| - 1 - k <= |others|
  {
    DistinctCount(w.executed[k + 1..], others);
  }

  lemma RecentIsCached(w: Worker, k: nat, others: set<string>, id: string)
    requires Inv(w) && RecentOnce(w, k, others) && |others| < COMMAND_CACHE_SIZE
    requires Find(w.entries, id).None?
    ensures forall i :: k <= i < |w.executed| ==> w.executed[i].id != id
  {
    RecentIsShort(w, k, others);
    var from := Max(0, |w.executed| - COMMAND_CACHE_SIZE);
    forall i | k <= i < |w.executed| ensures w.executed[i].id != id {
      assert w.entries[i - from] == w.executed[i];
    }
  }

  lemma HandlingKeepsRecent(w: Worker, k: nat, others: set<string>, c: Command)
    requires Inv(w) && RecentOnce(w, k, others) && |others| < COMMAND_CACHE_SIZE
    requires c.id in others || c.id == w.executed[k].id
    ensures w.executed <= Handled(w, c).executed && RecentOnce(Handled(w, c), k, others)
  {
    if Find(w.entries, c.id).None? {
      RecentIsCached(w, k, others, c.id);
    }
  }

  lemma {:induction false} FewOthersFewExecutions(w: Worker, k: nat, between: seq<Command>, others: set<string>)
    requires Inv(w) && RecentOnce(w, k, others) && |others| < COMMAND_CACHE_SIZE
    requires forall c :: c in between ==> c.id in others || c.id == w.executed[k].id
    ensures var after := HandledAll(w, between);
            Inv(after) && w.executed <= after.executed && RecentOnce(after, k, others)
  {
    if between == [] {
    } else {
      var front, c := between[..|between| - 1], between[|between| - 1];
      assert between == front + [c];
      FewOthersFewExecutions(w, k, front, others);
      var before := HandledAll(w, front);
      HandlingKeepsInv(before, c);
      HandlingKeepsRecent(before, k, others, c);
    }
  }

  lemma {:induction false} DistinctCount(entries: seq<Entry>, ids: set<string>)
    requires DistinctIds(entries) && forall i :: 0 <= i < |entries| ==> entries[i].id in ids
    ensures |entries| <= |ids|
  {
    if entries == [] {
    } else {
      var last := entries[|entries| - 1];
      DistinctCount(entries[..|entries| - 1], ids - {last.id});
    }
  }

  /** A repeated command with fewer than 256 other ids in between is not executed
      again and gets the first response, whatever it would answer now. */
  lemma RepeatIsNotExecuted(w: Worker, first: Command, between: seq<Command>, again: Command)
    requires Inv(w) && Find(w.entries, first.id).None? && again.id == first.id
    requires |OtherIds(between, first.id)| < 256
    ensures var after := HandledAll(Handled(w, first), between);
            Handled(after, again) == after && Answer(after, again) == first.outcome
  {
    var start := Handled(w, first);
    HandlingKeepsInv(w, first);
    var k, others := |start.executed| - 1, OtherIds(between, first.id);
    FewOthersFewExecutions(start, k, between, others);
    var after := HandledAll(start, between);
    assert after.executed[k] == start.executed[k];
    RecentIsShort(after, k, others);
    AnsweredFromExecution(after, k, again);
  }
}
