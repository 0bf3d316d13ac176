/** Walks over the parent relation (src/daemon/process_tree.rs, src/runtime/process.rs). */
module ProcessTrees {
  import opened Prelude

  datatype Process = Process(
    pid: nat, ppid: Option<nat>, name: string, cpu: real, memory: nat, status: string, runTimeSeconds: nat)

  /** CPU shares are floating-point numbers in the program and exact here. */
  datatype Totals = Totals(cpu: real, memory: nat, count: nat)

  const ZERO_TOTALS := Totals(0.0, 0, 0)

  datatype Aggregate = Aggregate(totals: Totals, rows: seq<Process>)

  ghost predicate DistinctPids(processes: seq<Process>) {
    forall i, j :: 0 <= i < j < |processes| ==> processes[i].pid != processes[j].pid
  }

  function Find(processes: seq<Process>, pid: nat): (found: Option<Process>)
    ensures found.Some? ==> found.value in processes && found.value.pid == pid
    ensures found.None? ==> forall p :: p in processes ==> p.pid != pid
  {
    if processes == [] then None
    else if processes[|processes| - 1].pid == pid then Some(processes[|processes| - 1])
    else Find(processes[..|processes| - 1], pid)
  }

  lemma {:induction false} FindsEach(processes: seq<Process>, p: Process)
    requires DistinctPids(processes) && p in processes
    ensures Find(processes, p.pid) == Some(p)
  {
    var i :| 0 <= i < |processes| && processes[i] == p;
    if i == |processes| - 1 {
    } else {
      FindsEach(processes[..|processes| - 1], p);
    }
  }

  function Parent(processes: seq<Process>, pid: nat): Option<nat> {
    var found := Find(processes, pid);
    if found.Some? then found.value.ppid else None
  }

  /** The `k`-th ancestor of `pid`. */
  ghost function Up(processes: seq<Process>, pid: nat, k: nat): Option<nat>
    decreases k
  {
    if k == 0 then Some(pid)
    else if Parent(processes, pid).None? then None
    else Up(processes, Parent(processes, pid).value, k - 1)
  }

  ghost predicate Descends(processes: seq<Process>, root: nat, pid: nat) {
    exists k: nat :: Up(processes, pid, k) == Some(root)
  }

  ghost predicate OwnAncestor(processes: seq<Process>, pid: nat) {
    exists k: nat :: k > 0 && Up(processes, pid, k) == Some(pid)
  }

  lemma {:induction false} UpTwice(processes: seq<Process>, pid: nat, j: nat, k: nat)
    requires Up(processes, pid, j).Some?
    ensures Up(processes, pid, j + k) == Up(processes, Up(processes, pid, j).value, k)
    decreases j
  {
    if j == 0 {
    } else {
      UpTwice(processes, Parent(processes, pid).value, j - 1, k);
    }
  }

  lemma ChildDescends(processes: seq<Process>, root: nat, pid: nat)
    requires Parent(processes, pid).Some? && Descends(processes, root, Parent(processes, pid).value)
    ensures Descends(processes, root, pid)
    ensures pid == root ==> OwnAncestor(processes, root)
  {
    var k: nat :| Up(processes, Parent(processes, pid).value, k) == Some(root);
    assert Up(processes, pid, k + 1) == Some(root);
  }

  lemma {:induction false} GoRound(processes: seq<Process>, pid: nat, period: nat, times: nat) returns (total: nat)
    requires period > 0 && Up(processes, pid, period) == Some(pid)
    ensures total >= times && Up(processes, pid, total) == Some(pid)
  {
    if times == 0 {
      total := 0;
    } else {
      total := GoRound(processes, pid, period, times - 1);
      UpTwice(processes, pid, total, period);
      total := total + period;
    }
  }

  /** Any cycle reachable from the root passes through the root. */
  lemma CycleBelowRootMeetsRoot(processes: seq<Process>, root: nat, pid: nat)
    requires Descends(processes, root, pid) && OwnAncestor(processes, pid)
    ensures OwnAncestor(processes, root) && Descends(processes, pid, root)
  {
    var up: nat :| Up(processes, pid, up) == Some(root);
    var period: nat :| period > 0 && Up(processes, pid, period) == Some(pid);
    var total := GoRound(processes, pid, period, up + 1);
    UpTwice(processes, pid, up, total - up);
    assert Up(processes, root, total - up) == Some(pid);
    UpTwice(processes, root, total - up, up);
  }

  // ---- The metrics walk: a stack and no visited set --------------------------

  function Children(processes: seq<Process>, pid: nat): seq<nat> {
    if processes == [] then []
    else
      var last := processes[|processes| - 1];
      Children(processes[..|processes| - 1], pid) + if last.ppid == Some(pid) then [last.pid] else []
  }

  lemma {:induction false} ChildrenAre(processes: seq<Process>, pid: nat)
    ensures forall c :: c in Children(processes, pid) <==>
              exists p :: p in processes && p.pid == c && p.ppid == Some(pid)
  {
    if processes == [] {
    } else {
      var front, last := processes[..|processes| - 1], processes[|processes| - 1];
      assert processes == front + [last];
      ChildrenAre(front, pid);
    }
  }

  lemma {:induction false} ChildrenDistinct(processes: seq<Process>, pid: nat)
    requires DistinctPids(processes)
    ensures Distinct(Children(processes, pid))
  {
    if processes == [] {
    } else {
      var front := processes[..|processes| - 1];
      ChildrenDistinct(front, pid);
      ChildrenAre(front, pid);
      assert processes[|processes| - 1].pid !in Children(front, pid);
    }
  }

  function Reversed(s: seq<nat>): (r: seq<nat>)
    ensures |r| == |s|
    ensures forall i :: 0 <= i < |s| ==> r[i] == s[|s| - 1 - i]
    ensures forall x :: x in r <==> x in s
  {
    var r := seq(|s|, i requires 0 <= i < |s| => s[|s| - 1 - i]);
    assert forall i :: 0 <= i < |s| ==> s[i] == r[|s| - 1 - i];
    r
  }

  /** One turn of the walk: what is left on the stack. */
  function Turn(processes: seq<Process>, stack: seq<nat>): seq<nat>
    requires stack != []
  {
    var pid := stack[|stack| - 1];
    stack[..|stack| - 1] + if Find(processes, pid).None? then [] else Reversed(Children(processes, pid))
  }

  ghost function StackAfter(processes: seq<Process>, stack: seq<nat>, turns: nat): seq<nat>
    decreases turns
  {
    if turns == 0 || stack == [] then stack else StackAfter(processes, Turn(processes, stack), turns - 1)
  }

  ghost predicate Placed(processes: seq<Process>, root: nat, seen: set<nat>, x: nat) {
    && Find(processes, x).Some? && Descends(processes, root, x)
    && (x == root || (Parent(processes, x).Some? && Parent(processes, x).value in seen))
  }

  /** Pids that were popped (`seen`) or are waiting descend from the root, and each
      but the root waits for, or follows, the one visit to its parent. */
  ghost predicate WalkOk(processes: seq<Process>, root: nat, seen: set<nat>, stack: seq<nat>) {
    && Distinct(stack)
    && (forall x :: x in stack ==> x !in seen)
    && (forall x :: x in seen || x in stack ==> Placed(processes, root, seen, x))
    && (forall p :: p in processes && p.ppid.Some? && p.ppid.value in seen ==> p.pid in seen || p.pid in stack)
    && (root in seen || root in stack)
  }

  /** The reason no visited set is needed: a child can be met only once, because
      it has one parent and its parent is visited once. */
  lemma ChildIsNew(processes: seq<Process>, root: nat, seen: set<nat>, stack: seq<nat>, c: nat)
    requires DistinctPids(processes) && !OwnAncestor(processes, root)
    requires WalkOk(processes, root, seen, stack) && stack != []
    requires c in Children(processes, stack[|stack| - 1])
    ensures Find(processes, c).Some? && Parent(processes, c) == Some(stack[|stack| - 1])
    ensures c != root && c !in seen && c !in stack && Descends(processes, root, c)
  {
    var pid := stack[|stack| - 1];
    ChildrenAre(processes, pid);
    var p :| p in processes && p.pid == c && p.ppid == Some(pid);
    FindsEach(processes, p);
    ChildDescends(processes, root, c);
  }

  lemma TurnStaysDistinct(processes: seq<Process>, root: nat, seen: set<nat>, stack: seq<nat>)
    requires DistinctPids(processes) && !OwnAncestor(processes, root)
    requires WalkOk(processes, root, seen, stack) && stack != []
    ensures Distinct(Turn(processes, stack))
    ensures forall x :: x in Turn(processes, stack) ==> x !in seen && x != stack[|stack| - 1]
  {
    var pid, rest := stack[|stack| - 1], stack[..|stack| - 1];
    var children := Children(processes, pid);
    assert Placed(processes, root, seen, pid);
    assert stack == rest + [pid] && Turn(processes, stack) == rest + Reversed(children);
    forall c | c in children ensures c !in seen && c !in stack {
      ChildIsNew(processes, root, seen, stack, c);
    }
    ChildrenDistinct(processes, pid);
    DistinctJoin(rest, Reversed(children));
  }

  lemma TurnStaysClosed(processes: seq<Process>, root: nat, seen: set<nat>, stack: seq<nat>, p: Process)
    requires WalkOk(processes, root, seen, stack) && stack != []
    requires p in processes && p.ppid.Some? && p.ppid.value in seen + {stack[|stack| - 1]}
    ensures p.pid in seen + {stack[|stack| - 1]} || p.pid in Turn(processes, stack)
  {
    var pid, rest := stack[|stack| - 1], stack[..|stack| - 1];
    assert stack == rest + [pid] && Placed(processes, root, seen, pid);
    if p.ppid.value == pid {
      ChildListed(processes, p, pid);
    }
  }

  lemma TurnKeepsWalkOk(processes: seq<Process>, root: nat, seen: set<nat>, stack: seq<nat>)
    requires DistinctPids(processes) && !OwnAncestor(processes, root)
    requires WalkOk(processes, root, seen, stack) && stack != []
    ensures WalkOk(processes, root, seen + {stack[|stack| - 1]}, Turn(processes, stack))
  {
    var pid, after := stack[|stack| - 1], Turn(processes, stack);
    TurnStaysDistinct(processes, root, seen, stack);
    forall x | x in seen + {pid} || x in after ensures Placed(processes, root, seen + {pid}, x) {
      TurnStaysPlaced(processes, root, seen, stack, x);
    }
    forall p | p in processes && p.ppid.Some? && p.ppid.value in seen + {pid}
      ensures p.pid in seen + {pid} || p.pid in after
    {
      TurnStaysClosed(processes, root, seen, stack, p);
    }
    assert root in seen + {pid} || root in after by {
      assert stack == stack[..|stack| - 1] + [pid];
    }
  }

  lemma PlacedGrows(processes: seq<Process>, root: nat, seen: set<nat>, x: nat, pid: nat)
    requires Placed(processes, root, seen, x)
    ensures Placed(processes, root, seen + {pid}, x)
  {
  }

  lemma PushedIsPlaced(processes: seq<Process>, root: nat, seen: set<nat>, stack: seq<nat>, c: nat)
    requires DistinctPids(processes) && !OwnAncestor(processes, root)
    requires WalkOk(processes, root, seen, stack) && stack != []
    requires c in Children(processes, stack[|stack| - 1])
    ensures Placed(processes, root, seen + {stack[|stack| - 1]}, c)
  {
    ChildIsNew(processes, root, seen, stack, c);
  }

  lemma TurnStaysPlaced(processes: seq<Process>, root: nat, seen: set<nat>, stack: seq<nat>, x: nat)
    requires DistinctPids(processes) && !OwnAncestor(processes, root)
    requires WalkOk(processes, root, seen, stack) && stack != []
    requires x in seen + {stack[|stack| - 1]} || x in Turn(processes, stack)
    ensures Placed(processes, root, seen + {stack[|stack| - 1]}, x)
  {
    var pid := stack[|stack| - 1];
    assert stack == stack[..|stack| - 1] + [pid];
    if x in seen || x in stack {
      PlacedGrows(processes, root, seen, x, pid);
    } else {
      PushedIsPlaced(processes, root, seen, stack, x);
    }
  }

  lemma ChildListed(processes: seq<Process>, p: Process, pid: nat)
    requires p in processes && p.ppid == Some(pid)
    ensures p.pid in Children(processes, pid)
  {
    ChildrenAre(processes, pid);
  }

  lemma DistinctJoin(a: seq<nat>, b: seq<nat>)
    requires Distinct(a) && Distinct(b) && forall x :: x in b ==> x !in a
    ensures Distinct(a + b)
  {
    forall i, j | 0 <= i < j < |a + b| ensures (a + b)[i] != (a + b)[j] {
      if j < |a| {
        assert a[i] != a[j];
      } else if i < |a| {
        assert b[j - |a|] in b && a[i] in a;
      } else {
        assert b[i - |a|] != b[j - |a|];
      }
    }
  }

  ghost function Pids(processes: seq<Process>): set<nat> {
    set p | p in processes :: p.pid
  }

  lemma SeenArePids(processes: seq<Process>, root: nat, seen: set<nat>, stack: seq<nat>)
    requires WalkOk(processes, root, seen, stack)
    ensures seen <= Pids(processes)
    ensures stack != [] ==>
              stack[|stack| - 1] in Pids(processes) - seen && Find(processes, stack[|stack| - 1]).Some?
  {
    forall x | x in seen || x in stack ensures x in Pids(processes) && Find(processes, x).Some? {
      assert Placed(processes, root, seen, x);
      assert Find(processes, x).value in processes;
    }
  }

  /** When the stack is empty, what was seen is the root and all below it. */
  lemma {:induction false} SeenIsClosed(processes: seq<Process>, root: nat, seen: set<nat>, pid: nat, k: nat)
    requires WalkOk(processes, root, seen, []) && DistinctPids(processes)
    requires Find(processes, pid).Some? && Up(processes, pid, k) == Some(root)
    ensures pid in seen
    decreases k
  {
    if k == 0 {
    } else {
      SeenIsClosed(processes, root, seen, Parent(processes, pid).value, k - 1);
    }
  }

  // ---- The walk ends exactly when the root is not its own ancestor -----------

  lemma {:induction false} WalkEnds(processes: seq<Process>, root: nat, seen: set<nat>, stack: seq<nat>)
    returns (turns: nat)
    requires DistinctPids(processes) && !OwnAncestor(processes, root)
    requires WalkOk(processes, root, seen, stack)
    ensures StackAfter(processes, stack, turns) == []
    decreases Pids(processes) - seen
  {
    turns := 0;
    if stack == [] {
    } else {
      SeenArePids(processes, root, seen, stack);
      TurnKeepsWalkOk(processes, root, seen, stack);
      turns := WalkEnds(processes, root, seen + {stack[|stack| - 1]}, Turn(processes, stack));
      turns := turns + 1;
    }
  }

  /** `x` is a process on a cycle with the root. */
  ghost predicate OnCycle(processes: seq<Process>, root: nat, x: nat) {
    Find(processes, x).Some? && Descends(processes, x, root) && Descends(processes, root, x)
  }

  ghost predicate MeetsCycle(processes: seq<Process>, root: nat, stack: seq<nat>) {
    exists x {:trigger OnCycle(processes, root, x)} :: x in stack && OnCycle(processes, root, x)
  }

  lemma CycleStaysOnStack(processes: seq<Process>, root: nat, stack: seq<nat>)
    requires DistinctPids(processes) && OwnAncestor(processes, root)
    requires Find(processes, root).Some? && MeetsCycle(processes, root, stack)
    ensures stack != [] && MeetsCycle(processes, root, Turn(processes, stack))
  {
    var x :| x in stack && OnCycle(processes, root, x);
    var rest, pid := stack[..|stack| - 1], stack[|stack| - 1];
    assert stack == rest + [pid];
    if x !in rest {
      // The next process down the path from `x` to the root, or round the cycle from it.
      var k := PathDown(processes, x, root);
      NextOnPath(processes, x, root, k);
      var c :| Find(processes, c).Some? && Parent(processes, c) == Some(x)
            && Descends(processes, c, root);
      var p := Find(processes, c).value;
      ChildDescends(processes, root, c);
      ChildrenAre(processes, x);
      assert c in Children(processes, x);
      assert c in Turn(processes, stack) && OnCycle(processes, root, c);
    }
  }

  lemma PathDown(processes: seq<Process>, x: nat, root: nat) returns (k: nat)
    requires Descends(processes, x, root) && OwnAncestor(processes, root)
    requires Descends(processes, root, x)
    ensures k > 0 && Up(processes, root, k) == Some(x)
  {
    k :| Up(processes, root, k) == Some(x);
    if k == 0 {
      k :| k > 0 && Up(processes, root, k) == Some(root);
    }
  }

  lemma NextOnPath(processes: seq<Process>, x: nat, root: nat, k: nat)
    requires k > 0 && Up(processes, root, k) == Some(x) && Find(processes, root).Some?
    ensures exists c :: Find(processes, c).Some? && Parent(processes, c) == Some(x) && Descends(processes, c, root)
  {
    UpPrefix(processes, root, k - 1, k);
    var c := Up(processes, root, k - 1).value;
    UpTwice(processes, root, k - 1, 1);
    assert Up(processes, c, 1) == Some(x);
    assert Parent(processes, c) == Some(x);
  }

  lemma {:induction false} UpPrefix(processes: seq<Process>, pid: nat, j: nat, k: nat)
    requires j <= k && Up(processes, pid, k).Some?
    ensures Up(processes, pid, j).Some?
    decreases j
  {
    if j == 0 {
    } else {
      UpPrefix(processes, Parent(processes, pid).value, j - 1, k - 1);
    }
  }

  lemma {:induction false} NeverEnds(processes: seq<Process>, inv: seq<nat> -> bool, stack: seq<nat>, turns: nat)
    requires forall s :: inv(s) ==> s != [] && inv(Turn(processes, s))
    requires inv(stack)
    ensures StackAfter(processes, stack, turns) != []
    decreases turns
  {
    if turns == 0 {
    } else {
      NeverEnds(processes, inv, Turn(processes, stack), turns - 1);
    }
  }

  /** The walk from an observed root ends if and only if the root is not its own ancestor. */
  lemma WalkEndsExactly(processes: seq<Process>, root: nat)
    requires DistinctPids(processes) && Find(processes, root).Some?
    ensures (exists turns: nat :: StackAfter(processes, [root], turns) == []) <==> !OwnAncestor(processes, root)
  {
    assert Up(processes, root, 0) == Some(root);
    if OwnAncestor(processes, root) {
      assert MeetsCycle(processes, root, [root]) by {
        assert root in [root] && OnCycle(processes, root, root);
      }
      var inv := s => MeetsCycle(processes, root, s);
      forall s | inv(s) ensures s != [] && inv(Turn(processes, s)) {
        CycleStaysOnStack(processes, root, s);
      }
      forall turns: nat ensures StackAfter(processes, [root], turns) != [] {
        NeverEnds(processes, inv, [root], turns);
      }
    } else {
      var turns := WalkEnds(processes, root, {}, [root]);
    }
  }

  /** Two processes, each listed as the other's parent, as when a pid is used again:
      the walk goes from one to the other for ever. */
  lemma ParentCycleNeverEnds(a: nat, b: nat, name: string, turns: nat)
    requires a != b
    ensures var processes := [Process(a, Some(b), name, 0.0, 0, "", 0), Process(b, Some(a), name, 0.0, 0, "", 0)];
            StackAfter(processes, [a], turns) != []
  {
    var processes := [Process(a, Some(b), name, 0.0, 0, "", 0), Process(b, Some(a), name, 0.0, 0, "", 0)];
    assert processes[..1] == [processes[0]];
    assert Find(processes, b) == Some(processes[1]);
    assert Find([processes[0]], a) == Some(processes[0]);
    assert Find(processes, a) == Some(processes[0]);
    assert Up(processes, b, 1) == Some(a);
    assert Up(processes, a, 2) == Some(a);
    WalkEndsExactly(processes, a);
  }

  // ---- What the walk computes ------------------------------------------------

  function Plus(totals: Totals, p: Process): Totals {
    Totals(totals.cpu + p.cpu, totals.memory + p.memory, totals.count + 1)
  }

  function TotalsOf(processes: seq<Process>, pids: set<nat>): Totals {
    if processes == [] then ZERO_TOTALS
    else
      var last := processes[|processes| - 1];
      var front := TotalsOf(processes[..|processes| - 1], pids);
      if last.pid in pids then Plus(front, last) else front
  }

  lemma {:induction false} TotalsOfNone(processes: seq<Process>)
    ensures TotalsOf(processes, {}) == ZERO_TOTALS
  {
    if processes == [] {
    } else {
      TotalsOfNone(processes[..|processes| - 1]);
    }
  }

  lemma {:induction false} TotalsOfAbsent(processes: seq<Process>, pids: set<nat>, pid: nat)
    requires forall p :: p in processes ==> p.pid != pid
    ensures TotalsOf(processes, pids + {pid}) == TotalsOf(processes, pids)
  {
    if processes == [] {
    } else {
      TotalsOfAbsent(processes[..|processes| - 1], pids, pid);
    }
  }

  lemma {:induction false} TotalsOfOneMore(processes: seq<Process>, pids: set<nat>, p: Process)
    requires DistinctPids(processes) && p in processes && p.pid !in pids
    ensures TotalsOf(processes, pids + {p.pid}) == Plus(TotalsOf(processes, pids), p)
  {
    var front, last := processes[..|processes| - 1], processes[|processes| - 1];
    if last == p {
      TotalsOfAbsent(front, pids, p.pid);
    } else {
      assert p in front;
      TotalsOfOneMore(front, pids, p);
    }
  }

  /** What a list of rows adds up to. */
  function MemorySum(rows: seq<Process>): nat {
    if rows == [] then 0 else rows[0].memory + MemorySum(rows[1..])
  }

  function CpuSum(rows: seq<Process>): real {
    if rows == [] then 0.0 else rows[0].cpu + CpuSum(rows[1..])
  }

  ghost predicate SumsTo(rows: seq<Process>, totals: Totals) {
    totals.memory == MemorySum(rows) && totals.cpu == CpuSum(rows) && totals.count == |rows|
  }

  lemma {:induction false} SumsOneMore(rows: seq<Process>, p: Process)
    ensures MemorySum(rows + [p]) == MemorySum(rows) + p.memory && CpuSum(rows + [p]) == CpuSum(rows) + p.cpu
  {
    if rows == [] {
      assert [p][1..] == [];
    } else {
      assert (rows + [p])[1..] == rows[1..] + [p];
      SumsOneMore(rows[1..], p);
    }
  }

  /** Display order: the root first, then ascending pids. */
  predicate RowBefore(root: nat, a: Process, b: Process) {
    if a.pid == root then b.pid != root else b.pid != root && a.pid < b.pid
  }

  ghost predicate RowsSorted(root: nat, rows: seq<Process>) {
    forall i, j :: 0 <= i < j < |rows| ==> RowBefore(root, rows[i], rows[j])
  }

  function InsertRow(root: nat, rows: seq<Process>, p: Process): seq<Process> {
    if rows == [] || RowBefore(root, p, rows[0]) then [p] + rows
    else [rows[0]] + InsertRow(root, rows[1..], p)
  }

  function SortRows(root: nat, rows: seq<Process>): seq<Process> {
    if rows == [] then [] else InsertRow(root, SortRows(root, rows[1..]), rows[0])
  }

  lemma {:induction false} InsertRowSorted(root: nat, rows: seq<Process>, p: Process)
    requires RowsSorted(root, rows)
    requires forall q :: q in rows ==> q.pid != p.pid
    ensures var r := InsertRow(root, rows, p);
            RowsSorted(root, r) && |r| == |rows| + 1 && forall q :: q in r <==> q == p || q in rows
  {
    if rows == [] {
    } else {
      var first, rest := rows[0], rows[1..];
      assert rows == [first] + rest;
      if RowBefore(root, p, first) {
        forall q | q in rest ensures RowBefore(root, p, q) {
          assert RowBefore(root, first, q);
        }
      } else {
        InsertRowSorted(root, rest, p);
        var inserted := InsertRow(root, rest, p);
        forall i | 0 <= i < |inserted| ensures RowBefore(root, first, inserted[i]) {
          assert inserted[i] in inserted;
        }
      }
    }
  }

  lemma {:induction false} SortRowsSorted(root: nat, rows: seq<Process>)
    requires DistinctPids(rows)
    ensures var r := SortRows(root, rows);
            RowsSorted(root, r) && |r| == |rows| && forall q :: q in r <==> q in rows
  {
    if rows == [] {
    } else {
      var first, rest := rows[0], rows[1..];
      assert rows == [first] + rest;
      SortRowsSorted(root, rest);
      InsertRowSorted(root, SortRows(root, rest), first);
    }
  }

  lemma {:induction false} InsertRowSums(root: nat, rows: seq<Process>, p: Process)
    ensures var r := InsertRow(root, rows, p);
            && |r| == |rows| + 1
            && MemorySum(r) == MemorySum(rows) + p.memory && CpuSum(r) == CpuSum(rows) + p.cpu
  {
    if rows == [] {
      assert [p][1..] == [];
    } else if RowBefore(root, p, rows[0]) {
      assert ([p] + rows)[1..] == rows;
    } else {
      InsertRowSums(root, rows[1..], p);
      assert InsertRow(root, rows, p)[1..] == InsertRow(root, rows[1..], p);
    }
  }

  /** Rows add up to the same in any order that sorting gives them. */
  lemma {:induction false} SortRowsSums(root: nat, rows: seq<Process>, totals: Totals)
    requires SumsTo(rows, totals)
    ensures SumsTo(SortRows(root, rows), totals)
  {
    if rows == [] {
    } else {
      var rest := rows[1..];
      SortRowsSums(root, rest, Totals(CpuSum(rest), MemorySum(rest), |rest|));
      InsertRowSums(root, SortRows(root, rest), rows[0]);
    }
  }

  lemma SortedRootFirst(root: nat, rows: seq<Process>, p: Process)
    requires RowsSorted(root, rows) && p in rows && p.pid == root
    ensures rows[0] == p && forall i, j :: 0 < i < j < |rows| ==> rows[i].pid < rows[j].pid
  {
    var k :| 0 <= k < |rows| && rows[k] == p;
    assert forall i :: 0 < i < |rows| ==> RowBefore(root, rows[0], rows[i]);
    forall i, j | 0 < i < j < |rows| ensures rows[i].pid < rows[j].pid {
      assert RowBefore(root, rows[i], rows[j]);
    }
  }

  ghost function TreePids(processes: seq<Process>, root: nat): set<nat> {
    set pid | pid in Pids(processes) && Descends(processes, root, pid)
  }

  ghost predicate RowsOf(processes: seq<Process>, rows: seq<Process>, pids: set<nat>) {
    && DistinctPids(rows) && |rows| == |pids|
    && (forall p :: p in rows <==> p in processes && p.pid in pids)
  }

  ghost predicate Collected(processes: seq<Process>, root: nat, seen: set<nat>, stack: seq<nat>,
                            totals: Totals, rows: seq<Process>)
  {
    && WalkOk(processes, root, seen, stack)
    && totals == TotalsOf(processes, seen) && totals.count == |seen|
    && RowsOf(processes, rows, seen)
  }

  lemma CollectOneMore(processes: seq<Process>, root: nat, seen: set<nat>, stack: seq<nat>,
                       totals: Totals, rows: seq<Process>)
    requires DistinctPids(processes) && !OwnAncestor(processes, root)
    requires stack != [] && Collected(processes, root, seen, stack, totals, rows)
    ensures var pid := stack[|stack| - 1];
            && pid in Pids(processes) - seen && Find(processes, pid).Some?
            && var p := Find(processes, pid).value;
               Collected(processes, root, seen + {pid}, stack[..|stack| - 1] + Reversed(Children(processes, pid)),
                         Plus(totals, p), rows + [p])
  {
    SeenArePids(processes, root, seen, stack);
    var p := Find(processes, stack[|stack| - 1]).value;
    TurnKeepsWalkOk(processes, root, seen, stack);
    RowsOneMore(processes, rows, seen, p);
    TotalsOfOneMore(processes, seen, p);
  }

  method AggregateProcessTree(root: nat, processes: seq<Process>) returns (r: Option<Aggregate>)
    requires DistinctPids(processes) && !OwnAncestor(processes, root)
    ensures r.None? <==> root !in Pids(processes)
    ensures r.Some? ==>
              var pids := TreePids(processes, root);
              && r.value.totals == TotalsOf(processes, pids)
              && r.value.totals.count == |pids| == |r.value.rows|
              && (forall p :: p in r.value.rows <==> p in processes && p.pid in pids)
              && RowsSorted(root, r.value.rows)
    ensures r.Some? ==> SumsTo(r.value.rows, r.value.totals)
    ensures r.Some? ==>
              var rows := r.value.rows;
              && rows != [] && rows[0].pid == root
              && forall i, j :: 0 < i < j < |rows| ==> rows[i].pid < rows[j].pid
  {
    if Find(processes, root).None? {
      return None;
    }
    TotalsOfNone(processes);
    var stack := [root];
    var totals, rows := ZERO_TOTALS, [];
    ghost var seen: set<nat> := {};
    assert Up(processes, root, 0) == Some(root);
    while stack != []
      invariant Collected(processes, root, seen, stack, totals, rows) && SumsTo(rows, totals)
      decreases Pids(processes) - seen
    {
      CollectOneMore(processes, root, seen, stack, totals, rows);
      SumsOneMore(rows, Find(processes, stack[|stack| - 1]).value);
      var pid := stack[|stack| - 1];
      stack := stack[..|stack| - 1];
      var process := Find(processes, pid).value;
      totals, rows := Plus(totals, process), rows + [process];
      stack := stack + Reversed(Children(processes, pid));
      seen := seen + {pid};
    }
    SeenIsTree(processes, root, seen);
    SortRowsSorted(root, rows);
    SortRowsSums(root, rows, totals);
    SortedRootFirst(root, SortRows(root, rows), Find(processes, root).value);
    return Some(Aggregate(totals, SortRows(root, rows)));
  }

  lemma RowsOneMore(processes: seq<Process>, rows: seq<Process>, pids: set<nat>, p: Process)
    requires DistinctPids(processes) && RowsOf(processes, rows, pids)
    requires p in processes && p.pid !in pids
    ensures RowsOf(processes, rows + [p], pids + {p.pid})
  {
    forall q | q in processes && q.pid == p.pid ensures q == p {
      FindsEach(processes, p);
      FindsEach(processes, q);
    }
  }

  lemma SeenIsTree(processes: seq<Process>, root: nat, seen: set<nat>)
    requires DistinctPids(processes) && WalkOk(processes, root, seen, [])
    ensures seen == TreePids(processes, root)
  {
    SeenArePids(processes, root, seen, []);
    forall pid | pid in TreePids(processes, root) ensures pid in seen {
      var p :| p in processes && p.pid == pid;
      FindsEach(processes, p);
      var k: nat :| Up(processes, pid, k) == Some(root);
      SeenIsClosed(processes, root, seen, pid, k);
    }
  }

  // ---- The fixpoint used to suspend a tree -----------------------------------

  /** A listed (pid, parent) pair. */
  datatype Entry = Entry(pid: nat, parent: nat)

  ghost predicate Closed(entries: seq<Entry>, pids: set<nat>) {
    forall e :: e in entries && e.parent in pids ==> e.pid in pids
  }

  ghost predicate LeastClosed(entries: seq<Entry>, root: nat, pids: set<nat>) {
    && root in pids && Closed(entries, pids)
    && forall s: set<nat> :: root in s && Closed(entries, s) ==> pids <= s
  }

  method ProcessTreePids(root: nat, entries: seq<Entry>) returns (pids: set<nat>)
    ensures LeastClosed(entries, root, pids)
  {
    ghost var all := {root} + set e | e in entries :: e.pid;
    pids := {root};
    var previous: set<nat> := {};
    while |pids| != |previous|
      invariant previous <= pids <= all && root in pids
      invariant forall e :: e in entries && e.parent in previous ==> e.pid in pids
      invariant forall s: set<nat> :: root in s && Closed(entries, s) ==> pids <= s
      decreases all - previous
    {
      Remaining(all, previous, pids);
      previous := pids;
      for i := 0 to |entries|
        invariant previous <= pids <= all
        invariant forall e :: e in entries[..i] && e.parent in previous ==> e.pid in pids
        invariant forall s: set<nat> :: root in s && Closed(entries, s) ==> pids <= s
      {
        TakeOneMore(entries, i);
        if entries[i].parent in pids {
          pids := pids + {entries[i].pid};
        }
      }
    }
    SubsetOfSameSize(previous, pids);
  }

  lemma SubsetOfSameSize<T>(a: set<T>, b: set<T>)
    requires a <= b && |a| == |b|
    ensures a == b
  {
    assert b == a + (b - a);
  }

  lemma Remaining<T>(all: set<T>, a: set<T>, b: set<T>)
    requires a <= b <= all && |a| != |b|
    ensures all - b < all - a
  {
    assert b == a + (b - a);
    var x :| x in b - a;
  }

  ghost predicate ListsParents(processes: seq<Process>, entries: seq<Entry>) {
    forall e :: e in entries <==> exists p :: p in processes && p.ppid == Some(e.parent) && p.pid == e.pid
  }

  /** Both walks agree: the fixpoint over the same processes is the set of pids the
      metrics walk reports, and it needs no condition on cycles. */
  lemma FixpointIsTree(processes: seq<Process>, entries: seq<Entry>, root: nat, pids: set<nat>)
    requires DistinctPids(processes) && root in Pids(processes)
    requires ListsParents(processes, entries) && LeastClosed(entries, root, pids)
    ensures pids == TreePids(processes, root)
  {
    var tree := TreePids(processes, root);
    assert Up(processes, root, 0) == Some(root);
    forall e | e in entries && e.parent in tree ensures e.pid in tree {
      var p :| p in processes && p.ppid == Some(e.parent) && p.pid == e.pid;
      FindsEach(processes, p);
      ChildDescends(processes, root, e.pid);
    }
    assert pids <= tree;
    forall pid | pid in tree ensures pid in pids {
      var p :| p in processes && p.pid == pid;
      var k: nat :| Up(processes, pid, k) == Some(root);
      TreeInClosed(processes, entries, root, pids, p, k);
    }
  }

  lemma {:induction false} TreeInClosed(processes: seq<Process>, entries: seq<Entry>, root: nat, pids: set<nat>,
                                        p: Process, k: nat)
    requires DistinctPids(processes) && root in pids && Closed(entries, pids)
    requires ListsParents(processes, entries) && root in Pids(processes)
    requires p in processes && Up(processes, p.pid, k) == Some(root)
    ensures p.pid in pids
    decreases k
  {
    if k == 0 {
    } else {
      FindsEach(processes, p);
      var parent := p.ppid.value;
      assert Entry(p.pid, parent) in entries;
      if k > 1 {
        TreeInClosed(processes, entries, root, pids, Find(processes, parent).value, k - 1);
      }
    }
  }
}
