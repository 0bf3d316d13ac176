/** Cycle detection on a workflow's edges (src/state/workflow.rs). */
module WorkflowGraphs {
  import opened Prelude

  datatype Edge = Edge(from: nat, to: nat)

  ghost predicate InRange(edges: seq<Edge>, n: nat) {
    forall e :: e in edges ==> e.from < n && e.to < n
  }

  // ---- What a cycle is -----------------------------------------------------

  ghost predicate Linked(edges: seq<Edge>, walk: seq<nat>, i: nat) {
    i + 1 < |walk| && Edge(walk[i], walk[i + 1]) in edges
  }

  ghost predicate IsWalk(edges: seq<Edge>, walk: seq<nat>) {
    forall i {:trigger Linked(edges, walk, i)} :: 0 <= i < |walk| - 1 ==> Linked(edges, walk, i)
  }

  /** A non-empty walk from a node back to itself. */
  ghost predicate IsCycle(edges: seq<Edge>, walk: seq<nat>) {
    |walk| >= 2 && walk[0] == walk[|walk| - 1] && IsWalk(edges, walk)
  }

  ghost predicate HasCycle(edges: seq<Edge>) {
    exists walk :: IsCycle(edges, walk)
  }

  /** Every edge leads to a node placed strictly earlier: read backwards, `order`
      is an order in which the workflow can run. */
  ghost predicate FinishesBefore(edges: seq<Edge>, order: seq<nat>) {
    && Distinct(order)
    && forall e {:trigger PlacedBefore(order, e.to, e.from)} ::
         e in edges && e.from in order ==> PlacedBefore(order, e.to, e.from)
  }

  ghost predicate PlacedBefore(order: seq<nat>, a: nat, b: nat) {
    exists i, j :: 0 <= i < j < |order| && order[i] == a && order[j] == b
  }

  ghost predicate Topological(edges: seq<Edge>, n: nat, order: seq<nat>) {
    (forall v: nat :: v in order <==> v < n) && FinishesBefore(edges, order)
  }

  lemma {:induction false} WalkGoesDown(edges: seq<Edge>, order: seq<nat>, walk: seq<nat>)
    requires FinishesBefore(edges, order) && IsWalk(edges, walk)
    requires |walk| >= 2 && walk[0] in order
    ensures PlacedBefore(order, walk[|walk| - 1], walk[0])
    decreases |walk|
  {
    assert Linked(edges, walk, 0);
    assert PlacedBefore(order, walk[1], walk[0]);
    if |walk| == 2 {
    } else {
      var rest := walk[1..];
      assert IsWalk(edges, rest) by {
        forall i | 0 <= i < |rest| - 1 ensures Linked(edges, rest, i) {
          assert Linked(edges, walk, i + 1);
        }
      }
      WalkGoesDown(edges, order, rest);
    }
  }

  /** A graph with a topological order has no cycle. */
  lemma TopologicalMeansAcyclic(edges: seq<Edge>, n: nat, order: seq<nat>)
    requires InRange(edges, n) && Topological(edges, n, order)
    ensures !HasCycle(edges)
  {
    forall walk ensures !IsCycle(edges, walk) {
      if IsCycle(edges, walk) {
        assert Linked(edges, walk, 0);
        WalkGoesDown(edges, order, walk);
      }
    }
  }

  // ---- The search ------------------------------------------------------------

  const WHITE := 0
  const GRAY := 1
  const BLACK := 2

  datatype Frame = Frame(node: nat, cursor: nat)

  type Adjacency = seq<seq<nat>>

  ghost predicate InBounds(adjacency: Adjacency) {
    forall v, k :: 0 <= v < |adjacency| && 0 <= k < |adjacency[v]| ==> adjacency[v][k] < |adjacency|
  }

  ghost predicate IsEdge(edges: seq<Edge>, v: nat, w: nat) {
    Edge(v, w) in edges
  }

  ghost predicate Lists(adjacency: Adjacency, e: Edge) {
    e.from < |adjacency| && e.to in adjacency[e.from]
  }

  /** The adjacency lists hold exactly the edges. */
  ghost predicate Adjacent(edges: seq<Edge>, adjacency: Adjacency) {
    && (forall v, k {:trigger IsEdge(edges, v, adjacency[v][k])} ::
          0 <= v < |adjacency| && 0 <= k < |adjacency[v]| ==> IsEdge(edges, v, adjacency[v][k]))
    && (forall e {:trigger Lists(adjacency, e)} :: e in edges ==> Lists(adjacency, e))
  }

  method BuildAdjacency(edges: seq<Edge>, n: nat) returns (adjacency: Adjacency)
    requires InRange(edges, n)
    ensures |adjacency| == n && InBounds(adjacency) && Adjacent(edges, adjacency)
  {
    adjacency := seq(n, _ => []);
    for i := 0 to |edges|
      invariant |adjacency| == n && InBounds(adjacency) && Adjacent(edges[..i], adjacency)
    {
      var e := edges[i];
      ghost var before := adjacency;
      adjacency := adjacency[e.from := adjacency[e.from] + [e.to]];
      AppendKeepsAdjacent(edges[..i], before, e);
      assert edges[..i + 1] == edges[..i] + [e];
    }
    assert edges[..|edges|] == edges;
  }

  lemma AppendKeepsAdjacent(edges: seq<Edge>, adjacency: Adjacency, e: Edge)
    requires Adjacent(edges, adjacency) && e.from < |adjacency|
    ensures Adjacent(edges + [e], adjacency[e.from := adjacency[e.from] + [e.to]])
  {
    var after := adjacency[e.from := adjacency[e.from] + [e.to]];
    forall v, k | 0 <= v < |after| && 0 <= k < |after[v]| ensures IsEdge(edges + [e], v, after[v][k]) {
      if k < |adjacency[v]| {
        assert IsEdge(edges, v, adjacency[v][k]);
      }
    }
    forall f | f in edges + [e] ensures Lists(after, f) {
      if f in edges {
        assert Lists(adjacency, f);
      }
    }
  }

  /**
   The state of the search between two stack operations. The first `open` frames
   are in progress (gray) and each waits for the frame above it; a frame beyond
   them was only just pushed. `done` lists the black nodes in finishing order.
   */
  ghost predicate SearchOk(edges: seq<Edge>, adjacency: Adjacency, colors: seq<int>,
                           stack: seq<Frame>, open: nat, done: seq<nat>)
  {
    && |colors| == |adjacency|
    && FramesOk(adjacency, stack, open, done)
    && Distinct(done)
    && (forall v: nat :: v in done <==> v < |colors| && colors[v] == BLACK)
    && (forall v :: 0 <= v < |colors| ==> WHITE <= colors[v] <= BLACK)
    && (forall v {:trigger OnStack(stack, open, v)} ::
          0 <= v < |colors| && colors[v] == GRAY ==> OnStack(stack, open, v))
    && (forall i :: 0 <= i < open ==> colors[stack[i].node] == GRAY)
    && FinishesBefore(edges, done)
  }

  ghost predicate OnStack(stack: seq<Frame>, open: nat, v: nat)
    requires open <= |stack|
  {
    exists i :: 0 <= i < open && stack[i].node == v
  }

  ghost predicate FramesOk(adjacency: Adjacency, stack: seq<Frame>, open: nat, done: seq<nat>) {
    && open <= |stack| <= open + 1
    && (open < |stack| ==> stack[open].cursor == 0)
    && (forall i :: 0 <= i < |stack| ==>
          stack[i].node < |adjacency| && stack[i].cursor <= |adjacency[stack[i].node]|)
    && (forall i, j :: 0 <= i < j < open ==> stack[i].node != stack[j].node)
    && (forall i {:trigger Waits(adjacency, stack, i)} :: 0 <= i < |stack| - 1 ==> Waits(adjacency, stack, i))
    && (forall i, k :: 0 <= i < |stack| && 0 <= k < Finished(stack, i) ==> adjacency[stack[i].node][k] in done)
  }

  /** Frame `i` last moved on to the node of the frame above it. */
  ghost predicate Waits(adjacency: Adjacency, stack: seq<Frame>, i: nat) {
    && i + 1 < |stack| && 0 < stack[i].cursor
    && stack[i].node < |adjacency| && stack[i].cursor <= |adjacency[stack[i].node]|
    && adjacency[stack[i].node][stack[i].cursor - 1] == stack[i + 1].node
  }

  /** How many successors of frame `i` the search has finished with. */
  ghost function Finished(stack: seq<Frame>, i: nat): int
    requires i < |stack|
  {
    if i == |stack| - 1 then stack[i].cursor else stack[i].cursor - 1
  }

  lemma Open(edges: seq<Edge>, adjacency: Adjacency, colors: seq<int>, stack: seq<Frame>, done: seq<nat>)
    requires |stack| > 0 && SearchOk(edges, adjacency, colors, stack, |stack| - 1, done)
    requires colors[stack[|stack| - 1].node] == WHITE
    ensures SearchOk(edges, adjacency, colors[stack[|stack| - 1].node := GRAY], stack, |stack|, done)
  {
    var top := stack[|stack| - 1].node;
    var after := colors[top := GRAY];
    forall v | 0 <= v < |after| && after[v] == GRAY ensures OnStack(stack, |stack|, v) {
      if v == top {
        assert stack[|stack| - 1].node == v;
      } else {
        assert OnStack(stack, |stack| - 1, v);
      }
    }
  }

  /** A frame pushed for a node that is already black goes away again. */
  lemma Discard(edges: seq<Edge>, adjacency: Adjacency, colors: seq<int>, stack: seq<Frame>, done: seq<nat>)
    requires |stack| > 0 && SearchOk(edges, adjacency, colors, stack, |stack| - 1, done)
    requires colors[stack[|stack| - 1].node] == BLACK
    ensures SearchOk(edges, adjacency, colors, stack[..|stack| - 1], |stack| - 1, done)
  {
    var rest := stack[..|stack| - 1];
    forall v | 0 <= v < |colors| && colors[v] == GRAY ensures OnStack(rest, |rest|, v) {
      assert OnStack(stack, |rest|, v);
      var i :| 0 <= i < |rest| && stack[i].node == v;
      assert rest[i].node == v;
    }
    forall i | 0 <= i < |rest| - 1 ensures Waits(adjacency, rest, i) {
      assert Waits(adjacency, stack, i);
    }
    forall i, k | 0 <= i < |rest| && 0 <= k < Finished(rest, i) ensures adjacency[rest[i].node][k] in done {
      if k < Finished(stack, i) {
        assert adjacency[stack[i].node][k] in done;
      } else {
        assert Waits(adjacency, stack, i);
      }
    }
  }

  lemma Advance(edges: seq<Edge>, adjacency: Adjacency, colors: seq<int>, stack: seq<Frame>, done: seq<nat>,
                after: seq<Frame>)
    requires |stack| > 0 && SearchOk(edges, adjacency, colors, stack, |stack|, done)
    requires var top := stack[|stack| - 1];
             && top.cursor < |adjacency[top.node]|
             && var next := adjacency[top.node][top.cursor];
                && next < |adjacency|
                && after == stack[..|stack| - 1] + [Frame(top.node, top.cursor + 1)]
                            + (if colors[next] != BLACK then [Frame(next, 0)] else [])
    ensures SearchOk(edges, adjacency, colors, after, |stack|, done)
  {
    AdvanceFrames(adjacency, stack, done, after);
    forall v | 0 <= v < |colors| && colors[v] == GRAY ensures OnStack(after, |stack|, v) {
      assert OnStack(stack, |stack|, v);
      var i :| 0 <= i < |stack| && stack[i].node == v;
      assert after[i].node == v;
    }
  }

  lemma AdvanceFrames(adjacency: Adjacency, stack: seq<Frame>, done: seq<nat>, after: seq<Frame>)
    requires |stack| > 0 && FramesOk(adjacency, stack, |stack|, done)
    requires var top := stack[|stack| - 1];
             && top.cursor < |adjacency[top.node]|
             && var next := adjacency[top.node][top.cursor];
                && next < |adjacency|
                && var base := stack[..|stack| - 1] + [Frame(top.node, top.cursor + 1)];
                   (after == base && next in done) || after == base + [Frame(next, 0)]
    ensures FramesOk(adjacency, after, |stack|, done)
    ensures forall i :: 0 <= i < |stack| ==> after[i].node == stack[i].node
  {
    var last := |stack| - 1;
    var node, cursor := stack[last].node, stack[last].cursor;
    assert after[last] == Frame(node, cursor + 1);
    assert forall i :: 0 <= i < last ==> after[i] == stack[i];
    forall i | 0 <= i < |after| - 1 ensures Waits(adjacency, after, i) {
      if i < last {
        assert Waits(adjacency, stack, i);
        assert after[i + 1].node == stack[i + 1].node;
      }
    }
    forall i, k | 0 <= i < |after| && 0 <= k < Finished(after, i) ensures adjacency[after[i].node][k] in done {
      if i < last {
        assert k < Finished(stack, i);
      } else if i == last && k < cursor {
        assert k < Finished(stack, last);
      }
    }
  }

  lemma Finish(edges: seq<Edge>, adjacency: Adjacency, colors: seq<int>, stack: seq<Frame>, done: seq<nat>)
    requires Adjacent(edges, adjacency)
    requires |stack| > 0 && SearchOk(edges, adjacency, colors, stack, |stack|, done)
    requires var top := stack[|stack| - 1]; top.cursor == |adjacency[top.node]|
    ensures var node := stack[|stack| - 1].node;
            SearchOk(edges, adjacency, colors[node := BLACK], stack[..|stack| - 1], |stack| - 1, done + [node])
  {
    var node := stack[|stack| - 1].node;
    var rest, after := stack[..|stack| - 1], done + [node];
    var colored := colors[node := BLACK];
    forall v | 0 <= v < |colored| && colored[v] == GRAY ensures OnStack(rest, |rest|, v) {
      assert OnStack(stack, |stack|, v);
      var i :| 0 <= i < |stack| && stack[i].node == v;
      assert rest[i].node == v;
    }
    forall i | 0 <= i < |rest| - 1 ensures Waits(adjacency, rest, i) {
      assert Waits(adjacency, stack, i);
    }
    forall i, k | 0 <= i < |rest| && 0 <= k < Finished(rest, i) ensures adjacency[rest[i].node][k] in after {
      if k < Finished(stack, i) {
        assert adjacency[stack[i].node][k] in done;
      } else {
        assert Waits(adjacency, stack, i);
      }
    }
    assert FinishesBefore(edges, after) by {
      forall e | e in edges && e.from in after ensures PlacedBefore(after, e.to, e.from) {
        FinishedSuccessor(edges, adjacency, stack, done, e);
      }
    }
  }

  lemma FinishedSuccessor(edges: seq<Edge>, adjacency: Adjacency, stack: seq<Frame>, done: seq<nat>, e: Edge)
    requires Adjacent(edges, adjacency) && FinishesBefore(edges, done)
    requires |stack| > 0 && FramesOk(adjacency, stack, |stack|, done)
    requires var top := stack[|stack| - 1]; top.cursor == |adjacency[top.node]|
    requires e in edges && e.from in done + [stack[|stack| - 1].node]
    ensures PlacedBefore(done + [stack[|stack| - 1].node], e.to, e.from)
  {
    var after := done + [stack[|stack| - 1].node];
    if e.from in done {
      assert PlacedBefore(done, e.to, e.from);
      var i, j :| 0 <= i < j < |done| && done[i] == e.to && done[j] == e.from;
      assert after[i] == e.to && after[j] == e.from;
    } else {
      assert Lists(adjacency, e);
      var k :| 0 <= k < |adjacency[e.from]| && adjacency[e.from][k] == e.to;
      assert k < Finished(stack, |stack| - 1);
      var i :| 0 <= i < |done| && done[i] == e.to;
      assert after[i] == e.to && after[|done|] == e.from;
    }
  }

  /** Reaching a gray node closes a cycle through the frames above it. */
  lemma GrayClosesCycle(edges: seq<Edge>, adjacency: Adjacency, colors: seq<int>, stack: seq<Frame>, done: seq<nat>)
    requires Adjacent(edges, adjacency)
    requires |stack| > 0 && SearchOk(edges, adjacency, colors, stack, |stack| - 1, done)
    requires colors[stack[|stack| - 1].node] == GRAY
    ensures HasCycle(edges)
  {
    var top := stack[|stack| - 1].node;
    assert OnStack(stack, |stack| - 1, top);
    var i :| 0 <= i < |stack| - 1 && stack[i].node == top;
    FramesAreWalk(edges, adjacency, stack, i);
    assert IsCycle(edges, WalkFrom(stack, i));
  }

  ghost function WalkFrom(stack: seq<Frame>, i: nat): (walk: seq<nat>)
    requires i <= |stack|
    ensures |walk| == |stack| - i && forall k :: 0 <= k < |walk| ==> walk[k] == stack[i + k].node
  {
    seq<nat>(|stack| - i, k requires 0 <= k < |stack| - i => stack[i + k].node)
  }

  lemma FramesAreWalk(edges: seq<Edge>, adjacency: Adjacency, stack: seq<Frame>, i: nat)
    requires Adjacent(edges, adjacency) && i < |stack|
    requires forall j {:trigger Waits(adjacency, stack, j)} :: 0 <= j < |stack| - 1 ==> Waits(adjacency, stack, j)
    ensures IsWalk(edges, WalkFrom(stack, i))
  {
    var walk := WalkFrom(stack, i);
    forall k | 0 <= k < |walk| - 1 ensures Linked(edges, walk, k) {
      assert Waits(adjacency, stack, i + k);
      var frame := stack[i + k];
      assert IsEdge(edges, frame.node, adjacency[frame.node][frame.cursor - 1]);
    }
  }

  // ---- Termination ---------------------------------------------------------

  ghost function Whites(colors: seq<int>): set<nat> {
    set v | 0 <= v < |colors| && colors[v] == WHITE
  }

  /** Cursor moves left in the frames that are in progress. */
  ghost function Work(adjacency: Adjacency, stack: seq<Frame>): nat
    requires forall f :: f in stack ==> f.node < |adjacency| && f.cursor <= |adjacency[f.node]|
  {
    if stack == [] then 0
    else
      var top := stack[|stack| - 1];
      Work(adjacency, stack[..|stack| - 1]) + if top.cursor == 0 then 0 else |adjacency[top.node]| - top.cursor + 1
  }

  lemma WorkPush(adjacency: Adjacency, stack: seq<Frame>, f: Frame)
    requires forall g :: g in stack + [f] ==> g.node < |adjacency| && g.cursor <= |adjacency[g.node]|
    ensures forall g :: g in stack ==> g in stack + [f]
    ensures Work(adjacency, stack + [f])
         == Work(adjacency, stack) + if f.cursor == 0 then 0 else |adjacency[f.node]| - f.cursor + 1
  {
    assert (stack + [f])[..|stack|] == stack;
  }

  ghost function Opened(stack: seq<Frame>): nat {
    if stack != [] && stack[|stack| - 1].cursor == 0 then |stack| - 1 else |stack|
  }

  ghost predicate LoopOk(edges: seq<Edge>, adjacency: Adjacency, colors: seq<int>, stack: seq<Frame>, done: seq<nat>) {
    InBounds(adjacency) && SearchOk(edges, adjacency, colors, stack, Opened(stack), done)
  }

  ghost predicate Shrinks(adjacency: Adjacency, colors: seq<int>, stack: seq<Frame>, colors': seq<int>,
                          stack': seq<Frame>)
    requires forall f :: f in stack + stack' ==> f.node < |adjacency| && f.cursor <= |adjacency[f.node]|
  {
    || Whites(colors') < Whites(colors)
    || (Whites(colors') == Whites(colors)
        && (Work(adjacency, stack') < Work(adjacency, stack)
            || (Work(adjacency, stack') == Work(adjacency, stack) && |stack'| < |stack|)))
  }

  /** One turn of the inner loop, on values: what is pushed back and recoloured. */
  function Turn(adjacency: Adjacency, colors: seq<int>, stack: seq<Frame>): (seq<int>, seq<Frame>)
    requires |colors| == |adjacency| && stack != []
    requires stack[|stack| - 1].node < |adjacency|
    requires InBounds(adjacency)
  {
    var Frame(node, cursor) := stack[|stack| - 1];
    var rest := stack[..|stack| - 1];
    if cursor == 0 && colors[node] == BLACK then (colors, rest)
    else
      var colored := if cursor == 0 then colors[node := GRAY] else colors;
      if cursor < |adjacency[node]| then
        var next := adjacency[node][cursor];
        (colored, rest + [Frame(node, cursor + 1)] + if colored[next] != BLACK then [Frame(next, 0)] else [])
      else
        (colored[node := BLACK], rest)
  }

  ghost function TurnDone(adjacency: Adjacency, colors: seq<int>, stack: seq<Frame>, done: seq<nat>): seq<nat>
    requires |colors| == |adjacency| && stack != []
    requires stack[|stack| - 1].node < |adjacency|
  {
    var Frame(node, cursor) := stack[|stack| - 1];
    if (cursor == 0 && colors[node] == BLACK) || cursor < |adjacency[node]| then done else done + [node]
  }

  lemma TurnKeepsOk(edges: seq<Edge>, adjacency: Adjacency, colors: seq<int>, stack: seq<Frame>, done: seq<nat>)
    requires Adjacent(edges, adjacency)
    requires LoopOk(edges, adjacency, colors, stack, done) && stack != []
    requires var top := stack[|stack| - 1]; top.cursor == 0 ==> colors[top.node] != GRAY
    ensures var (colors', stack') := Turn(adjacency, colors, stack);
            LoopOk(edges, adjacency, colors', stack', TurnDone(adjacency, colors, stack, done))
  {
    var Frame(node, cursor) := stack[|stack| - 1];
    BelowTopIsOpen(adjacency, stack, done);
    if cursor == 0 && colors[node] == BLACK {
      Discard(edges, adjacency, colors, stack, done);
    } else {
      var colored := if cursor == 0 then colors[node := GRAY] else colors;
      if cursor == 0 {
        Open(edges, adjacency, colors, stack, done);
      }
      OpenTurnKeepsOk(edges, adjacency, colored, stack, done);
    }
  }

  lemma BelowTopIsOpen(adjacency: Adjacency, stack: seq<Frame>, done: seq<nat>)
    requires stack != [] && FramesOk(adjacency, stack, Opened(stack), done)
    ensures Opened(stack[..|stack| - 1]) == |stack| - 1
  {
    if |stack| > 1 {
      assert Waits(adjacency, stack, |stack| - 2);
    }
  }

  lemma OpenTurnKeepsOk(edges: seq<Edge>, adjacency: Adjacency, colors: seq<int>, stack: seq<Frame>, done: seq<nat>)
    requires Adjacent(edges, adjacency) && InBounds(adjacency)
    requires stack != [] && SearchOk(edges, adjacency, colors, stack, |stack|, done)
    requires Opened(stack[..|stack| - 1]) == |stack| - 1
    ensures var Frame(node, cursor) := stack[|stack| - 1];
            var rest := stack[..|stack| - 1];
            if cursor < |adjacency[node]| then
              var next := adjacency[node][cursor];
              LoopOk(edges, adjacency, colors,
                     rest + [Frame(node, cursor + 1)] + (if colors[next] != BLACK then [Frame(next, 0)] else []), done)
            else
              LoopOk(edges, adjacency, colors[node := BLACK], rest, done + [node])
  {
    var Frame(node, cursor) := stack[|stack| - 1];
    if cursor < |adjacency[node]| {
      var next := adjacency[node][cursor];
      var after := stack[..|stack| - 1] + [Frame(node, cursor + 1)]
                   + (if colors[next] != BLACK then [Frame(next, 0)] else []);
      Advance(edges, adjacency, colors, stack, done, after);
      assert Opened(after) == |stack|;
    } else {
      Finish(edges, adjacency, colors, stack, done);
    }
  }

  lemma TurnShrinks(adjacency: Adjacency, colors: seq<int>, stack: seq<Frame>)
    requires |colors| == |adjacency| && stack != [] && InBounds(adjacency)
    requires forall f :: f in stack ==> f.node < |adjacency| && f.cursor <= |adjacency[f.node]|
    requires var top := stack[|stack| - 1];
             if top.cursor == 0 then colors[top.node] == WHITE || colors[top.node] == BLACK
             else colors[top.node] == GRAY
    ensures var (colors', stack') := Turn(adjacency, colors, stack);
            && (forall f :: f in stack + stack' ==> f.node < |adjacency| && f.cursor <= |adjacency[f.node]|)
            && Shrinks(adjacency, colors, stack, colors', stack')
  {
    var Frame(node, cursor) := stack[|stack| - 1];
    var rest := stack[..|stack| - 1];
    var (colors', stack') := Turn(adjacency, colors, stack);
    assert stack == rest + [Frame(node, cursor)];
    WorkPush(adjacency, rest, Frame(node, cursor));
    if cursor == 0 && colors[node] == WHITE {
      assert node in Whites(colors) && node !in Whites(colors');
    } else {
      assert Whites(colors') == Whites(colors);
      if cursor != 0 && cursor < |adjacency[node]| {
        var next := adjacency[node][cursor];
        var base := rest + [Frame(node, cursor + 1)];
        assert stack' == base + (if colors[next] != BLACK then [Frame(next, 0)] else []);
        WorkPush(adjacency, rest, Frame(node, cursor + 1));
        if colors[next] != BLACK {
          WorkPush(adjacency, base, Frame(next, 0));
        } else {
          assert stack' == base;
        }
      }
    }
  }

  /** The inner loop's invariant: it started at `start` with `base` finished. */
  ghost predicate Searching(edges: seq<Edge>, adjacency: Adjacency, start: nat, base: seq<nat>,
                            colors: seq<int>, stack: seq<Frame>, done: seq<nat>)
  {
    && LoopOk(edges, adjacency, colors, stack, done)
    && start < |adjacency|
    && (stack == [Frame(start, 0)] || colors[start] != WHITE)
    && (forall v :: v in base ==> v in done)
  }

  lemma SearchStarts(edges: seq<Edge>, adjacency: Adjacency, start: nat, colors: seq<int>, done: seq<nat>)
    requires start < |adjacency| && LoopOk(edges, adjacency, colors, [], done)
    ensures Searching(edges, adjacency, start, done, colors, [Frame(start, 0)], done)
  {
    assert forall v :: 0 <= v < |colors| && colors[v] == GRAY ==> OnStack([], 0, v);
  }

  lemma SearchEnds(edges: seq<Edge>, adjacency: Adjacency, start: nat, base: seq<nat>, colors: seq<int>, done: seq<nat>)
    requires Searching(edges, adjacency, start, base, colors, [], done)
    ensures start in done
  {
    assert forall v :: 0 <= v < |colors| && colors[v] == GRAY ==> OnStack([], 0, v);
  }

  lemma SearchTurns(edges: seq<Edge>, adjacency: Adjacency, start: nat, base: seq<nat>,
                    colors: seq<int>, stack: seq<Frame>, done: seq<nat>)
    requires Adjacent(edges, adjacency) && stack != []
    requires Searching(edges, adjacency, start, base, colors, stack, done)
    ensures var top := stack[|stack| - 1];
            if top.cursor == 0 && colors[top.node] == GRAY then HasCycle(edges)
            else
              var (colors', stack') := Turn(adjacency, colors, stack);
              && Searching(edges, adjacency, start, base, colors', stack', TurnDone(adjacency, colors, stack, done))
              && Shrinks(adjacency, colors, stack, colors', stack')
  {
    var top := stack[|stack| - 1];
    if top.cursor == 0 && colors[top.node] == GRAY {
      GrayClosesCycle(edges, adjacency, colors, stack, done);
    } else {
      TurnKeepsOk(edges, adjacency, colors, stack, done);
      TurnShrinks(adjacency, colors, stack);
    }
  }

  /** One turn of the inner loop, in place. */
  method TakeTurn(adjacency: Adjacency, colors: array<int>, stack: seq<Frame>) returns (after: seq<Frame>)
    requires colors.Length == |adjacency| && stack != [] && InBounds(adjacency)
    requires stack[|stack| - 1].node < |adjacency|
    modifies colors
    ensures colors[..] == Turn(adjacency, old(colors[..]), stack).0
    ensures after == Turn(adjacency, old(colors[..]), stack).1
  {
    var Frame(node, cursor) := stack[|stack| - 1];
    after := stack[..|stack| - 1];
    if cursor == 0 {
      if colors[node] == BLACK {
        return;
      }
      colors[node] := GRAY;
    }
    if cursor < |adjacency[node]| {
      var next := adjacency[node][cursor];
      after := after + [Frame(node, cursor + 1)];
      if colors[next] != BLACK {
        after := after + [Frame(next, 0)];
      }
    } else {
      colors[node] := BLACK;
    }
  }

  /** The inner loop: `start` becomes black with all it can reach, unless a gray
      node turns up on the way. */
  method SearchFrom(start: nat, adjacency: Adjacency, colors: array<int>, ghost edges: seq<Edge>, ghost done: seq<nat>)
    returns (found: bool, ghost after: seq<nat>)
    requires start < |adjacency| && Adjacent(edges, adjacency)
    requires LoopOk(edges, adjacency, colors[..], [], done)
    modifies colors
    ensures found ==> HasCycle(edges)
    ensures !found ==> LoopOk(edges, adjacency, colors[..], [], after)
    ensures !found ==> start in after && forall v :: v in done ==> v in after
  {
    after := done;
    var stack := [Frame(start, 0)];
    SearchStarts(edges, adjacency, start, colors[..], done);
    while stack != []
      invariant Searching(edges, adjacency, start, done, colors[..], stack, after)
      decreases Whites(colors[..]), Work(adjacency, stack), |stack|
    {
      SearchTurns(edges, adjacency, start, done, colors[..], stack, after);
      var top := stack[|stack| - 1];
      if top.cursor == 0 && colors[top.node] == GRAY {
        return true, after;
      }
      after := TurnDone(adjacency, colors[..], stack, after);
      stack := TakeTurn(adjacency, colors, stack);
    }
    SearchEnds(edges, adjacency, start, done, colors[..], after);
    return false, after;
  }

  method WorkflowGraphHasCycle(edges: seq<Edge>, memberCount: nat) returns (found: bool)
    requires InRange(edges, memberCount)
    ensures found <==> HasCycle(edges)
    ensures !found ==> exists order :: Topological(edges, memberCount, order)
  {
    var adjacency := BuildAdjacency(edges, memberCount);
    var colors := new int[memberCount](_ => WHITE);
    ghost var done: seq<nat> := [];
    for start := 0 to memberCount
      invariant LoopOk(edges, adjacency, colors[..], [], done)
      invariant forall v :: 0 <= v < start ==> v in done
    {
      found, done := SearchFrom(start, adjacency, colors, edges, done);
      if found {
        return true;
      }
    }
    assert Topological(edges, memberCount, done);
    TopologicalMeansAcyclic(edges, memberCount, done);
    return false;
  }
}
