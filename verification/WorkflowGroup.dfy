/** Validation of workflow groups and their bounded revision history (src/state/workflow.rs). */
module WorkflowGroups {
  import opened Prelude
  import opened Text
  import opened WorkflowGraphs

  datatype Member = Member(nodeId: string, session: string, task: string)

  datatype Position = Position(x: real, y: real)

  datatype GroupInput = GroupInput(name: string, members: seq<Member>, positions: seq<Position>, edges: seq<Edge>)

  datatype Fault =
    | BlankName
    | BadMember(index: nat)
    | BadEdge(index: nat)
    | Cyclic

  function TrimMember(m: Member): Member {
    Member(Trim(m.nodeId), Trim(m.session), Trim(m.task))
  }

  function TrimMembers(members: seq<Member>): (trimmed: seq<Member>)
    ensures |trimmed| == |members|
    ensures forall i :: 0 <= i < |members| ==> trimmed[i] == TrimMember(members[i])
  {
    seq(|members|, i requires 0 <= i < |members| => TrimMember(members[i]))
  }

  /** Position `i` of trimmed members: all fields filled in, and not seen before. */
  ghost predicate MemberOk(members: seq<Member>, i: nat)
    requires i < |members|
  {
    && |members[i].nodeId| > 0 && |members[i].session| > 0 && |members[i].task| > 0
    && members[i] !in members[..i]
  }

  ghost predicate EdgeOk(edges: seq<Edge>, n: nat, k: nat)
    requires k < |edges|
  {
    edges[k].from < n && edges[k].to < n && edges[k].from != edges[k].to && edges[k] !in edges[..k]
  }

  ghost predicate MembersOk(members: seq<Member>, upTo: nat)
    requires upTo <= |members|
  {
    forall i :: 0 <= i < upTo ==> MemberOk(members, i)
  }

  ghost predicate EdgesOk(edges: seq<Edge>, n: nat, upTo: nat)
    requires upTo <= |edges|
  {
    forall k :: 0 <= k < upTo ==> EdgeOk(edges, n, k)
  }

  ghost predicate Acceptable(input: GroupInput) {
    && !IsBlank(input.name)
    && MembersOk(TrimMembers(input.members), |input.members|)
    && EdgesOk(input.edges, |input.members|, |input.edges|)
    && !HasCycle(input.edges)
  }

  function Normalized(input: GroupInput): GroupInput {
    GroupInput(Trim(input.name), TrimMembers(input.members),
               if |input.positions| > |input.members| then input.positions[..|input.members|] else input.positions,
               input.edges)
  }

  /** Acceptable is an input whose name has something in it; whose members have something
      in each field and stay apart when trimmed; and whose edges go from one member to
      another, each once, and never round in a circle. */
  lemma AcceptableExactly(input: GroupInput)
    ensures Acceptable(input) <==>
              && !OnlyBlanks(input.name)
              && (forall m :: m in input.members ==>
                    !OnlyBlanks(m.nodeId) && !OnlyBlanks(m.session) && !OnlyBlanks(m.task))
              && (forall i, j :: 0 <= i < j < |input.members| ==>
                    TrimMember(input.members[i]) != TrimMember(input.members[j]))
              && (forall e :: e in input.edges ==>
                    e.from < |input.members| && e.to < |input.members| && e.from != e.to)
              && Distinct(input.edges)
              && !HasCycle(input.edges)
  {
    BlankExactly(input.name);
    MembersExactly(input.members);
    EdgesExactly(input.edges, |input.members|);
  }

  lemma TrimmedEmpty(s: string)
    ensures |Trim(s)| > 0 <==> !OnlyBlanks(s)
  {
    var front, back := TrimIs(s);
  }

  lemma MembersExactly(members: seq<Member>)
    ensures MembersOk(TrimMembers(members), |members|) <==>
              && (forall m :: m in members ==> !OnlyBlanks(m.nodeId) && !OnlyBlanks(m.session) && !OnlyBlanks(m.task))
              && (forall i, j :: 0 <= i < j < |members| ==> TrimMember(members[i]) != TrimMember(members[j]))
  {
    var trimmed := TrimMembers(members);
    forall i | 0 <= i < |members|
      ensures MemberOk(trimmed, i) <==>
                var m := members[i];
                && !OnlyBlanks(m.nodeId) && !OnlyBlanks(m.session) && !OnlyBlanks(m.task)
                && forall k :: 0 <= k < i ==> TrimMember(members[k]) != TrimMember(m)
    {
      TrimmedEmpty(members[i].nodeId);
      TrimmedEmpty(members[i].session);
      TrimmedEmpty(members[i].task);
      assert forall k :: 0 <= k < i ==> trimmed[..i][k] == TrimMember(members[k]);
    }
    forall i | 0 <= i < |members| && MembersOk(trimmed, |members|) ensures MemberOk(trimmed, i) {
    }
  }

  lemma EdgesExactly(edges: seq<Edge>, n: nat)
    ensures EdgesOk(edges, n, |edges|) <==>
              (forall e :: e in edges ==> e.from < n && e.to < n && e.from != e.to) && Distinct(edges)
  {
    forall k | 0 <= k < |edges|
      ensures EdgeOk(edges, n, k) <==>
                && edges[k].from < n && edges[k].to < n && edges[k].from != edges[k].to
                && forall j :: 0 <= j < k ==> edges[j] != edges[k]
    {
      assert forall j :: 0 <= j < k ==> edges[..k][j] == edges[j];
    }
  }

  /** The reported fault is there, and the checks before it passed. */
  ghost predicate IsFirstFault(input: GroupInput, fault: Fault) {
    var members := TrimMembers(input.members);
    match fault
    case BlankName => IsBlank(input.name)
    case BadMember(i) =>
      !IsBlank(input.name) && i < |members| && MembersOk(members, i) && !MemberOk(members, i)
    case BadEdge(k) =>
      && !IsBlank(input.name) && MembersOk(members, |members|)
      && k < |input.edges| && EdgesOk(input.edges, |members|, k) && !EdgeOk(input.edges, |members|, k)
    case Cyclic =>
      && !IsBlank(input.name) && MembersOk(members, |members|)
      && EdgesOk(input.edges, |members|, |input.edges|) && HasCycle(input.edges)
  }

  method CheckMembers(members: seq<Member>) returns (fault: Option<nat>)
    ensures fault.None? ==> MembersOk(members, |members|)
    ensures fault.Some? ==>
              fault.value < |members| && MembersOk(members, fault.value) && !MemberOk(members, fault.value)
  {
    var seen: set<Member> := {};
    for i := 0 to |members|
      invariant seen == (set m | m in members[..i])
      invariant MembersOk(members, i)
    {
      var member := members[i];
      if |member.nodeId| == 0 || |member.session| == 0 || |member.task| == 0 || member in seen {
        return Some(i);
      }
      TakeOneMore(members, i);
      seen := seen + {member};
    }
    return None;
  }

  method CheckEdges(edges: seq<Edge>, n: nat) returns (fault: Option<nat>)
    ensures fault.None? ==> EdgesOk(edges, n, |edges|)
    ensures fault.Some? ==> fault.value < |edges| && EdgesOk(edges, n, fault.value) && !EdgeOk(edges, n, fault.value)
  {
    var seen: set<Edge> := {};
    for k := 0 to |edges|
      invariant seen == (set e | e in edges[..k])
      invariant EdgesOk(edges, n, k)
    {
      var edge := edges[k];
      if edge.from >= n || edge.to >= n || edge.from == edge.to || edge in seen {
        return Some(k);
      }
      TakeOneMore(edges, k);
      seen := seen + {edge};
    }
    return None;
  }

  method NormalizeWorkflowGroupInput(input: GroupInput) returns (r: Result<GroupInput, Fault>)
    ensures r.Ok? <==> Acceptable(input)
    ensures r.Ok? ==> r.value == Normalized(input)
    ensures r.Ok? ==>
              && r.value.name == Trim(input.name) && r.value.edges == input.edges
              && |r.value.members| == |input.members|
              && (forall i :: 0 <= i < |r.value.members| ==>
                    var m := input.members[i];
                    r.value.members[i] == Member(Trim(m.nodeId), Trim(m.session), Trim(m.task)))
              && r.value.positions <= input.positions
              && |r.value.positions| == Min(|input.positions|, |input.members|)
    ensures r.Ok? ==> exists order :: Topological(input.edges, |input.members|, order)
    ensures r.Err? ==> IsFirstFault(input, r.error)
  {
    var name := Trim(input.name);
    BlankTrims(input.name);
    if name == "" {
      return Err(BlankName);
    }
    var members := TrimMembers(input.members);
    var badMember := CheckMembers(members);
    if badMember.Some? {
      return Err(BadMember(badMember.value));
    }
    var badEdge := CheckEdges(input.edges, |input.members|);
    if badEdge.Some? {
      return Err(BadEdge(badEdge.value));
    }
    assert InRange(input.edges, |input.members|) by {
      forall e | e in input.edges ensures e.from < |input.members| && e.to < |input.members| {
        var k :| 0 <= k < |input.edges| && input.edges[k] == e;
        assert EdgeOk(input.edges, |input.members|, k);
      }
    }
    var found := WorkflowGraphHasCycle(input.edges, |input.members|);
    if found {
      return Err(Cyclic);
    }
    var positions := input.positions;
    if |positions| > |input.members| {
      positions := positions[..|input.members|];
    }
    return Ok(GroupInput(name, members, positions, input.edges));
  }

  /** What was accepted once is accepted again, unchanged. */
  lemma NormalizedIsFixed(input: GroupInput)
    requires Acceptable(input)
    ensures Acceptable(Normalized(input)) && Normalized(Normalized(input)) == Normalized(input)
  {
    var once := Normalized(input);
    TrimTwice(input.name);
    BlankTrims(input.name);
    BlankTrims(once.name);
    TrimMembersTwice(input.members);
    assert Normalized(once) == once;
    assert Acceptable(once);
  }

  lemma TrimMembersTwice(members: seq<Member>)
    ensures TrimMembers(TrimMembers(members)) == TrimMembers(members)
  {
    var once := TrimMembers(members);
    forall i | 0 <= i < |once| ensures TrimMember(once[i]) == once[i] {
      TrimTwice(members[i].nodeId);
      TrimTwice(members[i].session);
      TrimTwice(members[i].task);
    }
  }

  // ---- Revisions -------------------------------------------------------------

  const WORKFLOW_REVISION_RETENTION_LIMIT: nat := 50

  function MaxRevision(revisions: set<nat>): (max: nat)
    ensures forall r :: r in revisions ==> r <= max
    ensures revisions != {} ==> max in revisions
    ensures revisions == {} ==> max == 0
  {
    if revisions == {} then 0
    else
      MaxExists(revisions);
      var max :| max in revisions && forall r :: r in revisions ==> r <= max;
      max
  }

  lemma MaxExists(revisions: set<nat>)
    requires revisions != {}
    ensures exists max :: max in revisions && forall r :: r in revisions ==> r <= max
  {
    var r :| r in revisions;
    var rest := revisions - {r};
    var max := r;
    if rest != {} {
      MaxExists(rest);
      var m :| m in rest && forall q :: q in rest ==> q <= m;
      max := if m < r then r else m;
    }
    assert forall q :: q in revisions ==> q == r || q in rest;
  }

  /** The revision rows of one group; `history` is every version ever saved. */
  class RevisionTable {
    var rows: map<nat, GroupInput>
    ghost var history: seq<GroupInput>

    /** Versions are numbered 1, 2, ... without gaps, and the newest 50 are kept. */
    ghost predicate Valid()
      reads this
    {
      && (forall r :: r in rows <==> 1 <= r <= |history| && |history| < r + WORKFLOW_REVISION_RETENTION_LIMIT)
      && (forall r :: r in rows ==> rows[r] == history[r - 1])
    }

    constructor ()
      ensures Valid() && history == []
    {
      rows := map[];
      history := [];
    }

    method NextWorkflowRevision() returns (next: nat)
      requires Valid()
      ensures next == |history| + 1 && next !in rows
    {
      assert |history| > 0 ==> |history| in rows;
      next := MaxRevision(rows.Keys) + 1;
    }

    method RecordWorkflowRevision(version: GroupInput)
      requires Valid()
      modifies this
      ensures Valid() && history == old(history) + [version]
      ensures forall r :: r in rows <==> 1 <= r <= |history| && |history| - 50 < r
    {
      var revision := NextWorkflowRevision();
      rows := rows[revision := version];
      history := history + [version];
      var newest := MaxRevision(rows.Keys);
      assert revision in rows && newest == revision;
      rows := map r | r in rows && !(r <= newest - WORKFLOW_REVISION_RETENTION_LIMIT) :: rows[r];
    }
  }
}
