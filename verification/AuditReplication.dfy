/**
 Replicating a worker's audit records to its leader over a channel that loses,
 repeats and delays messages (src/cluster/worker.rs, src/cluster/leader.rs).
 */
module AuditReplication {
  import opened Prelude
  import opened Text
  import opened Ranking
  import opened AuditStores
  import P = AuditPayloads

  const BATCH_LIMIT: nat := 100

  // ---- Attribution -----------------------------------------------------------------------

  function Put(members: seq<P.Member>, m: P.Member): seq<P.Member> {
    if members == [] then [m]
    else if members[0].key == m.key then [m] + members[1..]
    else [members[0]] + Put(members[1..], m)
  }

  function MergeDetail(existing: P.Json, patch: P.Member): P.Json {
    if existing.Object? then P.Object(Put(existing.members, patch))
    else P.Object([P.Member("existing", existing), P.Member("patch", P.Object([patch]))])
  }

  /** The leader names the node that the connection belongs to as the executor, keeps
      another name in the details, and fills in a missing origin. */
  function Attributed(node: string, body: Body): Body {
    var details := if body.executor.Some? && body.executor.value != node
                   then MergeDetail(body.details, P.Member(REPORTED_KEY, P.Str(body.executor.value)))
                   else body.details;
    body.(details := details, origin := if body.origin.Some? then body.origin else Some(node), executor := Some(node))
  }

  const REPORTED_KEY: string := "reported_executor_node_id"

  /** The value of the first member with that key. */
  function Field(members: seq<P.Member>, key: string): Option<P.Json> {
    if members == [] then None
    else if members[0].key == key then Some(members[0].value)
    else Field(members[1..], key)
  }

  lemma {:induction false} PutSets(members: seq<P.Member>, m: P.Member, key: string)
    ensures Field(Put(members, m), key) == if key == m.key then Some(m.value) else Field(members, key)
    ensures |Put(members, m)| == |members| + if Field(members, m.key).Some? then 0 else 1
  {
    if members == [] {
    } else {
      PutSets(members[1..], m, key);
    }
  }

  /** The details with the other executor's name among them, and all else as it was. */
  ghost predicate Mentions(before: P.Json, after: P.Json, name: string) {
    if before.Object? then
      && after.Object? && Field(after.members, "reported_executor_node_id") == Some(P.Str(name))
      && (forall key :: key != "reported_executor_node_id" ==> Field(after.members, key) == Field(before.members, key))
      && |after.members| == |before.members| + if Field(before.members, "reported_executor_node_id").Some? then 0 else 1
    else
      after == P.Object([P.Member("existing", before),
                         P.Member("patch", P.Object([P.Member("reported_executor_node_id", P.Str(name))]))])
  }

  /** The executor is the connection's node; whom the worker named instead is kept in the
      details; an origin that the worker gave stays; nothing else is touched. */
  lemma AttributionIs(node: string, body: Body)
    ensures var a := Attributed(node, body);
            && a.executor == Some(node) && a.origin == Some(if body.origin.Some? then body.origin.value else node)
            && a.request == body.request && a.response == body.response && a.rest == body.rest
            && (if body.executor.Some? && body.executor.value != node
                then Mentions(body.details, a.details, body.executor.value)
                else a.details == body.details)
  {
    if body.executor.Some? && body.details.Object? {
      var m := P.Member(REPORTED_KEY, P.Str(body.executor.value));
      forall key ensures Field(Put(body.details.members, m), key)
                      == if key == m.key then Some(m.value) else Field(body.details.members, key) {
        PutSets(body.details.members, m, key);
      }
      PutSets(body.details.members, m, REPORTED_KEY);
    }
  }

  /** What the leader stores for a record that came from `node`. */
  function Ingested(node: string, row: Row): Row {
    Row(row.at, Sanitized(Attributed(node, row.body)), true)
  }

  /** The same as a function of the row, for the statements that hold whatever the
      leader does to a row, so long as it keeps its time and marks it. */
  function Ingest(node: string): Row -> Row {
    row => Ingested(node, row)
  }

  ghost predicate Marks(via: Row -> Row) {
    forall row :: via(row).at == row.at && via(row).replicated
  }

  lemma IngestMarks(node: string)
    ensures Marks(Ingest(node))
  {
  }

  function Replicated(via: Row -> Row, r: Record): Record {
    Record(r.id, via(r.row))
  }

  /** Records without an id are skipped and never acknowledged. */
  function Accepted(via: Row -> Row, records: seq<Record>): seq<Record> {
    if records == [] then []
    else
      var last := records[|records| - 1];
      Accepted(via, records[..|records| - 1]) + if IsBlank(last.id) then [] else [Replicated(via, last)]
  }

  function RecordedAll(t: Table, records: seq<Record>): Table {
    if records == [] then t
    else Recorded(RecordedAll(t, records[..|records| - 1]), records[|records| - 1])
  }

  lemma AcceptedOneMore(via: Row -> Row, t: Table, records: seq<Record>, i: nat)
    requires i < |records|
    ensures var before, after := Accepted(via, records[..i]), Accepted(via, records[..i + 1]);
            if IsBlank(records[i].id) then after == before
            else
              && after == before + [Replicated(via, records[i])]
              && RecordedAll(t, after) == Recorded(RecordedAll(t, before), Replicated(via, records[i]))
              && Ids(after) == Ids(before) + {records[i].id}
  {
    var before, next := Accepted(via, records[..i]), Replicated(via, records[i]);
    assert records[..i + 1][..i] == records[..i];
    assert (before + [next])[..|before|] == before;
  }

  ghost predicate SameIds(ids: seq<string>, records: seq<Record>) {
    Distinct(ids) && forall id :: id in ids <==> id in Ids(records)
  }

  lemma SameIdsOneMore(ids: seq<string>, records: seq<Record>, r: Record)
    requires SameIds(ids, records) && Ids(records + [r]) == Ids(records) + {r.id}
    ensures SameIds(if r.id in ids then ids else ids + [r.id], records + [r])
  {
  }

  method IngestWorkerAudits(store: AuditStore, node: string, records: seq<Record>) returns (accepted: seq<string>)
    modifies store
    ensures store.rows == RecordedAll(old(store.rows), Accepted(Ingest(node), records))
    ensures SameIds(accepted, Accepted(Ingest(node), records))
  {
    accepted := [];
    ghost var done: seq<Record> := [];
    for i := 0 to |records|
      invariant done == Accepted(Ingest(node), records[..i])
      invariant store.rows == RecordedAll(old(store.rows), done)
      invariant SameIds(accepted, done)
    {
      AcceptedOneMore(Ingest(node), old(store.rows), records, i);
      if IsBlank(records[i].id) {
        continue;
      }
      SameIdsOneMore(accepted, done, Replicated(Ingest(node), records[i]));
      done := done + [Replicated(Ingest(node), records[i])];
      var attributed := records[i].(row := records[i].row.(body := Attributed(node, records[i].row.body)));
      var stored := store.IngestReplicatedAudit(attributed, records[i].id);
      if stored.id !in accepted {
        accepted := accepted + [stored.id];
      }
    }
    assert records[..|records|] == records;
  }

  // ---- The system ------------------------------------------------------------------------

  /** `created` has every record a worker ever made; `ingested` is everything ever
      written to the leader's table. Both only serve the statements. */
  datatype System = System(
    via: Row -> Row, worker: Table, leader: Table, sent: set<seq<Record>>, acks: set<set<string>>,
    created: Table, ingested: seq<Record>)

  /** A worker and its leader before anything was recorded. */
  function Start(via: Row -> Row): System {
    System(via, map[], map[], {}, {}, map[], [])
  }

  /** A message stays in `sent` or `acks` for good: delivering it never, once or again,
      in any order, covers loss, duplication and reconnects. */
  datatype Event =
    | WorkerRecords(r: Record)
    | LeaderRecords(r: Record)
    | Send(records: seq<Record>)
    | Deliver(records: seq<Record>)
    | Ack(ids: set<string>)

  ghost predicate IsBatch(worker: Table, records: seq<Record>) {
    records != [] && IsOldestPending(worker, BATCH_LIMIT, records)
  }

  ghost predicate Enabled(s: System, e: Event) {
    match e
    case WorkerRecords(r) => IsNew(s, r) && AsRecorded(r.row.body)
    case LeaderRecords(r) => FromElsewhere(s, r) && WasSanitized(r.row.body)
    case Send(records) => IsBatch(s.worker, records)
    case Deliver(records) => records in s.sent
    case Ack(ids) => ids in s.acks
  }

  /** As recording leaves it, for payloads that fit a 64-bit size. */
  ghost predicate AsRecorded(body: Body) {
    exists given :: BodyFits(given) && body == Sanitized(given)
  }

  ghost predicate WasSanitized(body: Body) {
    exists given :: body == Sanitized(given)
  }

  predicate IsSanitized(body: Body) {
    Sanitized(body) == body
  }

  ghost predicate IsNew(s: System, r: Record) {
    && !IsBlank(r.id) && !r.row.replicated && r.id !in s.created
    && forall q :: q in s.ingested ==> q.id != r.id
  }

  /** A record of the leader's own, or one it has from another worker. */
  ghost predicate FromElsewhere(s: System, r: Record) {
    !IsBlank(r.id) && r.id !in s.created && forall q :: q in s.ingested && q.id == r.id ==> q == r
  }

  ghost function Next(s: System, e: Event): System {
    match e
    case WorkerRecords(r) => s.(worker := Recorded(s.worker, r), created := s.created[r.id := r.row])
    case LeaderRecords(r) => s.(leader := Recorded(s.leader, r), ingested := s.ingested + [r])
    case Send(records) => s.(sent := s.sent + {records})
    case Deliver(records) =>
      s.(leader := RecordedAll(s.leader, Accepted(s.via, records)), ingested := s.ingested + Accepted(s.via, records),
         acks := s.acks + {Ids(Accepted(s.via, records))})
    case Ack(ids) => s.(worker := if ids == {} then s.worker else Marked(s.worker, ids))
  }

  ghost predicate WasIngested(s: System, id: string) {
    id in s.created && Record(id, s.via(s.created[id])) in s.ingested
  }

  ghost predicate WorkerOk(s: System) {
    && (forall id :: id in s.created ==> !s.created[id].replicated && !IsBlank(id))
    && (forall id :: id in s.worker ==>
          id in s.created && s.worker[id] == s.created[id].(replicated := s.worker[id].replicated))
    && (forall id :: id in s.worker && s.worker[id].replicated ==> WasIngested(s, id))
    && |Stamps(s.worker, false)| <= AUDIT_REPLICATION_QUEUE_LIMIT + AUDIT_LOCAL_DISPLAY_LIMIT
  }

  ghost predicate LeaderOk(s: System) {
    && Steady(s.ingested) && s.leader == Streamed(s.ingested)
    && forall r :: r in s.ingested && r.id in s.created ==> r.row == s.via(s.created[r.id])
  }

  ghost predicate ChannelOk(s: System) {
    && (forall records, r :: records in s.sent && r in records ==> r.id in s.created && r.row == s.created[r.id])
    && (forall ids, id :: ids in s.acks && id in ids ==> WasIngested(s, id))
  }

  ghost predicate Inv(s: System) {
    Marks(s.via) && WorkerOk(s) && LeaderOk(s) && ChannelOk(s)
  }

  // ---- Steps -------------------------------------------------------------------------------

  lemma PrunedIsBounded(t: Table)
    ensures |Stamps(Pruned(t), false)| <= AUDIT_REPLICATION_QUEUE_LIMIT + AUDIT_LOCAL_DISPLAY_LIMIT
  {
    PrunedStamps(t, false);
    FirstSize(true, Stamps(t, false), AUDIT_REPLICATION_QUEUE_LIMIT);
    FirstSize(false, Stamps(t, false), AUDIT_LOCAL_DISPLAY_LIMIT);
  }

  lemma {:induction false} StreamedAppend(history: seq<Record>, more: seq<Record>)
    ensures Streamed(history + more) == RecordedAll(Streamed(history), more)
  {
    if more == [] {
      assert history + more == history;
    } else {
      var front := more[..|more| - 1];
      assert (history + more)[..|history + more| - 1] == history + front;
      StreamedAppend(history, front);
    }
  }

  /** Accepted are the records that have an id, all of them and no other. */
  lemma {:induction false} AcceptedAre(via: Row -> Row, records: seq<Record>)
    ensures forall r :: r in Accepted(via, records) <==>
              exists q :: q in records && !IsBlank(q.id) && Replicated(via, q) == r
    ensures Ids(Accepted(via, records)) == set q | q in records && !IsBlank(q.id) :: q.id
  {
    if records == [] {
    } else {
      var front, last := records[..|records| - 1], records[|records| - 1];
      assert records == front + [last];
      AcceptedAre(via, front);
      assert !IsBlank(last.id) ==> Replicated(via, last) in Accepted(via, records);
    }
  }

  /** What the leader and the channel need of accepted records. */
  ghost predicate FromWorker(s: System, accepted: seq<Record>) {
    forall r :: r in accepted ==> r.row.replicated && r.id in s.created && r.row == s.via(s.created[r.id])
  }

  lemma AcceptedFromWorker(s: System, records: seq<Record>)
    requires Inv(s) && records in s.sent
    ensures FromWorker(s, Accepted(s.via, records))
  {
    AcceptedAre(s.via, records);
    var accepted := Accepted(s.via, records);
    forall r | r in accepted ensures r.row.replicated && r.id in s.created && r.row == s.via(s.created[r.id]) {
      var q :| q in records && Replicated(s.via, q) == r;
    }
  }

  lemma IngestKeepsLeaderOk(s: System, accepted: seq<Record>)
    requires LeaderOk(s) && FromWorker(s, accepted)
    ensures LeaderOk(s.(leader := RecordedAll(s.leader, accepted), ingested := s.ingested + accepted))
  {
    StreamedAppend(s.ingested, accepted);
  }

  lemma IngestKeepsInv(s: System, accepted: seq<Record>)
    requires Inv(s) && FromWorker(s, accepted)
    ensures Inv(s.(leader := RecordedAll(s.leader, accepted), ingested := s.ingested + accepted,
                   acks := s.acks + {Ids(accepted)}))
  {
    IngestKeepsLeaderOk(s, accepted);
    var after := s.(leader := RecordedAll(s.leader, accepted), ingested := s.ingested + accepted,
                    acks := s.acks + {Ids(accepted)});
    forall id | WasIngested(s, id) || id in Ids(accepted) ensures WasIngested(after, id) {
      if id in Ids(accepted) {
        var r :| r in accepted && r.id == id;
        assert r == Record(id, s.via(s.created[id]));
      }
    }
  }

  lemma LeaderRecordsKeepsInv(s: System, r: Record)
    requires Inv(s) && FromElsewhere(s, r)
    ensures Inv(Next(s, LeaderRecords(r)))
  {
    StreamedAppend(s.ingested, [r]);
    assert [r][..0] == [];
    var after := Next(s, LeaderRecords(r));
    forall id | WasIngested(s, id) ensures WasIngested(after, id) {
    }
  }

  /** The worker's table may be replaced by a part of one that only differs in
      records created since and in marks for ingested records. */
  lemma WorkerTableKeepsOk(s: System, t: Table, part: Table)
    requires WorkerOk(s) && Within(part, t)
    requires |Stamps(part, false)| <= AUDIT_REPLICATION_QUEUE_LIMIT + AUDIT_LOCAL_DISPLAY_LIMIT
    requires forall id :: id in t ==> id in s.created && t[id] == s.created[id].(replicated := t[id].replicated)
    requires forall id :: id in t && t[id].replicated ==> WasIngested(s, id)
    ensures WorkerOk(s.(worker := part))
  {
    forall id | id in part && part[id].replicated ensures WasIngested(s.(worker := part), id) {
      assert WasIngested(s, id);
    }
  }

  lemma PrunedIsWithin(t: Table)
    ensures Within(Pruned(t), t)
  {
  }

  lemma CreatingKeepsInv(s: System, r: Record)
    requires Inv(s) && IsNew(s, r)
    ensures Inv(s.(created := s.created[r.id := r.row]))
  {
    var after := s.(created := s.created[r.id := r.row]);
    forall id | WasIngested(s, id) ensures WasIngested(after, id) {
    }
  }

  lemma WorkerRecordsKeepsInv(s: System, r: Record)
    requires Inv(s) && IsNew(s, r)
    ensures Inv(Next(s, WorkerRecords(r)))
  {
    CreatingKeepsInv(s, r);
    var created := s.(created := s.created[r.id := r.row]);
    var t := Upserted(s.worker, r);
    PrunedIsWithin(t);
    PrunedIsBounded(t);
    WorkerTableKeepsOk(created, t, Pruned(t));
    OnlyWorkerChanges(created, Pruned(t));
  }

  lemma OnlyWorkerChanges(s: System, t: Table)
    requires Inv(s) && WorkerOk(s.(worker := t))
    ensures Inv(s.(worker := t))
  {
    forall id | WasIngested(s, id) ensures WasIngested(s.(worker := t), id) {
    }
  }

  /** The worker's table with these rows marked, before retention. */
  ghost function MarkedFull(t: Table, ids: set<string>): Table {
    map id | id in t :: if id in ids then t[id].(replicated := true) else t[id]
  }

  lemma MarkedFullIsOk(s: System, ids: set<string>)
    requires WorkerOk(s) && forall id :: id in ids ==> WasIngested(s, id)
    ensures var t := MarkedFull(s.worker, ids);
            && (forall id :: id in t ==> id in s.created && t[id] == s.created[id].(replicated := t[id].replicated))
            && (forall id :: id in t && t[id].replicated ==> WasIngested(s, id))
  {
  }

  lemma MarkedIsPruned(t: Table, ids: set<string>)
    ensures Marked(t, ids) == Pruned(MarkedFull(t, ids))
  {
  }

  lemma MarkingKeepsInv(s: System, ids: set<string>)
    requires Inv(s) && forall id :: id in ids ==> WasIngested(s, id)
    ensures Inv(s.(worker := Pruned(MarkedFull(s.worker, ids))))
  {
    var t := MarkedFull(s.worker, ids);
    MarkedFullIsOk(s, ids);
    PrunedIsWithin(t);
    PrunedIsBounded(t);
    WorkerTableKeepsOk(s, t, Pruned(t));
    OnlyWorkerChanges(s, Pruned(t));
  }

  lemma AckKeepsInv(s: System, ids: set<string>)
    requires Inv(s) && ids in s.acks
    ensures Inv(Next(s, Ack(ids)))
  {
    MarkedIsPruned(s.worker, ids);
    MarkingKeepsInv(s, ids);
  }

  lemma SendingKeepsWorker(s: System, records: seq<Record>)
    requires WorkerOk(s)
    ensures WorkerOk(s.(sent := s.sent + {records}))
  {
    forall id | WasIngested(s, id) ensures WasIngested(s.(sent := s.sent + {records}), id) {
    }
  }

  lemma SendingKeepsChannel(s: System, records: seq<Record>)
    requires ChannelOk(s) && forall r :: r in records ==> r.id in s.created && r.row == s.created[r.id]
    ensures ChannelOk(s.(sent := s.sent + {records}))
  {
    forall id | WasIngested(s, id) ensures WasIngested(s.(sent := s.sent + {records}), id) {
    }
  }

  lemma SendKeepsInv(s: System, records: seq<Record>)
    requires Inv(s) && IsBatch(s.worker, records)
    ensures Inv(Next(s, Send(records)))
  {
    SendingKeepsWorker(s, records);
    forall r | r in records ensures r.id in s.created && r.row == s.created[r.id] {
      assert r.id in Ids(records);
    }
    SendingKeepsChannel(s, records);
  }

  lemma StepKeepsInv(s: System, e: Event)
    requires Inv(s) && Enabled(s, e)
    ensures Inv(Next(s, e))
  {
    match e {
      case WorkerRecords(r) => WorkerRecordsKeepsInv(s, r);
      case LeaderRecords(r) => LeaderRecordsKeepsInv(s, r);
      case Send(records) => SendKeepsInv(s, records);
      case Deliver(records) =>
        AcceptedFromWorker(s, records);
        IngestKeepsInv(s, Accepted(s.via, records));
      case Ack(ids) => AckKeepsInv(s, ids);
    }
  }

  ghost predicate Possible(s: System, events: seq<Event>)
    decreases |events|
  {
    events != [] ==> Enabled(s, events[0]) && Possible(Next(s, events[0]), events[1..])
  }

  ghost function After(s: System, events: seq<Event>): System
    decreases |events|
  {
    if events == [] then s else After(Next(s, events[0]), events[1..])
  }

  lemma {:induction false} RunKeepsInv(s: System, events: seq<Event>)
    requires Inv(s) && Possible(s, events)
    ensures Inv(After(s, events))
    decreases |events|
  {
    if events == [] {
    } else {
      StepKeepsInv(s, events[0]);
      RunKeepsInv(Next(s, events[0]), events[1..]);
    }
  }

  // ---- Safety --------------------------------------------------------------------------------

  /** The leader's rows that are newer than `x`. */
  ghost function NewerOnLeader(s: System, x: Stamp): set<Stamp> {
    Preceding(false, Stamps(s.leader, true), x)
  }

  lemma MarkedIsHeld(s: System, id: string)
    requires Inv(s) && id in s.worker && s.worker[id].replicated
    ensures WasIngested(s, id) && s.created[id] == s.worker[id].(replicated := false)
    ensures (id in s.leader && s.leader[id] == s.via(s.created[id]))
            || |NewerOnLeader(s, StampOf(s.worker, id))| >= AUDIT_RETENTION_LIMIT
  {
    IngestedIsHeld(s, id);
  }

  lemma {:induction false} RunKeepsVia(s: System, events: seq<Event>)
    ensures After(s, events).via == s.via
    decreases |events|
  {
    if events == [] {
    } else {
      RunKeepsVia(Next(s, events[0]), events[1..]);
    }
  }

  /** In every run: a record that the worker holds as replicated was ingested, and the
      leader still has it, attributed to the worker, or 10,000 newer replicated records. */
  lemma ReplicatedIsSafe(node: string, events: seq<Event>, id: string)
    requires Possible(Start(Ingest(node)), events)
    ensures var s := After(Start(Ingest(node)), events);
            id in s.worker && s.worker[id].replicated ==>
              && WasIngested(s, id)
              && ((id in s.leader && s.leader[id] == Ingested(node, s.worker[id]))
                  || |NewerOnLeader(s, StampOf(s.worker, id))| >= AUDIT_RETENTION_LIMIT)
  {
    var s := After(Start(Ingest(node)), events);
    IngestMarks(node);
    RunKeepsInv(Start(Ingest(node)), events);
    RunKeepsVia(Start(Ingest(node)), events);
    if id in s.worker && s.worker[id].replicated {
      MarkedIsHeld(s, id);
    }
  }

  ghost predicate AllSanitized(created: Table) {
    forall id :: id in created ==> IsSanitized(created[id].body)
  }

  lemma CreatedAfter(s: System, e: Event)
    ensures Next(s, e).created == if e.WorkerRecords? then s.created[e.r.id := e.r.row] else s.created
  {
  }

  lemma CreatedStaysSanitized(created: Table, r: Record)
    requires AllSanitized(created) && IsSanitized(r.row.body)
    ensures AllSanitized(created[r.id := r.row])
  {
    var after := created[r.id := r.row];
    forall id | id in after ensures IsSanitized(after[id].body) {
      if id != r.id {
        assert IsSanitized(created[id].body);
      }
    }
  }

  lemma StepKeepsSanitized(s: System, e: Event)
    requires Enabled(s, e) && AllSanitized(s.created)
    ensures AllSanitized(Next(s, e).created)
  {
    CreatedAfter(s, e);
    if e.WorkerRecords? {
      var given :| BodyFits(given) && e.r.row.body == Sanitized(given);
      SanitizedIsFixed(given);
      CreatedStaysSanitized(s.created, e.r);
    }
  }

  lemma {:induction false} RunKeepsSanitized(s: System, events: seq<Event>)
    requires Possible(s, events) && AllSanitized(s.created)
    ensures AllSanitized(After(s, events).created)
    decreases |events|
  {
    if events == [] {
    } else {
      StepKeepsSanitized(s, events[0]);
      RunKeepsSanitized(Next(s, events[0]), events[1..]);
    }
  }

  lemma IngestedPayloads(node: string, row: Row)
    requires IsSanitized(row.body)
    ensures var mine, theirs := row.body, Ingested(node, row).body;
            && theirs.request == mine.request && theirs.response == mine.response && theirs.rest == mine.rest
            && theirs.executor == Some(node)
            && (mine.executor.None? || mine.executor == Some(node) ==> theirs.details == mine.details)
  {
  }

  /** In every run, what the leader holds of a worker's record has the payloads byte for
      byte as the worker has them: sanitising them a second time changes nothing. */
  lemma PayloadsArriveUnchanged(node: string, events: seq<Event>, id: string)
    requires Possible(Start(Ingest(node)), events)
    ensures var s := After(Start(Ingest(node)), events);
            id in s.worker && id in s.leader ==>
              var mine, theirs := s.worker[id].body, s.leader[id].body;
              && theirs.request == mine.request && theirs.response == mine.response && theirs.rest == mine.rest
              && theirs.executor == Some(node)
              && (mine.executor.None? || mine.executor == Some(node) ==> theirs.details == mine.details)
  {
    var s := After(Start(Ingest(node)), events);
    IngestMarks(node);
    RunKeepsInv(Start(Ingest(node)), events);
    RunKeepsSanitized(Start(Ingest(node)), events);
    RunKeepsVia(Start(Ingest(node)), events);
    if id in s.worker && id in s.leader {
      LeaderHoldsIngested(s, id);
      IngestedPayloads(node, s.created[id]);
    }
  }

  // ---- Nothing sensitive is ever held ----------------------------------------------------------

  ghost predicate CleansRow(via: Row -> Row, row: Row) {
    CleanBody(via(row).body)
  }

  ghost predicate Cleans(via: Row -> Row) {
    forall row :: CleansRow(via, row)
  }

  lemma IngestCleans(node: string)
    ensures Cleans(Ingest(node))
  {
    forall row ensures CleansRow(Ingest(node), row) {
      SanitizedIsCleanBody(Attributed(node, row.body));
    }
  }

  ghost predicate SmallBody(body: Body) {
    && P.Bytes(P.Serialized(body.request)) <= 65_536 && P.Bytes(P.Serialized(body.response)) <= 65_536
    && P.Bytes(P.Serialized(body.details)) <= 65_536
  }

  /** All that was ever recorded on the worker is clean and small, and all that was ever
      written on the leader is clean. */
  ghost predicate AllClean(s: System) {
    && (forall id :: id in s.created ==> CleanBody(s.created[id].body) && SmallBody(s.created[id].body))
    && forall q :: q in s.ingested ==> CleanBody(q.row.body)
  }

  lemma RecordedIsSafe(given: Body)
    requires BodyFits(given)
    ensures CleanBody(Sanitized(given)) && SmallBody(Sanitized(given))
  {
    SanitizedIsSafelyStored(given);
  }

  lemma {:induction false} AcceptedAreClean(via: Row -> Row, records: seq<Record>)
    requires Cleans(via)
    ensures forall q :: q in Accepted(via, records) ==> CleanBody(q.row.body)
  {
    if records == [] {
    } else {
      AcceptedAreClean(via, records[..|records| - 1]);
      assert CleansRow(via, records[|records| - 1].row);
    }
  }

  lemma IngestedAfter(s: System, e: Event)
    ensures Next(s, e).via == s.via
    ensures Next(s, e).ingested == s.ingested + match e
              case LeaderRecords(r) => [r]
              case Deliver(records) => Accepted(s.via, records)
              case _ => []
  {
    assert s.ingested + [] == s.ingested;
  }

  lemma WorkerRecordsKeepsClean(s: System, r: Record)
    requires AllClean(s) && CleanBody(r.row.body) && SmallBody(r.row.body)
    ensures AllClean(Next(s, WorkerRecords(r)))
  {
    CreatedAfter(s, WorkerRecords(r));
    IngestedAfter(s, WorkerRecords(r));
  }

  lemma LeaderRecordsKeepsClean(s: System, r: Record)
    requires AllClean(s) && CleanBody(r.row.body)
    ensures AllClean(Next(s, LeaderRecords(r)))
  {
    CreatedAfter(s, LeaderRecords(r));
    IngestedAfter(s, LeaderRecords(r));
  }

  lemma StepKeepsClean(s: System, e: Event)
    requires Enabled(s, e) && Cleans(s.via) && AllClean(s)
    ensures AllClean(Next(s, e)) && Next(s, e).via == s.via
  {
    CreatedAfter(s, e);
    IngestedAfter(s, e);
    match e {
      case WorkerRecords(r) =>
        var given :| BodyFits(given) && r.row.body == Sanitized(given);
        RecordedIsSafe(given);
        WorkerRecordsKeepsClean(s, r);
      case LeaderRecords(r) =>
        var given :| r.row.body == Sanitized(given);
        SanitizedIsCleanBody(given);
        LeaderRecordsKeepsClean(s, r);
      case Deliver(records) => AcceptedAreClean(s.via, records);
      case _ =>
    }
  }

  lemma {:induction false} RunKeepsClean(s: System, events: seq<Event>)
    requires Possible(s, events) && Cleans(s.via) && AllClean(s)
    ensures AllClean(After(s, events))
    decreases |events|
  {
    if events == [] {
    } else {
      StepKeepsClean(s, events[0]);
      RunKeepsClean(Next(s, events[0]), events[1..]);
    }
  }

  lemma HeldWasWritten(s: System)
    requires Inv(s)
    ensures forall id :: id in s.worker ==> id in s.created && s.worker[id].body == s.created[id].body
    ensures forall id :: id in s.leader ==> Record(id, s.leader[id]) in s.ingested
  {
    StreamedIsPrunedOnce(s.ingested);
    AllOfIs(s.ingested);
  }

  /** In every run, no row of the worker's or the leader's table has a sensitive key with
      a value at any depth, and no payload of the worker's is larger than 64 KiB. */
  lemma TablesAreClean(node: string, events: seq<Event>)
    requires Possible(Start(Ingest(node)), events)
    ensures var s := After(Start(Ingest(node)), events);
            && (forall id :: id in s.worker ==> CleanBody(s.worker[id].body) && SmallBody(s.worker[id].body))
            && (forall id :: id in s.leader ==> CleanBody(s.leader[id].body))
  {
    var s := After(Start(Ingest(node)), events);
    IngestMarks(node);
    IngestCleans(node);
    RunKeepsInv(Start(Ingest(node)), events);
    RunKeepsClean(Start(Ingest(node)), events);
    HeldWasWritten(s);
    forall id | id in s.leader ensures CleanBody(s.leader[id].body) {
      assert CleanBody(Record(id, s.leader[id]).row.body);
    }
  }

  lemma LeaderHoldsIngested(s: System, id: string)
    requires Inv(s) && id in s.worker && id in s.leader
    ensures id in s.created && s.worker[id].body == s.created[id].body
    ensures s.leader[id] == s.via(s.created[id])
  {
    StreamedIsPrunedOnce(s.ingested);
    AllOfIs(s.ingested);
    assert Record(id, s.leader[id]) in s.ingested;
  }

  lemma IngestedIsHeld(s: System, id: string)
    requires Inv(s) && WasIngested(s, id)
    ensures var row := s.via(s.created[id]);
            (id in s.leader && s.leader[id] == row)
            || |NewerOnLeader(s, Stamp(row.at, id))| >= AUDIT_RETENTION_LIMIT
  {
    var all := AllOf(s.ingested);
    StreamedIsPrunedOnce(s.ingested);
    AllOfIs(s.ingested);
    var x := StampOf(all, id);
    var stamps := Stamps(all, true);
    assert x in stamps;
    PrunedStamps(all, true);
    if id !in s.leader {
      OthersComeAfter(false, stamps, AUDIT_RETENTION_LIMIT, x);
      var kept := First(false, stamps, AUDIT_RETENTION_LIMIT);
      SubsetSize(kept, NewerOnLeader(s, x));
    }
  }

  /** Ingesting a record again changes nothing, even when it has been pruned since. */
  lemma ReingestingChangesNothing(s: System, r: Record)
    requires Inv(s) && r in s.ingested
    ensures Recorded(s.leader, r) == s.leader
  {
    var again := s.ingested + [r];
    StreamedIsPrunedOnce(s.ingested);
    StreamedIsPrunedOnce(again);
    AllOfIsASet(s.ingested, again);
    assert again[..|s.ingested|] == s.ingested;
  }

  // ---- Draining --------------------------------------------------------------------------------

  function Pending(s: System): nat {
    |Stamps(s.worker, false)|
  }

  /** Batch sent, delivered, acknowledged, and the acknowledgement applied. */
  ghost function LosslessRound(s: System, records: seq<Record>): System {
    Next(Next(Next(s, Send(records)), Deliver(records)), Ack(Ids(Accepted(s.via, records))))
  }

  /** A lossless round takes min(100, pending) records off the queue. */
  lemma RoundDrains(s: System, records: seq<Record>)
    requires Inv(s) && IsBatch(s.worker, records)
    ensures Inv(LosslessRound(s, records))
    ensures Pending(LosslessRound(s, records)) == Pending(s) - Min(BATCH_LIMIT, Pending(s))
  {
    var sent := Next(s, Send(records));
    var delivered := Next(sent, Deliver(records));
    StepKeepsInv(s, Send(records));
    StepKeepsInv(sent, Deliver(records));
    StepKeepsInv(delivered, Ack(Ids(Accepted(s.via, records))));
    BatchIsAccepted(s, records);
    MarkingDrains(s.worker);
  }

  lemma BatchIsAccepted(s: System, records: seq<Record>)
    requires Inv(s) && IsBatch(s.worker, records)
    ensures Ids(Accepted(s.via, records)) == Batch(s.worker, BATCH_LIMIT) != {}
  {
    AcceptedAre(s.via, records);
    assert records[0].id in Ids(records);
  }

  lemma MarkingDrains(t: Table)
    requires |Stamps(t, false)| <= AUDIT_REPLICATION_QUEUE_LIMIT + AUDIT_LOCAL_DISPLAY_LIMIT
    ensures |Stamps(Marked(t, Batch(t, BATCH_LIMIT)), false)|
         == |Stamps(t, false)| - Min(BATCH_LIMIT, |Stamps(t, false)|)
  {
    var s, batch := Stamps(t, false), Batch(t, BATCH_LIMIT);
    var first := First(true, s, BATCH_LIMIT);
    FirstSize(true, s, BATCH_LIMIT);
    var marked: Table := map id | id in t :: if id in batch then t[id].(replicated := true) else t[id];
    forall x | x in s ensures x.id in batch <==> x in first {
      forall y | y in s && y.id == x.id ensures y == x {
        assert y == StampOf(t, y.id) && x == StampOf(t, x.id);
      }
    }
    forall x | x in s && x !in first ensures x in Stamps(marked, false) {
      assert StampOf(marked, x.id) == x;
    }
    forall x | x in Stamps(marked, false) ensures x in s {
      assert x == StampOf(t, x.id);
    }
    assert Stamps(marked, false) == s - first;
    PendingSurvivesExactly(marked);
  }

  ghost predicate GoodRounds(s: System, rounds: seq<seq<Record>>)
    decreases |rounds|
  {
    rounds != [] ==> IsBatch(s.worker, rounds[0]) && GoodRounds(LosslessRound(s, rounds[0]), rounds[1..])
  }

  ghost function AfterRounds(s: System, rounds: seq<seq<Record>>): System
    decreases |rounds|
  {
    if rounds == [] then s else AfterRounds(LosslessRound(s, rounds[0]), rounds[1..])
  }

  /** With no new records, n lossless rounds leave max(0, pending - 100 n). */
  lemma {:induction false} RoundsDrain(s: System, rounds: seq<seq<Record>>)
    requires Inv(s) && GoodRounds(s, rounds)
    ensures Pending(AfterRounds(s, rounds)) == Max(0, Pending(s) - 100 * |rounds|)
    decreases |rounds|
  {
    if rounds == [] {
    } else {
      RoundDrains(s, rounds[0]);
      RoundsDrain(LosslessRound(s, rounds[0]), rounds[1..]);
    }
  }

  /** And those rounds do happen: while anything is pending there is a batch to send,
      and after pending / 100 rounds, rounded up, nothing is pending. */
  lemma {:induction false} QueueEmpties(s: System) returns (rounds: seq<seq<Record>>)
    requires Inv(s)
    ensures GoodRounds(s, rounds) && |rounds| == (Pending(s) + 99) / 100
    ensures Pending(AfterRounds(s, rounds)) == 0
    decreases Pending(s)
  {
    if Pending(s) == 0 {
      rounds := [];
    } else {
      var records := BatchExists(s.worker, BATCH_LIMIT);
      RoundDrains(s, records);
      var rest := QueueEmpties(LosslessRound(s, records));
      rounds := [records] + rest;
      assert rounds[1..] == rest;
    }
  }
}
