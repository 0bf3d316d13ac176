/** The audit table: upsert, retention and the replication queue (src/state/audit.rs). */
module AuditStores {
  import opened Prelude
  import opened Text
  import opened Ranking
  import P = AuditPayloads

  const AUDIT_RETENTION_LIMIT: nat := 10_000
  const AUDIT_REPLICATION_QUEUE_LIMIT: nat := 10_000
  const AUDIT_LOCAL_DISPLAY_LIMIT: nat := 10_000

  /** The columns that are sanitised or attributed, and `rest` for all others. */
  datatype Body = Body(
    request: P.Json, response: P.Json, details: P.Json,
    origin: Option<string>, executor: Option<string>, rest: string)

  /** `replicated` is whether replicated_at_ms is set. */
  datatype Row = Row(at: nat, body: Body, replicated: bool)

  datatype Record = Record(id: string, row: Row)

  function Sanitized(body: Body): Body {
    body.(request := P.SanitizeAuditValue(body.request), response := P.SanitizeAuditValue(body.response),
          details := P.SanitizeAuditValue(body.details))
  }

  predicate Fits(v: P.Json) {
    P.Bytes(P.Serialized(P.RedactJson(v))) < P.USIZE_LIMIT
  }

  predicate BodyFits(body: Body) {
    Fits(body.request) && Fits(body.response) && Fits(body.details)
  }

  /** What was sanitised once is stored unchanged when it is recorded again elsewhere. */
  lemma SanitizedIsFixed(body: Body)
    requires BodyFits(body)
    ensures Sanitized(Sanitized(body)) == Sanitized(body)
  {
    P.SanitizeIsIdempotent(body.request);
    P.SanitizeIsIdempotent(body.response);
    P.SanitizeIsIdempotent(body.details);
  }

  /** What may be stored for a payload: nothing sensitive, at most 64 KiB, and the payload
      itself if it is like that already. */
  ghost predicate SafelyStored(given: P.Json, stored: P.Json) {
    && P.Clean(stored) && P.Bytes(P.Serialized(stored)) <= 65_536
    && (P.Clean(given) && P.Bytes(P.Serialized(given)) <= 65_536 ==> stored == given)
  }

  ghost predicate BodySafelyStored(given: Body, stored: Body) {
    && SafelyStored(given.request, stored.request) && SafelyStored(given.response, stored.response)
    && SafelyStored(given.details, stored.details)
    && stored == given.(request := stored.request, response := stored.response, details := stored.details)
  }

  lemma SanitizedIsSafelyStored(body: Body)
    requires BodyFits(body)
    ensures BodySafelyStored(body, Sanitized(body))
  {
    P.SanitizedIsSafe(body.request);
    P.SanitizedIsSafe(body.response);
    P.SanitizedIsSafe(body.details);
    P.SanitizeKeepsExactly(body.request);
    P.SanitizeKeepsExactly(body.response);
    P.SanitizeKeepsExactly(body.details);
  }

  /** No payload of the row has anything sensitive in it. */
  ghost predicate CleanBody(body: Body) {
    P.Clean(body.request) && P.Clean(body.response) && P.Clean(body.details)
  }

  lemma SanitizedIsCleanBody(body: Body)
    ensures CleanBody(Sanitized(body))
  {
    P.SanitizedIsClean(body.request);
    P.SanitizedIsClean(body.response);
    P.SanitizedIsClean(body.details);
  }

  type Table = map<string, Row>

  function StampOf(t: Table, id: string): Stamp
    requires id in t
  {
    Stamp(t[id].at, id)
  }

  function Stamps(t: Table, replicated: bool): set<Stamp> {
    set id | id in t && t[id].replicated == replicated :: StampOf(t, id)
  }

  /** The stamps that retention keeps: the newest replicated rows, and of the pending
      ones both the oldest (to send) and the newest (to show). */
  function Kept(t: Table, replicated: bool): set<Stamp> {
    if replicated then First(false, Stamps(t, true), AUDIT_RETENTION_LIMIT)
    else First(true, Stamps(t, false), AUDIT_REPLICATION_QUEUE_LIMIT)
         + First(false, Stamps(t, false), AUDIT_LOCAL_DISPLAY_LIMIT)
  }

  function Pruned(t: Table): Table {
    map id | id in t && StampOf(t, id) in Kept(t, t[id].replicated) :: t[id]
  }

  function Upserted(t: Table, r: Record): Table {
    t[r.id := r.row.(replicated := r.row.replicated || (r.id in t && t[r.id].replicated))]
  }

  function Recorded(t: Table, r: Record): Table {
    Pruned(Upserted(t, r))
  }

  function Marked(t: Table, ids: set<string>): Table {
    Pruned(map id | id in t :: if id in ids then t[id].(replicated := true) else t[id])
  }

  /** The ids of the next batch to send. */
  function Batch(t: Table, limit: nat): set<string> {
    set x | x in First(true, Stamps(t, false), limit) :: x.id
  }

  function Ids(records: seq<Record>): set<string> {
    set r | r in records :: r.id
  }

  function StampOfRecord(r: Record): Stamp {
    Stamp(r.row.at, r.id)
  }

  ghost predicate InOrder(records: seq<Record>) {
    forall i, j :: 0 <= i < j < |records| ==> Less(StampOfRecord(records[i]), StampOfRecord(records[j]))
  }

  /** The oldest pending records, up to `limit` of them, by time and id. */
  ghost predicate IsOldestPending(t: Table, limit: nat, records: seq<Record>) {
    && InOrder(records) && Ids(records) == Batch(t, limit)
    && forall r :: r in records ==> r.id in t && t[r.id] == r.row && !r.row.replicated
  }

  /** `records` are the first of the pending ones and `rest` has the stamps still to come. */
  ghost predicate Listed(t: Table, records: seq<Record>, rest: set<Stamp>) {
    && InOrder(records)
    && (forall x :: x in rest ==> x.id in t && StampOf(t, x.id) == x && !t[x.id].replicated)
    && (forall r :: r in records ==> r.id in t && t[r.id] == r.row && !r.row.replicated)
    && (forall r, x :: r in records && x in rest ==> Less(StampOfRecord(r), x))
  }

  lemma ListOneMore(t: Table, records: seq<Record>, rest: set<Stamp>, x: Stamp)
    requires Listed(t, records, rest) && x in rest && forall y :: y in rest && y != x ==> Less(x, y)
    ensures Listed(t, records + [Record(x.id, t[x.id])], rest - {x})
    ensures Ids(records + [Record(x.id, t[x.id])]) == Ids(records) + {x.id}
  {
    var longer := records + [Record(x.id, t[x.id])];
    assert longer[|records|].id == x.id;
    forall r | r in records ensures r in longer {
    }
  }

  lemma PendingListed(t: Table, limit: nat)
    ensures Listed(t, [], First(true, Stamps(t, false), limit))
  {
    forall x | x in First(true, Stamps(t, false), limit)
      ensures x.id in t && StampOf(t, x.id) == x && !t[x.id].replicated
    {
      assert x in Stamps(t, false);
    }
  }

  lemma HasFirst(s: set<Stamp>) returns (first: Stamp)
    requires s != {}
    ensures first in s && forall y :: y in s && y != first ==> Less(first, y)
  {
    first := HasLast(false, s);
  }

  class AuditStore {
    var rows: Table

    constructor ()
      ensures rows == map[]
    {
      rows := map[];
    }

    method PruneAuditRecords()
      modifies this
      ensures rows == Pruned(old(rows))
    {
      var replicated := First(false, Stamps(rows, true), AUDIT_RETENTION_LIMIT);
      rows := map id | id in rows && (rows[id].replicated ==> StampOf(rows, id) in replicated) :: rows[id];
      SameStamps(rows, old(rows), false);
      var queue := First(true, Stamps(rows, false), AUDIT_REPLICATION_QUEUE_LIMIT);
      var display := First(false, Stamps(rows, false), AUDIT_LOCAL_DISPLAY_LIMIT);
      rows := map id | id in rows && (!rows[id].replicated ==> StampOf(rows, id) in queue + display) :: rows[id];
    }

    /** A record without an id is given `newId`. */
    method RecordAudit(record: Record, newId: string) returns (stored: Record)
      requires !IsBlank(newId)
      modifies this
      ensures stored.id == (if IsBlank(record.id) then newId else record.id) && !IsBlank(stored.id)
      ensures stored.row == record.row.(body := Sanitized(record.row.body))
      ensures CleanBody(stored.row.body)
      ensures BodyFits(record.row.body) ==> BodySafelyStored(record.row.body, stored.row.body)
      ensures rows == Recorded(old(rows), stored)
    {
      SanitizedIsCleanBody(record.row.body);
      if BodyFits(record.row.body) {
        SanitizedIsSafelyStored(record.row.body);
      }
      var sanitized := record.(row := record.row.(body := Sanitized(record.row.body)));
      stored := if IsBlank(record.id) then sanitized.(id := newId) else sanitized;
      var replicated := stored.row.replicated || (stored.id in rows && rows[stored.id].replicated);
      rows := rows[stored.id := stored.row.(replicated := replicated)];
      PruneAuditRecords();
    }

    method UnreplicatedAuditRecords(limit: nat) returns (records: seq<Record>)
      ensures IsOldestPending(rows, limit, records)
    {
      records := [];
      var rest := First(true, Stamps(rows, false), limit);
      PendingListed(rows, limit);
      while rest != {}
        invariant Listed(rows, records, rest)
        invariant Ids(records) + (set x | x in rest :: x.id) == Batch(rows, limit)
        decreases |rest|
      {
        ghost var first := HasFirst(rest);
        var x :| x in rest && forall y :: y in rest && y != x ==> Less(x, y);
        ListOneMore(rows, records, rest, x);
        records := records + [Record(x.id, rows[x.id])];
        rest := rest - {x};
      }
    }

    method MarkAuditReplicated(ids: set<string>)
      modifies this
      ensures ids != {} ==> rows == Marked(old(rows), ids)
      ensures ids == {} ==> rows == old(rows)
    {
      if ids == {} {
        return;
      }
      rows := map id | id in rows :: if id in ids then rows[id].(replicated := true) else rows[id];
      PruneAuditRecords();
    }

    method IngestReplicatedAudit(record: Record, newId: string) returns (stored: Record)
      requires !IsBlank(newId)
      modifies this
      ensures stored.id == (if IsBlank(record.id) then newId else record.id)
      ensures rows == Recorded(old(rows), Record(stored.id, Row(record.row.at, Sanitized(record.row.body), true)))
    {
      stored := RecordAudit(record.(row := record.row.(replicated := true)), newId);
    }
  }

  // ---- Retention, row by row ----------------------------------------------------------

  /** Row `a` comes before row `b`: it is older, or as old with a smaller id. */
  predicate Older(t: Table, a: string, b: string)
    requires a in t && b in t
  {
    t[a].at < t[b].at || (t[a].at == t[b].at && StringLess(a, b))
  }

  function OlderRows(t: Table, id: string, replicated: bool): set<string>
    requires id in t
  {
    set a | a in t && t[a].replicated == replicated && Older(t, a, id)
  }

  function NewerRows(t: Table, id: string, replicated: bool): set<string>
    requires id in t
  {
    set b | b in t && t[b].replicated == replicated && Older(t, id, b)
  }

  lemma {:induction false} SameSize(ids: set<string>, stamps: set<Stamp>)
    requires forall x :: x in stamps ==> x.id in ids
    requires forall id :: id in ids ==> exists x :: x in stamps && x.id == id
    requires forall x, y :: x in stamps && y in stamps && x.id == y.id ==> x == y
    ensures |ids| == |stamps|
    decreases |stamps|
  {
    if stamps == {} {
    } else {
      var x :| x in stamps;
      forall id | id in ids - {x.id} ensures exists y :: y in stamps - {x} && y.id == id {
        var y :| y in stamps && y.id == id;
      }
      SameSize(ids - {x.id}, stamps - {x});
    }
  }

  lemma RanksAreRows(t: Table, id: string)
    requires id in t
    ensures var replicated := t[id].replicated;
            && |OlderRows(t, id, replicated)| == |Preceding(true, Stamps(t, replicated), StampOf(t, id))|
            && |NewerRows(t, id, replicated)| == |Preceding(false, Stamps(t, replicated), StampOf(t, id))|
  {
    var replicated := t[id].replicated;
    var s, x := Stamps(t, replicated), StampOf(t, id);
    assert forall y :: y in s ==> y.id in t && y == StampOf(t, y.id);
    forall a | a in OlderRows(t, id, replicated) ensures exists y :: y in Preceding(true, s, x) && y.id == a {
      assert StampOf(t, a) in Preceding(true, s, x);
    }
    SameSize(OlderRows(t, id, replicated), Preceding(true, s, x));
    forall b | b in NewerRows(t, id, replicated) ensures exists y :: y in Preceding(false, s, x) && y.id == b {
      assert StampOf(t, b) in Preceding(false, s, x);
    }
    SameSize(NewerRows(t, id, replicated), Preceding(false, s, x));
  }

  /** Which rows pruning keeps, said of the rows alone: a replicated one with fewer than
      10,000 newer replicated ones, and a pending one with fewer than 10,000 older or
      fewer than 10,000 newer pending ones. It changes none of them. */
  lemma PrunedExactly(t: Table, id: string)
    ensures id in Pruned(t) <==>
              && id in t
              && (if t[id].replicated then |NewerRows(t, id, true)| < 10_000
                  else |OlderRows(t, id, false)| < 10_000 || |NewerRows(t, id, false)| < 10_000)
    ensures id in Pruned(t) ==> Pruned(t)[id] == t[id]
  {
    if id in t {
      RanksAreRows(t, id);
      assert StampOf(t, id) in Stamps(t, t[id].replicated);
    }
  }

  /** The next batch, said of the rows alone: oldest first, as many pending rows as there
      are and may be sent, and none that is left out comes before one that is not. */
  lemma OldestPendingMeans(t: Table, limit: nat, records: seq<Record>)
    requires IsOldestPending(t, limit, records)
    ensures forall i, j :: 0 <= i < j < |records| ==> Older(t, records[i].id, records[j].id)
    ensures |Ids(records)| == Min(limit, |set id | id in t && !t[id].replicated|)
    ensures forall id, r :: id in t && !t[id].replicated && id !in Ids(records) && r in records ==> Older(t, r.id, id)
  {
    var s := Stamps(t, false);
    var pending := set id | id in t && !t[id].replicated;
    assert forall x :: x in s ==> x.id in t && x == StampOf(t, x.id);
    assert forall r :: r in records ==> r.id in t && StampOfRecord(r) == StampOf(t, r.id);
    forall id | id in pending ensures exists x :: x in s && x.id == id {
      assert StampOf(t, id) in s;
    }
    SameSize(pending, s);
    FirstSize(true, s, limit);
    SameSize(Ids(records), First(true, s, limit));
    forall id, r | id in pending && id !in Ids(records) && r in records ensures Older(t, r.id, id) {
      var x := StampOf(t, id);
      assert x in s && x !in First(true, s, limit);
      OthersComeAfter(true, s, limit, x);
      assert r.id in Ids(records);
      var y :| y in First(true, s, limit) && y.id == r.id;
    }
  }

  // ---- Pruning as you go is pruning once ---------------------------------------------

  ghost predicate Within(k: Table, t: Table) {
    forall id :: id in k ==> id in t && k[id] == t[id]
  }

  lemma StampsWithin(k: Table, t: Table, replicated: bool)
    requires Within(k, t)
    ensures Stamps(k, replicated) <= Stamps(t, replicated)
  {
    forall x | x in Stamps(k, replicated) ensures x in Stamps(t, replicated) {
      assert x == StampOf(t, x.id);
    }
  }

  /** A part of the table that still has all that is kept of the whole prunes alike. */
  lemma PruneSqueeze(k: Table, t: Table)
    requires Within(k, t) && forall id :: id in Pruned(t) ==> id in k
    ensures Pruned(k) == Pruned(t)
  {
    forall replicated: bool ensures Kept(k, replicated) == Kept(t, replicated) {
      var s, part := Stamps(t, replicated), Stamps(k, replicated);
      StampsWithin(k, t, replicated);
      forall x | x in Kept(t, replicated) ensures x in part {
        assert x.id in Pruned(t) && StampOf(k, x.id) == x;
      }
      if replicated {
        FirstSqueeze(false, s, part, AUDIT_RETENTION_LIMIT);
      } else {
        FirstSqueeze(true, s, part, AUDIT_REPLICATION_QUEUE_LIMIT);
        FirstSqueeze(false, s, part, AUDIT_LOCAL_DISPLAY_LIMIT);
      }
    }
  }

  lemma SameStamps(k: Table, t: Table, replicated: bool)
    requires Within(k, t) && forall id :: id in t && t[id].replicated == replicated ==> id in k
    ensures Stamps(k, replicated) == Stamps(t, replicated)
  {
    StampsWithin(k, t, replicated);
    forall x | x in Stamps(t, replicated) ensures x in Stamps(k, replicated) {
      assert x == StampOf(k, x.id);
    }
  }

  lemma StampsOneMore(t: Table, id: string, row: Row, replicated: bool)
    requires id in t ==> t[id] == row
    ensures row.replicated == replicated ==>
              Stamps(t[id := row], replicated) == Stamps(t, replicated) + {Stamp(row.at, id)}
    ensures row.replicated != replicated ==> Stamps(t[id := row], replicated) == Stamps(t, replicated)
  {
    var after := t[id := row];
    StampsWithin(t, after, replicated);
    if row.replicated == replicated {
      assert StampOf(after, id) == Stamp(row.at, id);
    }
    forall x | x in Stamps(after, replicated) && x.id != id ensures x in Stamps(t, replicated) {
      assert StampOf(t, x.id) == x;
    }
  }

  lemma KeptAfterOneMore(t: Table, id: string, row: Row)
    requires id in t ==> t[id] == row
    ensures Kept(t[id := row], row.replicated) <= Kept(t, row.replicated) + {Stamp(row.at, id)}
    ensures Kept(t[id := row], !row.replicated) == Kept(t, !row.replicated)
  {
    var x := Stamp(row.at, id);
    StampsOneMore(t, id, row, true);
    StampsOneMore(t, id, row, false);
    if row.replicated {
      FirstOneMore(false, Stamps(t, true), x, AUDIT_RETENTION_LIMIT);
    } else {
      FirstOneMore(true, Stamps(t, false), x, AUDIT_REPLICATION_QUEUE_LIMIT);
      FirstOneMore(false, Stamps(t, false), x, AUDIT_LOCAL_DISPLAY_LIMIT);
    }
  }

  /** An insert into the pruned table ends where an insert into the full one would. */
  lemma PruneThenInsert(t: Table, id: string, row: Row)
    requires id in t ==> t[id] == row
    ensures Pruned(Pruned(t)[id := row]) == Pruned(t[id := row])
  {
    KeptAfterOneMore(t, id, row);
    PruneSqueeze(Pruned(t)[id := row], t[id := row]);
  }

  /** What is inserted under one id is always the same row. */
  ghost predicate Steady(history: seq<Record>) {
    forall a, b :: a in history && b in history && a.id == b.id ==> a == b
  }

  function AllOf(history: seq<Record>): Table {
    if history == [] then map[]
    else
      var last := history[|history| - 1];
      AllOf(history[..|history| - 1])[last.id := last.row]
  }

  function Streamed(history: seq<Record>): Table {
    if history == [] then map[] else Recorded(Streamed(history[..|history| - 1]), history[|history| - 1])
  }

  lemma {:induction false} AllOfIs(history: seq<Record>)
    requires Steady(history)
    ensures forall r :: r in history ==> r.id in AllOf(history) && AllOf(history)[r.id] == r.row
    ensures forall id :: id in AllOf(history) ==> Record(id, AllOf(history)[id]) in history
  {
    if history == [] {
    } else {
      var front, last := history[..|history| - 1], history[|history| - 1];
      assert history == front + [last];
      AllOfIs(front);
    }
  }

  /** Pruning after every insert leaves what pruning the whole history once would
      leave, whatever the order of arrival and however often records are repeated. */
  lemma {:induction false} StreamedIsPrunedOnce(history: seq<Record>)
    requires Steady(history)
    ensures Streamed(history) == Pruned(AllOf(history))
  {
    if history != [] {
      var front, last := history[..|history| - 1], history[|history| - 1];
      assert history == front + [last];
      StreamedIsPrunedOnce(front);
      AllOfIs(front);
      PruneThenInsert(AllOf(front), last.id, last.row);
      assert Upserted(Streamed(front), last) == Streamed(front)[last.id := last.row];
    } else {
      assert Pruned(map[]) == map[];
    }
  }

  lemma AllOfIsASet(one: seq<Record>, other: seq<Record>)
    requires Steady(one) && Steady(other)
    requires forall r :: r in one <==> r in other
    ensures AllOf(one) == AllOf(other)
  {
    AllOfIs(one);
    AllOfIs(other);
    forall id | id in AllOf(one) ensures id in AllOf(other) && AllOf(other)[id] == AllOf(one)[id] {
      assert Record(id, AllOf(one)[id]) in other;
    }
    forall id | id in AllOf(other) ensures id in AllOf(one) {
      assert Record(id, AllOf(other)[id]) in one;
    }
  }

  /** So the order in which records arrive does not matter. */
  lemma ArrivalOrderIsIrrelevant(one: seq<Record>, other: seq<Record>)
    requires Steady(one) && Steady(other)
    requires forall r :: r in one <==> r in other
    ensures Streamed(one) == Streamed(other)
  {
    StreamedIsPrunedOnce(one);
    StreamedIsPrunedOnce(other);
    AllOfIsASet(one, other);
  }

  // ---- Marks are never lost ---------------------------------------------------------------

  /** Recording replaces the row of that id and no other, and a mark that was there
      stays: the columns are the new ones, the row is replicated if either was. */
  lemma RecordedRows(t: Table, r: Record, id: string)
    ensures id in Recorded(t, r) ==>
              if id == r.id then
                var marked := r.row.replicated || (id in t && t[id].replicated);
                Recorded(t, r)[id] == Row(r.row.at, r.row.body, marked)
              else id in t && Recorded(t, r)[id] == t[id]
  {
  }

  lemma MarkedRows(t: Table, ids: set<string>, id: string)
    ensures id in Marked(t, ids) ==>
              id in t && Marked(t, ids)[id] == Row(t[id].at, t[id].body, t[id].replicated || id in ids)
  {
  }

  datatype Change = Recording(r: Record) | Marking(ids: set<string>)

  function Changed(t: Table, c: Change): Table {
    match c
    case Recording(r) => Recorded(t, r)
    case Marking(ids) => if ids == {} then t else Marked(t, ids)
  }

  function ChangedAll(t: Table, changes: seq<Change>): Table
    decreases |changes|
  {
    if changes == [] then t else ChangedAll(Changed(t, changes[0]), changes[1..])
  }

  ghost predicate HeldThroughout(t: Table, changes: seq<Change>, id: string)
    decreases |changes|
  {
    id in t && (changes != [] ==> HeldThroughout(Changed(t, changes[0]), changes[1..], id))
  }

  /** As long as a row is held, and whatever is recorded under its id, it is never sent a
      second time once it was marked. */
  lemma {:induction false} MarkStays(t: Table, changes: seq<Change>, id: string)
    requires HeldThroughout(t, changes, id) && t[id].replicated
    ensures id in ChangedAll(t, changes) && ChangedAll(t, changes)[id].replicated
    decreases |changes|
  {
    if changes == [] {
    } else {
      var next := Changed(t, changes[0]);
      match changes[0] {
        case Recording(r) => RecordedRows(t, r, id);
        case Marking(ids) => MarkedRows(t, ids, id);
      }
      MarkStays(next, changes[1..], id);
    }
  }

  // ---- What retention never takes away ---------------------------------------------

  lemma PrunedStamps(t: Table, replicated: bool)
    ensures Stamps(Pruned(t), replicated) == Kept(t, replicated)
  {
    forall x | x in Kept(t, replicated) ensures x in Stamps(Pruned(t), replicated) {
      assert StampOf(Pruned(t), x.id) == x;
    }
  }

  /** Pruning loses pending records if and only if more than 20,000 are pending. */
  lemma PendingSurvivesExactly(t: Table)
    ensures Stamps(Pruned(t), false) == Stamps(t, false)
            <==> |Stamps(t, false)| <= AUDIT_REPLICATION_QUEUE_LIMIT + AUDIT_LOCAL_DISPLAY_LIMIT
  {
    PrunedStamps(t, false);
    BothEndsCover(Stamps(t, false), AUDIT_REPLICATION_QUEUE_LIMIT, AUDIT_LOCAL_DISPLAY_LIMIT);
  }

  /** No prune changes which records are sent next. */
  lemma PruneKeepsBatch(t: Table, limit: nat)
    requires limit <= AUDIT_REPLICATION_QUEUE_LIMIT
    ensures Batch(Pruned(t), limit) == Batch(t, limit)
  {
    var s := Stamps(t, false);
    PrunedStamps(t, false);
    FirstGrows(true, s, limit, AUDIT_REPLICATION_QUEUE_LIMIT);
    FirstSqueeze(true, s, Kept(t, false), limit);
  }

  lemma {:induction false} ListAll(t: Table, records: seq<Record>, rest: set<Stamp>) returns (all: seq<Record>)
    requires Listed(t, records, rest)
    ensures Listed(t, all, {}) && Ids(all) == Ids(records) + set x | x in rest :: x.id
    decreases |rest|
  {
    if rest == {} {
      all := records;
    } else {
      var x := HasFirst(rest);
      ListOneMore(t, records, rest, x);
      all := ListAll(t, records + [Record(x.id, t[x.id])], rest - {x});
    }
  }

  /** As long as anything is pending there is a next batch, and it is not empty. */
  lemma BatchExists(t: Table, limit: nat) returns (records: seq<Record>)
    ensures IsOldestPending(t, limit, records)
    ensures limit > 0 && Stamps(t, false) != {} ==> records != []
  {
    PendingListed(t, limit);
    records := ListAll(t, [], First(true, Stamps(t, false), limit));
    FirstSize(true, Stamps(t, false), limit);
    if limit > 0 && Stamps(t, false) != {} {
      var x :| x in First(true, Stamps(t, false), limit);
      assert x.id in Ids(records);
    }
  }
}
