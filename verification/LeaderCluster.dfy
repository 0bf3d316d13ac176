/** Worker connections and remote requests on the leader (src/cluster/leader.rs). */
module LeaderClusters {
  import opened Prelude
  import opened Text
  import RunCollectors
  import RunTransitions

  const AGENT_PROTOCOL_VERSION: nat := 2

  /** The tasks of a worker's sessions as it last reported them. */
  type Sessions = seq<RunTransitions.Sample>

  datatype Hello = Hello(protocol: nat, nodeId: string, name: string, token: Option<string>)

  datatype Worker = Worker(
    name: string, online: bool, lastSeenMs: nat, inventory: Sessions,
    sender: Option<nat>, connectionId: Option<string>)

  datatype ConnectError = Rejected | AlreadyConnected

  type Workers = map<string, Worker>

  predicate HelloOk(enrollmentToken: Option<string>, h: Hello) {
    && h.protocol == AGENT_PROTOCOL_VERSION && !IsBlank(h.nodeId) && !IsBlank(h.name)
    && (enrollmentToken.Some? ==> h.token == enrollmentToken)
  }

  predicate Online(workers: Workers, node: string) {
    node in workers && workers[node].online
  }

  function InventoryOf(workers: Workers, node: string): Sessions {
    if node in workers then workers[node].inventory else []
  }

  function Connected(workers: Workers, h: Hello, channel: nat, connection: string, now: nat): Workers {
    workers[h.nodeId := Worker(h.name, true, now, InventoryOf(workers, h.nodeId), Some(channel), Some(connection))]
  }

  function Disconnected(workers: Workers, node: string, connection: string): Workers {
    if node in workers && workers[node].connectionId == Some(connection)
    then workers[node := workers[node].(online := false, sender := None, connectionId := None)]
    else workers
  }

  /** A worker is online, has a sender and has a connection id, or none of the three. */
  predicate ConnectionOk(w: Worker) {
    (w.online <==> w.sender.Some?) && (w.online <==> w.connectionId.Some?)
  }

  ghost predicate WorkersOk(workers: Workers) {
    forall node :: node in workers ==> ConnectionOk(workers[node])
  }

  class LeaderCluster {
    const enrollmentToken: Option<string>
    var workers: Workers
    var pending: set<string>

    /** Known workers are loaded as offline, with the inventory they had. */
    constructor (token: Option<string>, known: map<string, (string, nat, Sessions)>)
      ensures enrollmentToken == token && pending == {} && WorkersOk(workers)
      ensures workers.Keys == known.Keys
      ensures IsStart(System(workers, pending, map[], map[], {}))
      ensures forall node :: node in known ==>
                workers[node].name == known[node].0 && workers[node].lastSeenMs == known[node].1
                && workers[node].inventory == known[node].2
    {
      enrollmentToken := token;
      pending := {};
      workers := map node | node in known :: Worker(known[node].0, false, known[node].1, known[node].2, None, None);
    }

    method ConnectWorker(h: Hello, channel: nat, connection: string, now: nat)
      returns (r: Result<(string, string), ConnectError>)
      modifies this`workers
      ensures r.Ok? <==> HelloOk(enrollmentToken, h) && !Online(old(workers), h.nodeId)
      ensures r.Ok? ==>
                r.value == (h.nodeId, connection) && workers == Connected(old(workers), h, channel, connection, now)
      ensures r.Err? ==> workers == old(workers)
      ensures r.Err? ==> (r.error.Rejected? <==> !HelloOk(enrollmentToken, h))
      ensures r == Err(Rejected) <==>
                || h.protocol != 2 || OnlyBlanks(h.nodeId) || OnlyBlanks(h.name)
                || (enrollmentToken != None && h.token != enrollmentToken)
      ensures r == Err(AlreadyConnected) ==> h.nodeId in workers && workers[h.nodeId].online
      ensures r.Ok? ==>
                && h.nodeId in workers
                && var w := workers[h.nodeId];
                   && w.name == h.name && w.online && w.lastSeenMs == now
                   && w.sender == Some(channel) && w.connectionId == Some(connection)
                   && w.inventory == (if h.nodeId in old(workers) then old(workers)[h.nodeId].inventory else [])
      ensures forall node :: node != h.nodeId ==>
                (node in workers <==> node in old(workers))
                && (node in workers ==> workers[node] == old(workers)[node])
      ensures WorkersOk(old(workers)) ==> WorkersOk(workers)
    {
      BlankExactly(h.nodeId);
      BlankExactly(h.name);
      if !HelloOk(enrollmentToken, h) {
        return Err(Rejected);
      }
      if h.nodeId in workers && workers[h.nodeId].online {
        return Err(AlreadyConnected);
      }
      var inventory := if h.nodeId in workers then workers[h.nodeId].inventory else [];
      workers := workers[h.nodeId := Worker(h.name, true, now, inventory, Some(channel), Some(connection))];
      return Ok((h.nodeId, connection));
    }

    method ForgetWorker(node: string) returns (sender: Option<nat>)
      modifies this`workers
      ensures workers == old(workers) - {node}
      ensures sender == if node in old(workers) then old(workers)[node].sender else None
    {
      sender := if node in workers then workers[node].sender else None;
      workers := workers - {node};
    }

    method DisconnectWorker(node: string, connection: string)
      modifies this`workers
      ensures workers == Disconnected(old(workers), node, connection)
      ensures WorkersOk(old(workers)) ==> WorkersOk(workers)
    {
      if node in workers {
        if workers[node].connectionId == Some(connection) {
          workers := workers[node := workers[node].(online := false, sender := None, connectionId := None)];
        }
      }
    }

    /** What changed since the inventory it replaces is reported. */
    method UpdateInventory(node: string, sessions: Sessions, now: nat)
      returns (ok: bool, transitions: seq<RunTransitions.Transition>)
      modifies this`workers
      ensures ok <==> node in old(workers)
      ensures workers == if ok then old(workers)[node := old(workers)[node].(lastSeenMs := now, inventory := sessions)]
                         else old(workers)
      ensures transitions == if ok then
                               RunCollectors.Compared(RunCollectors.Index(old(workers)[node].inventory), sessions)
                             else []
      ensures WorkersOk(old(workers)) ==> WorkersOk(workers)
    {
      if node !in workers {
        return false, [];
      }
      transitions := RunCollectors.CollectInventoryTransitions(workers[node].inventory, sessions);
      workers := workers[node := workers[node].(lastSeenMs := now, inventory := sessions)];
      ok := true;
    }

    method Heartbeat(node: string, timestampMs: nat, now: nat)
      modifies this`workers
      ensures workers == if node in old(workers)
                         then old(workers)[node := old(workers)[node].(lastSeenMs := Max(timestampMs, now))]
                         else old(workers)
      ensures WorkersOk(old(workers)) ==> WorkersOk(workers)
    {
      if node in workers {
        workers := workers[node := workers[node].(lastSeenMs := Max(timestampMs, now))];
      }
    }

    method ResolveResult(id: string) returns (delivered: bool)
      modifies this`pending
      ensures delivered <==> id in old(pending)
      ensures pending == old(pending) - {id}
    {
      delivered := id in pending;
      pending := pending - {id};
    }
  }

  // ---- Connections and requests together ----------------------------------------------------

  datatype Answer = NotSent | SendFailed | Reply(response: string) | TimedOut

  /** A request's own progress. `Expired` has decided on a timeout and not yet cleaned up. */
  datatype Phase = Chosen | Registered | Waiting | Expired | Answered(answer: Answer)

  /** `mail` holds responses handed over and not read; `used` every connection id ever issued. */
  datatype System = System(
    workers: Workers, pending: set<string>, requests: map<string, Phase>, mail: map<string, string>, used: set<string>)

  datatype Event =
    | Connect(h: Hello, channel: nat, connection: string, now: nat)
    | Disconnect(node: string, connection: string)
    | Forget(node: string)
    | Inventory(node: string, sessions: Sessions, now: nat)
    | Beat(node: string, timestampMs: nat, now: nat)
    | Begin(node: string, id: string)
    | Register(id: string)
    | Sent(id: string, ok: bool)
    | Resolve(id: string, response: string)
    | Read(id: string)
    | Expire(id: string)
    | GiveUp(id: string)

  predicate InPhase(s: System, id: string, phase: Phase) {
    id in s.requests && s.requests[id] == phase
  }

  /** A send may finish at any time here; when it can is the subject of `LeaderQueues`. */
  predicate Enabled(token: Option<string>, s: System, e: Event) {
    match e
    case Connect(h, _, connection, _) => HelloOk(token, h) && !Online(s.workers, h.nodeId) && connection !in s.used
    case Disconnect(_, connection) => connection in s.used
    case Inventory(node, _, _) => node in s.workers
    case Beat(node, _, _) => node in s.workers
    case Begin(_, id) => id !in s.requests && id !in s.pending
    case Register(id) => InPhase(s, id, Chosen)
    case Sent(id, _) => InPhase(s, id, Registered)
    case Read(id) => InPhase(s, id, Waiting) && id in s.mail
    case Expire(id) => InPhase(s, id, Waiting) && id !in s.mail
    case GiveUp(id) => InPhase(s, id, Expired)
    case _ => true
  }

  function Next(s: System, e: Event): System {
    match e
    case Connect(h, channel, connection, now) =>
      s.(workers := Connected(s.workers, h, channel, connection, now), used := s.used + {connection})
    case Disconnect(node, connection) => s.(workers := Disconnected(s.workers, node, connection))
    case Forget(node) => s.(workers := s.workers - {node})
    case Inventory(node, sessions, now) =>
      if node in s.workers
      then s.(workers := s.workers[node := s.workers[node].(lastSeenMs := now, inventory := sessions)]) else s
    case Beat(node, timestampMs, now) =>
      if node in s.workers
      then s.(workers := s.workers[node := s.workers[node].(lastSeenMs := Max(timestampMs, now))]) else s
    case Begin(node, id) =>
      s.(requests := s.requests[id := if Online(s.workers, node) && s.workers[node].sender.Some?
                                      then Chosen else Answered(NotSent)])
    case Register(id) => s.(pending := s.pending + {id}, requests := s.requests[id := Registered])
    case Sent(id, ok) =>
      if ok then s.(requests := s.requests[id := Waiting])
      else s.(requests := s.requests[id := Answered(SendFailed)], pending := s.pending - {id})
    case Resolve(id, response) =>
      if id in s.pending then s.(pending := s.pending - {id}, mail := s.mail[id := response]) else s
    case Read(id) =>
      if id in s.mail then s.(requests := s.requests[id := Answered(Reply(s.mail[id]))]) else s
    case Expire(id) => s.(requests := s.requests[id := Expired])
    case GiveUp(id) => s.(requests := s.requests[id := Answered(TimedOut)], pending := s.pending - {id})
  }

  /** Registered and neither answered nor handed a response. */
  predicate Outstanding(s: System, id: string) {
    && id in s.requests && id !in s.mail
    && (s.requests[id].Registered? || s.requests[id].Waiting? || s.requests[id].Expired?)
  }

  ghost predicate ConnectionsOk(s: System) {
    && WorkersOk(s.workers)
    && (forall node :: node in s.workers && s.workers[node].connectionId.Some? ==>
          s.workers[node].connectionId.value in s.used)
    && (forall a, b :: a in s.workers && b in s.workers && a != b && s.workers[a].connectionId.Some? ==>
          s.workers[a].connectionId != s.workers[b].connectionId)
  }

  ghost predicate RequestsOk(s: System) {
    && (forall id :: id in s.pending <==> Outstanding(s, id))
    && (forall id :: id in s.mail ==> id in s.requests && !s.requests[id].Chosen?)
    && (forall id :: id in s.requests && s.requests[id].Answered? && s.requests[id].answer.Reply? ==>
          id in s.mail && s.mail[id] == s.requests[id].answer.response)
  }

  ghost predicate Inv(s: System) {
    ConnectionsOk(s) && RequestsOk(s)
  }

  lemma StepKeepsConnections(token: Option<string>, s: System, e: Event)
    requires ConnectionsOk(s) && Enabled(token, s, e)
    ensures ConnectionsOk(Next(s, e))
  {
  }

  lemma StepKeepsRequests(token: Option<string>, s: System, e: Event)
    requires RequestsOk(s) && Enabled(token, s, e)
    ensures RequestsOk(Next(s, e))
  {
  }

  lemma StepKeepsInv(token: Option<string>, s: System, e: Event)
    requires Inv(s) && Enabled(token, s, e)
    ensures Inv(Next(s, e))
  {
    StepKeepsConnections(token, s, e);
    StepKeepsRequests(token, s, e);
  }

  ghost predicate Possible(token: Option<string>, s: System, events: seq<Event>)
    decreases |events|
  {
    events != [] ==> Enabled(token, s, events[0]) && Possible(token, Next(s, events[0]), events[1..])
  }

  function After(s: System, events: seq<Event>): System
    decreases |events|
  {
    if events == [] then s else After(Next(s, events[0]), events[1..])
  }

  /** In every reachable state: online, sender and connection id go together, and the
      pending table holds exactly the requests that can still be answered by a result. */
  lemma {:induction false} RunKeepsInv(token: Option<string>, s: System, events: seq<Event>)
    requires Inv(s) && Possible(token, s, events)
    ensures Inv(After(s, events))
    decreases |events|
  {
    if events == [] {
    } else {
      StepKeepsInv(token, s, events[0]);
      RunKeepsInv(token, Next(s, events[0]), events[1..]);
    }
  }

  /** What the constructor leaves: known workers, none of them connected. */
  ghost predicate IsStart(s: System) {
    && s == System(s.workers, {}, map[], map[], {})
    && forall node :: node in s.workers ==>
         !s.workers[node].online && s.workers[node].sender.None? && s.workers[node].connectionId.None?
  }

  /** So in every state that a new leader can reach. */
  lemma EveryRunKeepsInv(token: Option<string>, s: System, events: seq<Event>)
    requires IsStart(s) && Possible(token, s, events)
    ensures Inv(After(s, events))
  {
    RunKeepsInv(token, s, events);
  }

  /** An answer is given once and for all. */
  lemma {:induction false} AnswersAreFinal(token: Option<string>, s: System, events: seq<Event>, id: string)
    requires Possible(token, s, events) && id in s.requests && s.requests[id].Answered?
    ensures InPhase(After(s, events), id, s.requests[id])
    decreases |events|
  {
    if events == [] {
    } else {
      AnswersAreFinal(token, Next(s, events[0]), events[1..], id);
    }
  }

  /** A waiting request always has a way out that its own phase allows: a response to
      read, or a place in the pending table until it times out. The branch that reports
      a cancelled command (response channel closed without a response) is unreachable. */
  lemma WaitingIsPendingOrHasMail(token: Option<string>, s: System, events: seq<Event>, id: string)
    requires Inv(s) && Possible(token, s, events)
    requires var t := After(s, events); id in t.requests && (t.requests[id].Waiting? || t.requests[id].Registered?)
    ensures var t := After(s, events); (id in t.pending) != (id in t.mail)
    ensures InPhase(After(s, events), id, Waiting) ==>
              Enabled(token, After(s, events), Read(id)) != Enabled(token, After(s, events), Expire(id))
  {
    RunKeepsInv(token, s, events);
  }

  /** Steps that a request still has before it. */
  function StepsLeft(s: System, id: string): nat {
    if id !in s.requests then 5
    else match s.requests[id]
         case Chosen => 4
         case Registered => 3
         case Waiting => 2
         case Expired => 1
         case Answered(_) => 0
  }

  /** The steps that only the request itself takes. */
  predicate Own(e: Event, id: string) {
    match e
    case Register(i) => i == id
    case Sent(i, _) => i == id
    case Read(i) => i == id
    case Expire(i) => i == id
    case GiveUp(i) => i == id
    case _ => false
  }

  function OwnSteps(events: seq<Event>, id: string): nat {
    if events == [] then 0 else (if Own(events[0], id) then 1 else 0) + OwnSteps(events[1..], id)
  }

  lemma NothingSetsBack(token: Option<string>, s: System, e: Event, id: string)
    requires Enabled(token, s, e) && id in s.requests
    ensures id in Next(s, e).requests
    ensures StepsLeft(Next(s, e), id) + (if Own(e, id) then 1 else 0) <= StepsLeft(s, id)
  {
  }

  /** Over any run, each step of its own takes a request closer to its answer, and no
      other step sets it back: it is answered by the fourth at the latest. */
  lemma {:induction false} OwnStepsLead(token: Option<string>, s: System, events: seq<Event>, id: string)
    requires Possible(token, s, events) && id in s.requests
    ensures id in After(s, events).requests
    ensures StepsLeft(After(s, events), id) + OwnSteps(events, id) <= StepsLeft(s, id)
    ensures OwnSteps(events, id) >= 4 ==> After(s, events).requests[id].Answered?
    decreases |events|
  {
    if events == [] {
    } else {
      NothingSetsBack(token, s, events[0], id);
      OwnStepsLead(token, Next(s, events[0]), events[1..], id);
    }
  }

  /** The first result for a request is the one it reads; later ones are dropped. */
  lemma {:induction false} FirstResultWins(token: Option<string>, s: System, events: seq<Event>, id: string)
    requires Inv(s) && Possible(token, s, events) && id in s.mail
    ensures var t := After(s, events);
            && id in t.mail && t.mail[id] == s.mail[id]
            && (id in t.requests && t.requests[id].Answered? && t.requests[id].answer.Reply? ==>
                  t.requests[id].answer.response == s.mail[id])
    decreases |events|
  {
    if events == [] {
    } else {
      StepKeepsInv(token, s, events[0]);
      FirstResultWins(token, Next(s, events[0]), events[1..], id);
    }
  }

  /** A request is refused at once if and only if its node has no connection, and then
      for good: over any run it keeps that answer and is never pending. */
  lemma RefusedForGood(token: Option<string>, s: System, node: string, id: string, events: seq<Event>)
    requires Inv(s) && Enabled(token, s, Begin(node, id)) && Possible(token, Next(s, Begin(node, id)), events)
    ensures if node in s.workers && s.workers[node].connectionId.Some? then
              InPhase(Next(s, Begin(node, id)), id, Chosen)
            else
              var after := After(Next(s, Begin(node, id)), events);
              InPhase(after, id, Answered(NotSent)) && id !in after.pending
  {
    var begun := Next(s, Begin(node, id));
    StepKeepsInv(token, s, Begin(node, id));
    if begun.requests[id].Answered? {
      RunKeepsInv(token, begun, events);
      AnswersAreFinal(token, begun, events, id);
    }
  }

  /** A disconnect with an old connection id changes nothing, and one with the current
      id takes exactly that worker offline and keeps its inventory. */
  lemma DisconnectIsExact(s: System, node: string, connection: string)
    requires Inv(s)
    ensures var after := Disconnected(s.workers, node, connection);
            if node in s.workers && s.workers[node].connectionId == Some(connection)
            then after.Keys == s.workers.Keys && !Online(after, node)
                 && InventoryOf(after, node) == InventoryOf(s.workers, node)
                 && forall other :: other in s.workers && other != node ==> after[other] == s.workers[other]
            else after == s.workers
  {
  }

  ghost predicate Ends(e: Event, node: string, connection: string) {
    e == Disconnect(node, connection) || e == Forget(node)
  }

  /** Once connected, a worker stays online on that connection, whatever older sockets
      do, until that very connection ends or the worker is forgotten; going away and
      coming back, it finds the inventory that was last reported. */
  lemma {:induction false} ConnectionLasts(token: Option<string>, s: System, events: seq<Event>, node: string,
                                           connection: string)
    requires Inv(s) && Possible(token, s, events)
    requires node in s.workers && s.workers[node].connectionId == Some(connection)
    requires forall e :: e in events ==> !Ends(e, node, connection)
    ensures Online(After(s, events).workers, node) && After(s, events).workers[node].connectionId == Some(connection)
    decreases |events|
  {
    if events == [] {
    } else {
      StepKeepsInv(token, s, events[0]);
      assert events[0] in events;
      assert forall e :: e in events[1..] ==> e in events;
      ConnectionLasts(token, Next(s, events[0]), events[1..], node, connection);
    }
  }

  ghost predicate Reports(e: Event, node: string) {
    (e.Inventory? && e.node == node) || e == Forget(node)
  }

  lemma {:induction false} InventoryLasts(token: Option<string>, s: System, events: seq<Event>, node: string)
    requires Possible(token, s, events) && node in s.workers
    requires forall e :: e in events ==> !Reports(e, node)
    ensures node in After(s, events).workers
    ensures InventoryOf(After(s, events).workers, node) == InventoryOf(s.workers, node)
    decreases |events|
  {
    if events == [] {
    } else {
      assert events[0] in events;
      assert forall e :: e in events[1..] ==> e in events;
      InventoryLasts(token, Next(s, events[0]), events[1..], node);
    }
  }
}
