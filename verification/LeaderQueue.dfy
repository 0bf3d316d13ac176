/**
 The bounded queues between requests and connections on the leader: what keeps a request
 from being sent, and so from being answered (src/cluster/leader.rs).
 */
module LeaderQueues {
  import opened Prelude
  import opened Text
  import L = LeaderClusters

  const CHANNEL_CAPACITY: nat := 128

  /** The queue in front of a connection's writer; closed once the writer is gone. */
  datatype Channel = Channel(queued: nat, open: bool)

  /** `via` is the channel that each request got hold of when it began. */
  datatype System = System(leader: L.System, channels: map<nat, Channel>, via: map<string, nat>)

  datatype Event =
    | Leader(e: L.Event)
    | Acknowledge(channel: nat)   // an audit acknowledgement is queued
    | Drain(channel: nat)         // the writer takes a message off the queue
    | Close(channel: nat)         // the writer has failed or was stopped

  predicate HasRoom(s: System, channel: nat) {
    channel in s.channels && s.channels[channel].open && s.channels[channel].queued < CHANNEL_CAPACITY
  }

  predicate IsClosed(s: System, channel: nat) {
    channel in s.channels && !s.channels[channel].open
  }

  /** A send waits for room or for the end of the connection, outside any time limit. */
  predicate CanSend(s: System, id: string, ok: bool) {
    id in s.via && if ok then HasRoom(s, s.via[id]) else IsClosed(s, s.via[id])
  }

  predicate Enabled(token: Option<string>, s: System, e: Event) {
    match e
    case Leader(e) =>
      && L.Enabled(token, s.leader, e)
      && (e.Connect? ==> e.channel !in s.channels)
      && (e.Sent? ==> CanSend(s, e.id, e.ok))
    case Acknowledge(channel) => HasRoom(s, channel)
    case Drain(channel) => channel in s.channels && s.channels[channel].open && s.channels[channel].queued > 0
    case Close(channel) => channel in s.channels
  }

  function SenderOf(workers: L.Workers, node: string): Option<nat> {
    if node in workers then workers[node].sender else None
  }

  function Queued(channels: map<nat, Channel>, channel: Option<nat>): map<nat, Channel> {
    if channel.Some? && channel.value in channels && channels[channel.value].open
       && channels[channel.value].queued < CHANNEL_CAPACITY
    then channels[channel.value := Channel(channels[channel.value].queued + 1, true)]
    else channels
  }

  /** Connecting opens a channel, a command takes a place in its queue, and so does the
      farewell to a forgotten worker if there is room. */
  function NextChannels(s: System, e: L.Event): map<nat, Channel> {
    match e
    case Connect(_, channel, _, _) => s.channels[channel := Channel(0, true)]
    case Forget(node) => Queued(s.channels, SenderOf(s.leader.workers, node))
    case Sent(id, ok) => if ok && id in s.via then Queued(s.channels, Some(s.via[id])) else s.channels
    case _ => s.channels
  }

  function NextVia(s: System, e: L.Event): map<string, nat> {
    if e.Begin? && L.Online(s.leader.workers, e.node) && SenderOf(s.leader.workers, e.node).Some?
    then s.via[e.id := SenderOf(s.leader.workers, e.node).value] else s.via
  }

  function Next(s: System, e: Event): System {
    match e
    case Leader(e) => System(L.Next(s.leader, e), NextChannels(s, e), NextVia(s, e))
    case Acknowledge(channel) => s.(channels := Queued(s.channels, Some(channel)))
    case Drain(channel) =>
      if channel in s.channels && s.channels[channel].queued > 0
      then s.(channels := s.channels[channel := s.channels[channel].(queued := s.channels[channel].queued - 1)]) else s
    case Close(channel) =>
      if channel in s.channels then s.(channels := s.channels[channel := s.channels[channel].(open := false)]) else s
  }

  ghost predicate ChannelsOk(s: System) {
    && (forall c :: c in s.channels ==> s.channels[c].queued <= CHANNEL_CAPACITY)
    && (forall node :: node in s.leader.workers && s.leader.workers[node].sender.Some? ==>
          s.leader.workers[node].sender.value in s.channels)
    && (forall id :: id in s.leader.requests && (s.leader.requests[id].Chosen? || s.leader.requests[id].Registered?) ==>
          id in s.via && s.via[id] in s.channels)
  }

  ghost predicate Inv(s: System) {
    L.Inv(s.leader) && ChannelsOk(s)
  }

  lemma LeaderStepKeepsChannels(token: Option<string>, s: System, e: L.Event)
    requires ChannelsOk(s) && L.Enabled(token, s.leader, e)
    ensures ChannelsOk(Next(s, Leader(e)))
  {
  }

  lemma StepKeepsInv(token: Option<string>, s: System, e: Event)
    requires Inv(s) && Enabled(token, s, e)
    ensures Inv(Next(s, e))
  {
    if e.Leader? {
      L.StepKeepsInv(token, s.leader, e.e);
      LeaderStepKeepsChannels(token, s, e.e);
    }
  }

  ghost predicate Possible(token: Option<string>, s: System, events: seq<Event>)
    decreases |events|
  {
    events != [] ==> Enabled(token, s, events[0]) && Possible(token, Next(s, events[0]), events[1..])
  }

  function After(s: System, events: seq<Event>): System
    decreases |events|
  {
    if events == [] then s else After(Next(s, events[0]), events[1..])
  }

  /** A new leader: known workers, no connection and no channel. */
  ghost predicate IsStart(s: System) {
    L.IsStart(s.leader) && s.channels == map[] && s.via == map[]
  }

  lemma {:induction false} RunKeepsInv(token: Option<string>, s: System, events: seq<Event>)
    requires Inv(s) && Possible(token, s, events)
    ensures Inv(After(s, events))
    decreases |events|
  {
    if events == [] {
    } else {
      StepKeepsInv(token, s, events[0]);
      RunKeepsInv(token, Next(s, events[0]), events[1..]);
    }
  }

  /** The part of a run that the connections and requests take. */
  function LeaderPart(events: seq<Event>): seq<L.Event> {
    if events == [] then []
    else (if events[0].Leader? then [events[0].e] else []) + LeaderPart(events[1..])
  }

  /** The queues only hold requests back: without them every run is a run of the leader,
      so all that holds over those runs holds here. */
  lemma {:induction false} LeaderPartRuns(token: Option<string>, s: System, events: seq<Event>)
    requires Possible(token, s, events)
    ensures L.Possible(token, s.leader, LeaderPart(events))
    ensures L.After(s.leader, LeaderPart(events)) == After(s, events).leader
    decreases |events|
  {
    if events == [] {
    } else {
      LeaderPartRuns(token, Next(s, events[0]), events[1..]);
      if events[0].Leader? {
        assert LeaderPart(events)[1..] == LeaderPart(events[1..]);
      } else {
        assert LeaderPart(events) == LeaderPart(events[1..]);
      }
    }
  }

  // ---- What is in a queue --------------------------------------------------------------------

  /** Messages that a step puts into the queue of `c`: a command that is sent there, an
      acknowledgement, and a farewell if there is room for it. */
  function PutBy(s: System, e: Event, c: nat): nat {
    match e
    case Acknowledge(channel) => if channel == c then 1 else 0
    case Leader(Sent(id, ok)) => if ok && id in s.via && s.via[id] == c then 1 else 0
    case Leader(Forget(node)) =>
      if node in s.leader.workers && s.leader.workers[node].sender == Some(c) && HasRoom(s, c) then 1 else 0
    case _ => 0
  }

  function PutAlong(s: System, events: seq<Event>, c: nat): nat
    decreases |events|
  {
    if events == [] then 0 else PutBy(s, events[0], c) + PutAlong(Next(s, events[0]), events[1..], c)
  }

  function TakenAlong(events: seq<Event>, c: nat): nat {
    if events == [] then 0 else (if events[0] == Drain(c) then 1 else 0) + TakenAlong(events[1..], c)
  }

  lemma StepCounts(token: Option<string>, s: System, e: Event, c: nat)
    requires Enabled(token, s, e) && c in s.channels
    ensures c in Next(s, e).channels
    ensures Next(s, e).channels[c].queued + (if e == Drain(c) then 1 else 0) == s.channels[c].queued + PutBy(s, e, c)
  {
  }

  /** Over every run, a queue holds what it held, and what was put into it since, less what
      its writer has taken. */
  lemma {:induction false} QueueCounts(token: Option<string>, s: System, events: seq<Event>, c: nat)
    requires Possible(token, s, events) && c in s.channels
    ensures c in After(s, events).channels
    ensures After(s, events).channels[c].queued + TakenAlong(events, c)
         == s.channels[c].queued + PutAlong(s, events, c)
    decreases |events|
  {
    if events == [] {
    } else {
      StepCounts(token, s, events[0], c);
      QueueCounts(token, Next(s, events[0]), events[1..], c);
    }
  }

  // ---- Who can go on -----------------------------------------------------------------------

  predicate Own(e: Event, id: string) {
    e.Leader? && L.Own(e.e, id)
  }

  /** The request waits to put its command on a live connection's full queue. Nothing
      bounds this wait: the time limit is set only once the command is queued. */
  predicate Stuck(s: System, id: string) {
    && L.InPhase(s.leader, id, L.Registered) && id in s.via && s.via[id] in s.channels
    && s.channels[s.via[id]].open && s.channels[s.via[id]].queued == 128
  }

  function OwnStep(s: System, id: string): L.Event
    requires id in s.leader.requests
  {
    match s.leader.requests[id]
    case Chosen => L.Register(id)
    case Registered => L.Sent(id, id in s.via && HasRoom(s, s.via[id]))
    case Waiting => if id in s.leader.mail then L.Read(id) else L.Expire(id)
    case _ => L.GiveUp(id)
  }

  /** In every state that a new leader can reach, a request without an answer can take a
      step of its own if and only if it is not stuck before a full queue. */
  lemma UnansweredCanStep(token: Option<string>, s: System, events: seq<Event>, id: string)
    requires IsStart(s) && Possible(token, s, events)
    requires var t := After(s, events).leader; id in t.requests && !t.requests[id].Answered?
    ensures var t := After(s, events);
            (exists own :: Own(own, id) && Enabled(token, t, own)) <==> !Stuck(t, id)
  {
    RunKeepsInv(token, s, events);
    var t := After(s, events);
    if !Stuck(t, id) {
      var own := Leader(OwnStep(t, id));
      assert Own(own, id) && Enabled(token, t, own);
    }
  }

  lemma StuckStep(token: Option<string>, s: System, e: Event, id: string)
    requires Enabled(token, s, e) && Stuck(s, id)
    ensures Stuck(Next(s, e), id) <==> e != Drain(s.via[id]) && e != Close(s.via[id])
    ensures id in Next(s, e).via && Next(s, e).via[id] == s.via[id]
  {
  }

  /** A stuck request stays so over every run in which its connection's writer neither
      takes a message nor goes away. */
  lemma {:induction false} StuckLasts(token: Option<string>, s: System, events: seq<Event>, id: string)
    requires Possible(token, s, events) && Stuck(s, id)
    requires Drain(s.via[id]) !in events && Close(s.via[id]) !in events
    ensures Stuck(After(s, events), id) && After(s, events).via[id] == s.via[id]
    decreases |events|
  {
    if events == [] {
    } else {
      assert events == [events[0]] + events[1..];
      StuckStep(token, s, events[0], id);
      StuckLasts(token, Next(s, events[0]), events[1..], id);
    }
  }

  // ---- A run that gets stuck ------------------------------------------------------------------

  lemma StepThenRest(token: Option<string>, s: System, e: Event, next: System, rest: seq<Event>)
    requires Enabled(token, s, e) && next == Next(s, e) && Possible(token, next, rest)
    ensures Possible(token, s, [e] + rest) && After(s, [e] + rest) == After(next, rest)
  {
    assert ([e] + rest)[1..] == rest;
  }

  lemma {:induction false} RunThenRun(token: Option<string>, s: System, first: seq<Event>, second: seq<Event>)
    requires Possible(token, s, first) && Possible(token, After(s, first), second)
    ensures Possible(token, s, first + second) && After(s, first + second) == After(After(s, first), second)
    decreases |first|
  {
    if first == [] {
      assert first + second == second;
    } else {
      RunThenRun(token, Next(s, first[0]), first[1..], second);
      assert (first + second)[1..] == first[1..] + second;
    }
  }

  ghost function WithChannel(s: System, channel: nat, queued: nat): System {
    s.(channels := s.channels[channel := Channel(queued, true)])
  }

  /** While the writer is stalled, acknowledgements fill the queue. */
  lemma {:induction false} QueueFills(token: Option<string>, s: System, channel: nat, queued: nat)
    returns (events: seq<Event>)
    requires queued <= CHANNEL_CAPACITY
    ensures Possible(token, WithChannel(s, channel, queued), events)
    ensures After(WithChannel(s, channel, queued), events) == WithChannel(s, channel, CHANNEL_CAPACITY)
    decreases CHANNEL_CAPACITY - queued
  {
    if queued == CHANNEL_CAPACITY {
      events := [];
    } else {
      var rest := QueueFills(token, s, channel, queued + 1);
      var next := WithChannel(s, channel, queued + 1);
      assert Next(WithChannel(s, channel, queued), Acknowledge(channel)) == next;
      StepThenRest(token, WithChannel(s, channel, queued), Acknowledge(channel), next, rest);
      events := [Acknowledge(channel)] + rest;
    }
  }

  /** On a full queue, a new request gets stuck. */
  lemma RequestSticks(token: Option<string>, s: System, node: string, channel: nat, id: string)
    returns (events: seq<Event>)
    requires L.Online(s.leader.workers, node) && SenderOf(s.leader.workers, node) == Some(channel)
    requires channel in s.channels && s.channels[channel] == Channel(CHANNEL_CAPACITY, true)
    requires id !in s.leader.requests && id !in s.leader.pending
    ensures Possible(token, s, events) && Stuck(After(s, events), id) && id in After(s, events).leader.pending
    ensures After(s, events).leader.workers == s.leader.workers
  {
    var begin, register := Leader(L.Begin(node, id)), Leader(L.Register(id));
    var begun := Next(s, begin);
    var registered := Next(begun, register);
    StepThenRest(token, begun, register, registered, []);
    StepThenRest(token, s, begin, begun, [register] + []);
    events := [begin] + ([register] + []);
  }

  /** So a new leader can come to hold a request that is pending on an online worker and
      has no step left to take, not even a timeout. */
  lemma RequestCanBeStuck(token: Option<string>, id: string) returns (events: seq<Event>)
    ensures var s := System(L.System(map[], {}, map[], map[], {}), map[], map[]);
            && IsStart(s) && Possible(token, s, events)
            && var t := After(s, events);
               && L.Online(t.leader.workers, "n") && id in t.leader.pending && Stuck(t, id)
               && forall own :: Own(own, id) ==> !Enabled(token, t, own)
  {
    var s := System(L.System(map[], {}, map[], map[], {}), map[], map[]);
    var connect := Leader(L.Connect(L.Hello(L.AGENT_PROTOCOL_VERSION, "n", "n", token), 0, "c", 0));
    assert !IsBlank("n");
    var connected := Next(s, connect);
    assert connected == WithChannel(connected, 0, 0);
    var fill := QueueFills(token, connected, 0, 0);
    var full := WithChannel(connected, 0, CHANNEL_CAPACITY);
    var stick := RequestSticks(token, full, "n", 0, id);
    RunThenRun(token, connected, fill, stick);
    StepThenRest(token, s, connect, connected, fill + stick);
    events := [connect] + (fill + stick);
    UnansweredCanStep(token, s, events, id);
  }
}
