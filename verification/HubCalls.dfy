/**
  What each call on the hub does to each client, in the words of a caller
  (internal/infrastructure/websocket/hub.go).  A room is told by its text, a channel by the name a caller
  gave; the structures and helper functions of the hub are not mentioned.
 */
module HubCalls {
  import opened Outcomes
  import opened Strings
  import opened Uuids
  import opened RoomKeys
  import opened HubModel

  /** The name a channel argument stands for: without surrounding white space, or events when it is blank. */
  function AskedName(channel: string): string {
    var trimmed := TrimSpace(channel);
    if trimmed == "" then "events" else trimmed
  }

  function RoomOf(info: ClientInfo, name: string): RoomKey {
    "org:" + UuidText(info.org) + ":app:" + UuidText(info.app) + ":channel:" + name
  }

  predicate InChannel(c: ClientRec, name: string) {
    RoomOf(c.info, name) in c.rooms
  }

  /** The text of a client's room names its organization, its application and the channel, and nothing else. */
  lemma RoomTells(info: ClientInfo, name: string)
    ensures ParseRoomKey(RoomOf(info, name)) == Ok(RoomParts(info.org, info.app, name))
    ensures RoomOf(info, name) == RoomText(info.org, info.app, name)
  {
    ParseRoomText(info.org, info.app, name);
  }

  lemma RoomsDiffer(info: ClientInfo, name: string, other: string)
    ensures RoomOf(info, name) == RoomOf(info, other) <==> name == other
  {
    hide ParseRoomKey;
    RoomTells(info, name);
    RoomTells(info, other);
  }

  lemma AskedRoom(s: Registry, id: ClientId, channel: string)
    requires id in s.clients
    ensures ChannelRoom(s, id, channel) ==
      if IsChannelName(AskedName(channel)) then Ok(RoomOf(s.clients[id].info, AskedName(channel)))
      else Err(BadChannel(InvalidChannelName))
  {
    RoomTells(s.clients[id].info, AskedName(channel));
  }

  // ----- Joining and leaving -----

  /** One client with another room set, and nothing else changed. */
  predicate OnlyRooms(s: Registry, after: Registry, id: ClientId, rooms: set<RoomKey>)
    requires id in s.clients
  {
    && after.maxConnections == s.maxConnections && after.closed == s.closed && after.clients.Keys == s.clients.Keys
    && (forall other :: other in s.clients && other != id ==> after.clients[other] == s.clients[other])
    && var before, now := s.clients[id], after.clients[id];
    now.info == before.info && now.queue == before.queue && now.capacity == before.capacity && now.rooms == rooms
  }

  /** Subscribe with an acceptable name puts the client into the room of that name, and changes nothing else. */
  lemma SubscribeJoins(s: Registry, id: ClientId, channel: string)
    requires id in s.clients && IsChannelName(AskedName(channel))
    ensures var c, after := s.clients[id], Apply(s, Subscribe(id, channel));
      OnlyRooms(s, after, id, c.rooms + {RoomOf(c.info, AskedName(channel))})
  {
    hide RoomOf, AskedName, IsChannelName;
    AskedRoom(s, id, channel);
  }

  /** Unsubscribe takes the client out of that room only. */
  lemma UnsubscribeLeaves(s: Registry, id: ClientId, channel: string)
    requires id in s.clients && IsChannelName(AskedName(channel))
    ensures var c, after := s.clients[id], Apply(s, Unsubscribe(id, channel));
      OnlyRooms(s, after, id, c.rooms - {RoomOf(c.info, AskedName(channel))})
  {
    hide RoomOf, AskedName, IsChannelName;
    AskedRoom(s, id, channel);
  }

  /** An unknown client, or a name that is not acceptable: nothing changes. */
  lemma BadChannelChangesNothing(s: Registry, id: ClientId, channel: string)
    requires id !in s.clients || !IsChannelName(AskedName(channel))
    ensures Apply(s, Subscribe(id, channel)) == s && Apply(s, Unsubscribe(id, channel)) == s
  {
    hide RoomOf, AskedName, IsChannelName;
    if id in s.clients {
      AskedRoom(s, id, channel);
    }
  }

  // ----- Sending -----

  /** One payload more, if there is room for it. */
  predicate OfferedOnce(before: ClientRec, after: ClientRec, payload: Payload) {
    && after.info == before.info && after.rooms == before.rooms && after.capacity == before.capacity
    && after.queue == if |before.queue| < before.capacity then before.queue + [payload] else before.queue
  }

  /** Exactly the clients a test names are offered the payload, once each. */
  ghost predicate OfferedTo(s: Registry, after: Registry, payload: Payload, named: ClientRec -> bool) {
    && after.maxConnections == s.maxConnections && after.closed == s.closed && after.clients.Keys == s.clients.Keys
    && forall id :: id in s.clients ==>
      if named(s.clients[id]) then OfferedOnce(s.clients[id], after.clients[id], payload)
      else after.clients[id] == s.clients[id]
  }

  lemma SendReaches(s: Registry, id: ClientId, payload: Payload)
    requires forall i :: i in s.clients ==> s.clients[i].info.id == i
    ensures OfferedTo(s, Apply(s, SendToClient(id, payload)), payload, (c: ClientRec) => c.info.id == id)
  {
  }

  lemma BroadcastReaches(s: Registry, room: RoomKey, payload: Payload)
    ensures OfferedTo(s, Apply(s, Broadcast(room, payload)), payload, (c: ClientRec) => room in c.rooms)
  {
  }

  /** In all applications of the organization. */
  lemma OrganizationReaches(s: Registry, org: Uuid, name: string, payload: Payload)
    ensures OfferedTo(s, Apply(s, BroadcastToOrganization(org, name, payload)), payload,
      (c: ClientRec) => c.info.org == org && InChannel(c, name))
  {
    hide RoomOf, RoomText;
    forall id | id in s.clients
      ensures id in ChannelMembers(s.clients, org, name) <==>
        s.clients[id].info.org == org && InChannel(s.clients[id], name)
    {
      RoomTells(s.clients[id].info, name);
    }
    hide ChannelMembers, InChannel;
  }

  /** Both kinds of broadcast on a name: to the client's own room, and to its organization. */
  function Broadcasts(info: ClientInfo, name: string, payload: Payload): seq<Op> {
    [Broadcast(RoomOf(info, name), payload), BroadcastToOrganization(info.org, name, payload)]
  }

  lemma NameIsHeard(s: Registry, id: ClientId, name: string, payload: Payload)
    requires id in s.clients
    ensures var c := s.clients[id];
      forall op :: op in Broadcasts(c.info, name, payload) ==>
        id in Apply(s, op).clients &&
        if InChannel(c, name) then OfferedOnce(c, Apply(s, op).clients[id], payload)
        else Apply(s, op).clients[id] == c
  {
    hide RoomOf, Apply, OfferedOnce;
    BroadcastReaches(s, RoomOf(s.clients[id].info, name), payload);
    OrganizationReaches(s, s.clients[id].info.org, name, payload);
  }

  /**
    After Subscribe both kinds of broadcast on the name reach the client, once; after Unsubscribe neither does,
    and on every other name the client listens as before.
   */
  lemma SubscriptionIsHeard(s: Registry, id: ClientId, channel: string, payload: Payload, other: string)
    requires id in s.clients && IsChannelName(AskedName(channel))
    ensures var c, name := s.clients[id], AskedName(channel);
      var joined, left := Apply(s, Subscribe(id, channel)), Apply(s, Unsubscribe(id, channel));
      && id in joined.clients && id in left.clients
      && (forall op :: op in Broadcasts(c.info, name, payload) ==>
          && id in Apply(joined, op).clients && id in Apply(left, op).clients
          && OfferedOnce(joined.clients[id], Apply(joined, op).clients[id], payload)
          && Apply(left, op).clients[id] == left.clients[id])
      && (other != name ==>
          && (InChannel(joined.clients[id], other) <==> InChannel(c, other))
          && (InChannel(left.clients[id], other) <==> InChannel(c, other)))
  {
    var c, name := s.clients[id], AskedName(channel);
    var joined, left := Apply(s, Subscribe(id, channel)), Apply(s, Unsubscribe(id, channel));
    SubscribeJoins(s, id, channel);
    UnsubscribeLeaves(s, id, channel);
    RoomsDiffer(c.info, name, other);
    hide RoomOf, AskedName, Apply, IsChannelName, Broadcasts, OfferedOnce;
    NameIsHeard(joined, id, name, payload);
    NameIsHeard(left, id, name, payload);
  }

  // ----- Coming and going -----

  /** With room to spare the newcomer is connected, in the events channel of its application and in no other room. */
  lemma RegisterAdmits(s: Registry, info: ClientInfo, queue: seq<Payload>, capacity: nat)
    requires !s.closed && |s.clients.Keys| < s.maxConnections && info.id !in s.clients
    ensures var after := Apply(s, Register(info, queue, capacity));
      && after.closed == s.closed && after.maxConnections == s.maxConnections
      && after.clients.Keys == s.clients.Keys + {info.id}
      && (forall id :: id in s.clients ==> after.clients[id] == s.clients[id])
      && after.clients[info.id] == ClientRec(info, {RoomOf(info, "events")}, queue, capacity)
  {
    RoomTells(info, "events");
  }

  lemma RegisterRefuses(s: Registry, info: ClientInfo, queue: seq<Payload>, capacity: nat)
    requires s.closed || |s.clients.Keys| >= s.maxConnections
    ensures Apply(s, Register(info, queue, capacity)) == s
  {
  }

  /** A limit that is not positive means a thousand connections. */
  lemma NewHubIsEmpty(maxConnections: int)
    ensures var s := NewHub(maxConnections).reg;
      && s.clients == map[] && !s.closed
      && (maxConnections > 0 ==> s.maxConnections == maxConnections)
      && (maxConnections <= 0 ==> s.maxConnections == 1000)
  {
  }

  lemma LeavingIsComplete(s: Registry, id: ClientId)
    ensures var after := Apply(s, Unregister(id));
      && after.clients.Keys == s.clients.Keys - {id} && after.closed == s.closed
      && after.maxConnections == s.maxConnections
      && (forall other :: other in after.clients ==> after.clients[other] == s.clients[other])
    ensures Apply(s, Close).clients == map[] && Apply(s, Close).closed
  {
  }

  /** The write pump takes the oldest payload of its own client, and nothing else. */
  lemma ReceiveTakesOldest(s: Registry, id: ClientId)
    requires id in s.clients && s.clients[id].queue != []
    ensures var c, after := s.clients[id], Apply(s, Receive(id));
      && after.clients.Keys == s.clients.Keys
      && (forall other :: other in s.clients && other != id ==> after.clients[other] == s.clients[other])
      && after.clients[id].rooms == c.rooms && after.clients[id].info == c.info
      && c.queue == [c.queue[0]] + after.clients[id].queue
  {
  }

  // ----- Over whole runs -----

  /** Whether the client listens on a name after one more call, told from the call alone. */
  function Wanted(op: Op, id: ClientId, name: string, now: bool): bool {
    match op
    case Register(info, _, _) => if info.id == id then name == "events" else now
    case Subscribe(i, channel) => now || (i == id && AskedName(channel) == name)
    case Unsubscribe(i, channel) => now && !(i == id && AskedName(channel) == name)
    case _ => now
  }

  function WantedAfter(ops: seq<Op>, id: ClientId, name: string, now: bool): bool {
    if ops == [] then now else WantedAfter(ops[1..], id, name, Wanted(ops[0], id, name, now))
  }

  ghost predicate LegalCalls(s: Registry, ops: seq<Op>)
    decreases |ops|
  {
    ops == [] || (Legal(s, ops[0]) && LegalCalls(Apply(s, ops[0]), ops[1..]))
  }

  lemma OneCallWanted(s: Registry, op: Op, id: ClientId, name: string, now: bool)
    requires Legal(s, op) && IsChannelName(name)
    requires id in s.clients ==> (now <==> InChannel(s.clients[id], name))
    ensures var after := Apply(s, op);
      id in after.clients ==> (Wanted(op, id, name, now) <==> InChannel(after.clients[id], name))
  {
    hide IsChannelName, AskedName, ChannelRoom, RoomText, RoomOf;
    match op
    case Register(info, queue, capacity) =>
      RoomTells(info, "events");
      RoomsDiffer(info, name, "events");
    case Subscribe(i, channel) =>
      if i in s.clients {
        AskedRoom(s, i, channel);
        RoomsDiffer(s.clients[i].info, name, AskedName(channel));
      } else {
        BadChannelChangesNothing(s, i, channel);
      }
    case Unsubscribe(i, channel) =>
      if i in s.clients {
        AskedRoom(s, i, channel);
        RoomsDiffer(s.clients[i].info, name, AskedName(channel));
      } else {
        BadChannelChangesNothing(s, i, channel);
      }
    case _ =>
  }

  lemma {:induction false} CallsWanted(s: Registry, ops: seq<Op>, id: ClientId, name: string, now: bool)
    requires LegalCalls(s, ops) && IsChannelName(name)
    requires id in s.clients ==> (now <==> InChannel(s.clients[id], name))
    ensures var after := ApplyAll(s, ops);
      id in after.clients ==> (WantedAfter(ops, id, name, now) <==> InChannel(after.clients[id], name))
    decreases |ops|
  {
    hide Apply, IsChannelName, InChannel, Wanted, Legal;
    if ops != [] {
      OneCallWanted(s, ops[0], id, name, now);
      CallsWanted(Apply(s, ops[0]), ops[1..], id, name, Wanted(ops[0], id, name, now));
    }
  }

  lemma {:induction false} LegalRunCalls(h: HubRep, ops: seq<Op>)
    requires HubOk(h) && LegalRun(h, ops)
    ensures LegalCalls(h.reg, ops)
    decreases |ops|
  {
    hide HubOk, Legal, Step, Apply;
    if ops != [] {
      StepRefines(h, ops[0]);
      LegalRunCalls(Step(h, ops[0]), ops[1..]);
    }
  }

  /**
    Whatever calls a run makes: a client that is connected at the end listens on a name exactly when its own
    calls say so, the last of them that concerns the name deciding.
   */
  lemma LastCallDecides(maxConnections: int, ops: seq<Op>, id: ClientId, name: string)
    requires LegalRun(NewHub(maxConnections), ops) && IsChannelName(name)
    ensures var s := Run(NewHub(maxConnections), ops).reg;
      id in s.clients ==> (InChannel(s.clients[id], name) <==> WantedAfter(ops, id, name, false))
  {
    hide HubOk, IsChannelName, InChannel, Wanted;
    EveryRunIsConsistent(maxConnections, []);
    EveryRunIsConsistent(maxConnections, ops);
    LegalRunCalls(NewHub(maxConnections), ops);
    CallsWanted(NewHub(maxConnections).reg, ops, id, name, false);
  }
}
