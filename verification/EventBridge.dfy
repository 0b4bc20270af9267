/**
  The event bridge (internal/infrastructure/websocket/event_bridge.go): typed domain events become
  broadcasts on the hub's default channel and on the channel of their topic.
 */
module EventBridge {
  import opened Outcomes
  import opened Uuids
  import opened RoomKeys
  import opened RoomDirectory
  import opened HubModel
  import opened HubChannels
  import Hub

  const TOPIC_IAM := "masterfabric.iam"
  const TOPIC_TENANT := "masterfabric.tenant"
  const TOPIC_API_MANAGEMENT := "masterfabric.api-management"

  datatype DomainEvent =
    | UserRegistered
    | RoleAssigned(org: Uuid)
    | OrganizationCreated(org: Uuid)
    | AppCreated(org: Uuid, app: Uuid)
    | AppUpdated(org: Uuid, app: Uuid)
    | WorkspaceCreated(org: Uuid)
    | EndpointCreated(app: Uuid)
    | EndpointUpdated(app: Uuid)
    | EndpointRetired(app: Uuid)
    | EndpointActivated(app: Uuid)
    | Unrecognized

  datatype Route = Route(org: Uuid, app: Uuid, eventType: string)

  /** The application repository: the organization of an application, when it is known. */
  type AppRepository = Uuid -> Option<Uuid>

  /** Serialization of an event message for an organization and application; none when it fails. */
  type Encoder = (string, string, string, string, DomainEvent) -> Option<Payload>

  /** What one handler of the bridge works with. */
  datatype Bridge = Bridge(apps: Option<AppRepository>, encode: Encoder, topic: string, channel: string)

  /** The three handlers the bridge registers on the bus. */
  function Registered(apps: Option<AppRepository>, encode: Encoder): (bridges: seq<Bridge>)
    ensures |bridges| == 3
  {
    [Bridge(apps, encode, TOPIC_IAM, "iam"),
     Bridge(apps, encode, TOPIC_TENANT, "tenant"),
     Bridge(apps, encode, TOPIC_API_MANAGEMENT, "api-management")]
  }

  function ExtractRoutes(event: DomainEvent): seq<Route> {
    match event
    case UserRegistered => []
    case RoleAssigned(org) => if org == NIL_UUID then [] else [Route(org, NIL_UUID, "role.assigned")]
    case OrganizationCreated(org) => [Route(org, NIL_UUID, "organization.created")]
    case AppCreated(org, app) => [Route(org, app, "app.created")]
    case AppUpdated(org, app) => [Route(org, app, "app.updated")]
    case WorkspaceCreated(org) => [Route(org, NIL_UUID, "workspace.created")]
    case EndpointCreated(app) => [Route(NIL_UUID, app, "endpoint.created")]
    case EndpointUpdated(app) => [Route(NIL_UUID, app, "endpoint.updated")]
    case EndpointRetired(app) => [Route(NIL_UUID, app, "endpoint.retired")]
    case EndpointActivated(app) => [Route(NIL_UUID, app, "endpoint.activated")]
    case Unrecognized => []
  }

  /** The organization a route is delivered to; none when it cannot be told. */
  function ResolveOrg(route: Route, apps: Option<AppRepository>): Option<Uuid> {
    var org :=
      if route.app != NIL_UUID && route.org == NIL_UUID && apps.Some? then apps.value(route.app)
      else Some(route.org);
    if org.None? || org.value == NIL_UUID then None else org
  }

  datatype Delivery = Delivery(org: Uuid, app: Uuid, payload: Payload)

  /** Where one route goes and with what payload; none when it is skipped. */
  function DeliveryOf(bridge: Bridge, event: DomainEvent, route: Route): Option<Delivery> {
    var org := ResolveOrg(route, bridge.apps);
    if org.None? then None
    else
      var payload := bridge.encode(route.eventType, bridge.topic, UuidText(org.value), UuidText(route.app), event);
      if payload.None? then None else Some(Delivery(org.value, route.app, payload.value))
  }

  /** One broadcast of a delivery on one channel: to a room, or to the organization when there is no application. */
  function Push(s: Registry, d: Delivery, channel: string): Registry {
    if d.app != NIL_UUID then
      match BuildRoomKey(d.org, d.app, channel)
      case Ok(room) => Apply(s, Broadcast(room, d.payload))
      case Err(_) => s
    else Apply(s, BroadcastToOrganization(d.org, channel, d.payload))
  }

  /** The channels of a delivery, each once. */
  function ChannelsOf(channel: string): seq<string> {
    if channel == DEFAULT_CHANNEL then [DEFAULT_CHANNEL] else [DEFAULT_CHANNEL, channel]
  }

  function PushAll(s: Registry, d: Delivery, channels: seq<string>): Registry {
    if channels == [] then s else Push(PushAll(s, d, channels[..|channels| - 1]), d, channels[|channels| - 1])
  }

  function Deliver(s: Registry, bridge: Bridge, event: DomainEvent, routes: seq<Route>): Registry {
    if routes == [] then s
    else
      var before := Deliver(s, bridge, event, routes[..|routes| - 1]);
      var d := DeliveryOf(bridge, event, routes[|routes| - 1]);
      if d.None? then before else PushAll(before, d.value, ChannelsOf(bridge.channel))
  }

  /** What handling an event does to the clients' buffers. */
  function Handled(s: Registry, bridge: Bridge, event: DomainEvent): Registry {
    Deliver(s, bridge, event, ExtractRoutes(event))
  }

  // ----- Who receives what -----

  /**
    Whether a client listens to a delivery on a channel: its organization, its application unless the
    delivery has none, and its own subscription.
   */
  predicate Listens(c: ClientRec, d: Delivery, channel: string) {
    && c.info.org == d.org
    && (d.app == NIL_UUID || c.info.app == d.app)
    && RoomText(c.info.org, c.info.app, channel) in c.rooms
  }

  /** The number of listed channels on which a client listens to a delivery. */
  function Listening(c: ClientRec, d: Delivery, channels: seq<string>): nat {
    if channels == [] then 0
    else Listening(c, d, channels[..|channels| - 1]) + (if Listens(c, d, channels[|channels| - 1]) then 1 else 0)
  }

  function Copies(payload: Payload, n: nat): seq<Payload> {
    seq(n, _ => payload)
  }

  function Min(a: nat, b: nat): nat {
    if a <= b then a else b
  }

  /** A client that was offered a payload n times holds as many more copies as fit, behind what it held. */
  function OfferedTimes(c: ClientRec, payload: Payload, n: nat): ClientRec {
    if |c.queue| >= c.capacity then c
    else c.(queue := c.queue + Copies(payload, Min(n, c.capacity - |c.queue|)))
  }

  lemma OneMoreOffer(c: ClientRec, payload: Payload, n: nat)
    ensures OfferedTimes(c, payload, n).Offer(payload) == OfferedTimes(c, payload, n + 1)
    ensures OfferedTimes(c, payload, 0) == c
  {
  }

  /**
    A registered client's rooms name their organization, application and channel, so a room is its own
    exactly when the three agree.
   */
  lemma OwnRoomText(info: ClientInfo, room: RoomKey, org: Uuid, app: Uuid, channel: string)
    requires OwnRoom(info, room)
    ensures room == RoomText(org, app, channel) <==>
            info.org == org && info.app == app && room == RoomText(info.org, info.app, channel)
  {
    hide ParseRoomKey;
    var ch :| IsChannelName(ch) && room == RoomText(info.org, info.app, ch);
    ParseRoomText(info.org, info.app, ch);
    ParseRoomText(org, app, channel);
  }

  /** One broadcast reaches exactly the listening clients, once each. */
  lemma PushReaches(s: Registry, d: Delivery, channel: string, id: ClientId)
    requires ClientsOk(s) && id in s.clients && IsChannelName(channel)
    ensures var s' := Push(s, d, channel);
      && s'.clients.Keys == s.clients.Keys
      && s'.clients[id] == if Listens(s.clients[id], d, channel) then s.clients[id].Offer(d.payload) else s.clients[id]
  {
    hide ParseRoomKey, IsChannelName, OwnRoom;
    var c := s.clients[id];
    ChannelNameIsNormal(channel);
    if d.app != NIL_UUID {
      var room := RoomText(d.org, d.app, channel);
      if room in c.rooms {
        OwnRoomText(c.info, room, d.org, d.app, channel);
      }
    }
  }

  /** Sends keep rooms and identities, so they keep the clients well formed and listening to the same channels. */
  lemma PushKeeps(s: Registry, d: Delivery, channel: string)
    requires ClientsOk(s)
    ensures ClientsOk(Push(s, d, channel))
  {
    hide OwnRoom, BuildRoomKey;
    assert Push(s, d, channel).clients.Keys == s.clients.Keys;
  }

  lemma {:induction false} PushAllReaches(s: Registry, d: Delivery, channels: seq<string>, id: ClientId)
    requires ClientsOk(s) && id in s.clients
    requires forall ch :: ch in channels ==> IsChannelName(ch)
    ensures ClientsOk(PushAll(s, d, channels)) && id in PushAll(s, d, channels).clients
    ensures PushAll(s, d, channels).clients[id] ==
      OfferedTimes(s.clients[id], d.payload, Listening(s.clients[id], d, channels))
  {
    hide ClientsOk, IsChannelName, RoomText;
    if channels == [] {
      OneMoreOffer(s.clients[id], d.payload, 0);
    } else {
      var before, last := channels[..|channels| - 1], channels[|channels| - 1];
      assert last in channels;
      PushAllReaches(s, d, before, id);
      var s1 := PushAll(s, d, before);
      PushKeeps(s1, d, last);
      PushReaches(s1, d, last, id);
      OneMoreOffer(s.clients[id], d.payload, Listening(s.clients[id], d, before));
    }
  }

  lemma AtMostOneRoute(event: DomainEvent)
    ensures |ExtractRoutes(event)| <= 1
  {
  }

  /** The delivery an event resolves to, if any; every event has at most one route. */
  function EventDelivery(bridge: Bridge, event: DomainEvent): Option<Delivery> {
    var routes := ExtractRoutes(event);
    if routes == [] then None else DeliveryOf(bridge, event, routes[0])
  }

  /** The number of channels among the default one and the topic's that a client listens to. */
  function Subscriptions(c: ClientRec, d: Delivery, channel: string): nat {
    (if Listens(c, d, DEFAULT_CHANNEL) then 1 else 0) +
    (if channel != DEFAULT_CHANNEL && Listens(c, d, channel) then 1 else 0)
  }

  /**
    Fan-out, end to end: an event that resolves to an organization and application appends to each
    client's buffer one copy of the payload per subscribed channel, as many as fit, and an event that
    does not resolve changes no buffer.
   */
  lemma FanOut(s: Registry, bridge: Bridge, event: DomainEvent, id: ClientId)
    requires ClientsOk(s) && id in s.clients && IsChannelName(bridge.channel)
    ensures id in Handled(s, bridge, event).clients
    ensures Handled(s, bridge, event).clients[id] ==
      match EventDelivery(bridge, event)
      case None => s.clients[id]
      case Some(d) => OfferedTimes(s.clients[id], d.payload, Subscriptions(s.clients[id], d, bridge.channel))
  {
    hide ClientsOk, IsChannelName, DeliveryOf, RoomText, PushAll, OfferedTimes, ExtractRoutes;
    var routes := ExtractRoutes(event);
    AtMostOneRoute(event);
    if routes != [] {
      assert routes[..0] == [];
      var d := DeliveryOf(bridge, event, routes[0]);
      assert Deliver(s, bridge, event, routes) ==
        if d.None? then s else PushAll(s, d.value, ChannelsOf(bridge.channel));
      if d.Some? {
        var channels := ChannelsOf(bridge.channel);
        DefaultRoom(d.value.org, d.value.app);
        PushAllReaches(s, d.value, channels, id);
        ListeningCount(s.clients[id], d.value, bridge.channel);
      }
    }
  }

  lemma ListeningCount(c: ClientRec, d: Delivery, channel: string)
    ensures Listening(c, d, ChannelsOf(channel)) == Subscriptions(c, d, channel)
  {
    hide Listens;
    assert [DEFAULT_CHANNEL][..0] == [];
    assert Listening(c, d, [DEFAULT_CHANNEL]) == if Listens(c, d, DEFAULT_CHANNEL) then 1 else 0;
    assert [DEFAULT_CHANNEL, channel][..1] == [DEFAULT_CHANNEL];
  }

  /**
    Nobody outside the organization an event resolves to sees it, and neither does a client of another
    application when it has one.
   */
  lemma FanOutIsConfined(s: Registry, bridge: Bridge, event: DomainEvent, id: ClientId)
    requires ClientsOk(s) && id in s.clients && IsChannelName(bridge.channel)
    ensures id in Handled(s, bridge, event).clients
    ensures var d := EventDelivery(bridge, event);
      Handled(s, bridge, event).clients[id] != s.clients[id] ==>
        d.Some? && s.clients[id].info.org == d.value.org &&
          (d.value.app == NIL_UUID || s.clients[id].info.app == d.value.app)
  {
    FanOut(s, bridge, event, id);
    var d := EventDelivery(bridge, event);
    if d.Some? && Subscriptions(s.clients[id], d.value, bridge.channel) == 0 {
      OneMoreOffer(s.clients[id], d.value.payload, 0);
    }
  }

  /** The channels of the three registered handlers are valid names. */
  lemma RegisteredChannelsFit(apps: Option<AppRepository>, encode: Encoder, bridge: Bridge)
    requires bridge in Registered(apps, encode)
    ensures IsChannelName(bridge.channel)
  {
  }

  /** The same for the handlers the bridge registers, on the hub any run of calls leads to. */
  lemma EveryRunFansOut(maxConnections: int, ops: seq<Op>, apps: Option<AppRepository>, encode: Encoder,
                        bridge: Bridge, event: DomainEvent)
    requires LegalRun(NewHub(maxConnections), ops)
    ensures var s := Run(NewHub(maxConnections), ops).reg;
      bridge in Registered(apps, encode) ==>
        forall id :: id in s.clients ==>
          && id in Handled(s, bridge, event).clients
          && Handled(s, bridge, event).clients[id] ==
            match EventDelivery(bridge, event)
            case None => s.clients[id]
            case Some(d) => OfferedTimes(s.clients[id], d.payload, Subscriptions(s.clients[id], d, bridge.channel))
  {
    hide Registered, IsChannelName, ClientsOk, Handled, Run, LegalRun;
    if bridge in Registered(apps, encode) {
      var s := Run(NewHub(maxConnections), ops).reg;
      EveryRunIsConsistent(maxConnections, ops);
      RegisteredChannelsFit(apps, encode, bridge);
      forall id | id in s.clients {
        FanOut(s, bridge, event, id);
      }
    }
  }

  // ----- With other calls between the two broadcasts -----

  /** A push as a call on the hub. */
  function PushOp(d: Delivery, channel: string): Op {
    if d.app != NIL_UUID then Broadcast(RoomText(d.org, d.app, channel), d.payload)
    else BroadcastToOrganization(d.org, channel, d.payload)
  }

  lemma PushIsCall(s: Registry, d: Delivery, channel: string)
    requires IsChannelName(channel)
    ensures Push(s, d, channel) == Apply(s, PushOp(d, channel))
  {
    ChannelNameIsNormal(channel);
    hide IsChannelName, Apply;
  }

  /** A push sends to exactly the connected clients that listen at that moment, and changes no other queue. */
  lemma PushSends(h: HubRep, d: Delivery, channel: string)
    requires HubOk(h) && IsChannelName(channel)
    ensures forall id :: id in Effects(h, PushOp(d, channel)).sends <==>
      id in h.reg.clients && Listens(h.reg.clients[id], d, channel)
    ensures HubOk(Step(h, PushOp(d, channel))) && Step(h, PushOp(d, channel)).reg == Push(h.reg, d, channel)
  {
    hide HubOk, IsChannelName, Step, Push, Apply, Effects, Listens;
    StepRefines(h, PushOp(d, channel));
    PushIsCall(h.reg, d, channel);
    forall id ensures id in Effects(h, PushOp(d, channel)).sends <==>
      id in h.reg.clients && Listens(h.reg.clients[id], d, channel)
    {
      if d.app != NIL_UUID {
        RoomSends(h, d, channel, id);
      } else {
        OrganizationSends(h, d, channel, id);
      }
    }
  }

  lemma RoomSends(h: HubRep, d: Delivery, channel: string, id: ClientId)
    requires HubOk(h) && d.app != NIL_UUID
    ensures id in Effects(h, PushOp(d, channel)).sends <==>
      id in h.reg.clients && Listens(h.reg.clients[id], d, channel)
  {
    RoomMember(h, d, channel, id);
    ClosedHasNoClients(h);
    hide HubOk, Listens;
  }

  lemma OrganizationSends(h: HubRep, d: Delivery, channel: string, id: ClientId)
    requires HubOk(h) && d.app == NIL_UUID
    ensures id in Effects(h, PushOp(d, channel)).sends <==>
      id in h.reg.clients && Listens(h.reg.clients[id], d, channel)
  {
    IndexIsScan(h, d.org, channel);
    ClosedHasNoClients(h);
    hide HubOk, OneRoomEach, MembersOf, IndexKey;
  }

  lemma RoomMember(h: HubRep, d: Delivery, channel: string, id: ClientId)
    requires HubOk(h) && d.app != NIL_UUID
    ensures id in Entry(h.rooms, RoomText(d.org, d.app, channel)) <==>
      id in h.reg.clients && Listens(h.reg.clients[id], d, channel)
  {
    hide OwnRoom, IndexAgrees, KeyOf;
    var room := RoomText(d.org, d.app, channel);
    assert Has(h.Dir().members, room, id) <==> Has(h.Dir().own, id, room);
    if id in h.reg.clients && room in h.reg.clients[id].rooms {
      OwnRoomText(h.reg.clients[id].info, room, d.org, d.app, channel);
    }
  }

  /** What happens on the hub while one delivery is pushed: its own pushes, and calls of anybody else. */
  datatype Event = PushOn(channel: string) | Other(op: Op)

  function OpOf(d: Delivery, event: Event): Op {
    match event
    case PushOn(channel) => PushOp(d, channel)
    case Other(op) => op
  }

  ghost predicate LegalEvents(h: HubRep, d: Delivery, events: seq<Event>)
    decreases |events|
  {
    events == [] || (Legal(h.reg, OpOf(d, events[0])) && LegalEvents(Step(h, OpOf(d, events[0])), d, events[1..]))
  }

  /** The channels the delivery is pushed on, in order. */
  function PushedOn(events: seq<Event>): seq<string> {
    if events == [] then []
    else if events[0].PushOn? then [events[0].channel] + PushedOn(events[1..])
    else PushedOn(events[1..])
  }

  /** How often the delivery's pushes send to a client. */
  ghost function Received(h: HubRep, d: Delivery, events: seq<Event>, id: ClientId): nat
    decreases |events|
  {
    if events == [] then 0
    else
      var op := OpOf(d, events[0]);
      (if events[0].PushOn? && id in Effects(h, op).sends then 1 else 0) + Received(Step(h, op), d, events[1..], id)
  }

  /** On how many of the pushes the client is connected and listens just then. */
  ghost function ListenedTo(h: HubRep, d: Delivery, events: seq<Event>, id: ClientId): nat
    decreases |events|
  {
    if events == [] then 0
    else
      var now := events[0].PushOn? && id in h.reg.clients && Listens(h.reg.clients[id], d, events[0].channel);
      (if now then 1 else 0) + ListenedTo(Step(h, OpOf(d, events[0])), d, events[1..], id)
  }

  lemma {:induction false} InterleavedFanOut(h: HubRep, d: Delivery, events: seq<Event>, id: ClientId)
    requires HubOk(h) && LegalEvents(h, d, events)
    requires forall ch :: ch in PushedOn(events) ==> IsChannelName(ch)
    ensures Received(h, d, events, id) == ListenedTo(h, d, events, id) <= |PushedOn(events)|
    decreases |events|
  {
    hide HubOk, Step, Effects, Listens, Legal, IsChannelName, PushOp;
    if events != [] {
      var op := OpOf(d, events[0]);
      if events[0].PushOn? {
        assert PushedOn(events)[0] == events[0].channel;
        PushSends(h, d, events[0].channel);
      }
      StepRefines(h, op);
      assert forall ch :: ch in PushedOn(events[1..]) ==> ch in PushedOn(events);
      InterleavedFanOut(Step(h, op), d, events[1..], id);
    }
  }

  /**
    Fan-out with the hub's lock released between the broadcasts: on the hub any run leads to, whatever calls
    come before, between and after the pushes of one delivery, each client is sent one copy for each channel
    it listens on when that channel's push comes, and so at most one per channel.
   */
  lemma EveryInterleavingFansOut(maxConnections: int, before: seq<Op>, apps: Option<AppRepository>, encode: Encoder,
                                 bridge: Bridge, event: DomainEvent, events: seq<Event>)
    requires LegalRun(NewHub(maxConnections), before)
    ensures var h := Run(NewHub(maxConnections), before);
      match EventDelivery(bridge, event)
      case None => true
      case Some(d) =>
        bridge in Registered(apps, encode) ==>
        PushedOn(events) == ChannelsOf(bridge.channel) && LegalEvents(h, d, events) ==>
          forall id :: Received(h, d, events, id) == ListenedTo(h, d, events, id) <= 2
  {
    hide HubOk, Run, LegalRun, LegalEvents, Registered, IsChannelName, EventDelivery, Received, ListenedTo, PushedOn;
    var h, delivery := Run(NewHub(maxConnections), before), EventDelivery(bridge, event);
    EveryRunIsConsistent(maxConnections, before);
    if delivery.Some? && bridge in Registered(apps, encode) && PushedOn(events) == ChannelsOf(bridge.channel) {
      RegisteredChannelsFit(apps, encode, bridge);
      DefaultRoom(delivery.value.org, delivery.value.app);
      if LegalEvents(h, delivery.value, events) {
        forall id ensures Received(h, delivery.value, events, id) == ListenedTo(h, delivery.value, events, id) <= 2 {
          InterleavedFanOut(h, delivery.value, events, id);
        }
      }
    }
  }

  // ----- The handler as it runs -----

  /** handleEvent, on a live hub. */
  method HandleEvent(hub: Hub.Hub, bridge: Bridge, event: DomainEvent)
    requires hub.Valid()
    modifies hub.Sends()
    ensures hub.Valid()
    ensures hub.Rep().reg == Handled(old(hub.Rep()).reg, bridge, event)
  {
    hide HubOk, BuildRoomKey, Apply, PushAll, ExtractRoutes, DeliveryOf, ChannelsOf;
    ghost var s := hub.Rep().reg;
    var routes := ExtractRoutes(event);
    var i := 0;
    assert routes[..0] == [];
    while i < |routes|
      invariant i <= |routes| && hub.Valid()
      invariant hub.Rep().reg == Deliver(s, bridge, event, routes[..i])
    {
      var d := DeliveryOf(bridge, event, routes[i]);
      assert routes[..i + 1][..i] == routes[..i];
      if d.Some? {
        PushEach(hub, d.value, bridge.channel);
      }
      i := i + 1;
    }
    assert routes[..i] == routes;
  }

  /** The loop over the two channels, which skips the second when it repeats the first. */
  method PushEach(hub: Hub.Hub, d: Delivery, channel: string)
    requires hub.Valid()
    modifies hub.Sends()
    ensures hub.Valid()
    ensures hub.Rep().reg == PushAll(old(hub.Rep()).reg, d, ChannelsOf(channel))
  {
    hide HubOk, Apply;
    ghost var s := hub.Rep().reg;
    var channels := [DEFAULT_CHANNEL, channel];
    var seen: set<string> := {};
    ghost var done: seq<string> := [];
    var i := 0;
    while i < |channels|
      invariant i <= |channels| && hub.Valid()
      invariant done == if i == 0 then [] else if i == 1 then [DEFAULT_CHANNEL] else ChannelsOf(channel)
      invariant seen == if i == 0 then {} else if i == 1 then {DEFAULT_CHANNEL} else {DEFAULT_CHANNEL, channel}
      invariant hub.Rep().reg == PushAll(s, d, done)
    {
      var ch := channels[i];
      if ch !in seen {
        seen := seen + {ch};
        assert (done + [ch])[..|done|] == done;
        if d.app != NIL_UUID {
          var room := BuildRoomKey(d.org, d.app, ch);
          if room.Ok? {
            hub.Broadcast(room.value, d.payload);
          }
        } else {
          hub.BroadcastToOrganization(d.org, ch, d.payload);
        }
        done := done + [ch];
      }
      i := i + 1;
    }
  }
}
