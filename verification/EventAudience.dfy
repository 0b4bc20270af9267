/**
  Who hears each domain event, and as what message, told from the event's own fields
  (internal/infrastructure/websocket/event_bridge.go).
 */
module EventAudience {
  import opened Outcomes
  import opened Uuids
  import opened RoomKeys
  import opened HubModel
  import opened HubCalls
  import opened EventBridge

  /** How many of the events channel and the handler's own channel a client listens to. */
  function Listened(c: ClientRec, channel: string): nat {
    (if InChannel(c, "events") then 1 else 0) + (if channel != "events" && InChannel(c, channel) then 1 else 0)
  }

  /** As many further copies of a payload as were sent and still fit. */
  predicate GotCopies(before: ClientRec, after: ClientRec, payload: Payload, sent: nat) {
    var space: nat := if |before.queue| < before.capacity then before.capacity - |before.queue| else 0;
    && after.info == before.info && after.rooms == before.rooms && after.capacity == before.capacity
    && after.queue == before.queue + seq(if sent <= space then sent else space, _ => payload)
  }

  /**
    The event goes out as a message of this type, for this organization and application and under the
    handler's topic, to the organization's clients in that application, or in every one, and to nobody else.
   */
  ghost predicate GoesTo(s: Registry, bridge: Bridge, event: DomainEvent, eventType: string, org: Uuid, app: Uuid,
                         everyApp: bool)
  {
    var after := Handled(s, bridge, event).clients;
    var message := bridge.encode(eventType, bridge.topic, UuidText(org), UuidText(app), event);
    && after.Keys == s.clients.Keys
    && forall id :: id in s.clients ==>
      if message.Some? && s.clients[id].info.org == org && (everyApp || s.clients[id].info.app == app)
      then GotCopies(s.clients[id], after[id], message.value, Listened(s.clients[id], bridge.channel))
      else after[id] == s.clients[id]
  }

  ghost predicate GoesNowhere(s: Registry, bridge: Bridge, event: DomainEvent) {
    Handled(s, bridge, event).clients == s.clients
  }

  /** A handler of the bridge on a hub in order. */
  ghost predicate Ready(s: Registry, bridge: Bridge) {
    ClientsOk(s) && IsChannelName(bridge.channel)
  }

  // ----- From deliveries to clients -----

  lemma ListenedIs(c: ClientRec, d: Delivery, channel: string)
    ensures Subscriptions(c, d, channel) ==
      if c.info.org == d.org && (d.app == NIL_UUID || c.info.app == d.app) then Listened(c, channel) else 0
  {
    RoomTells(c.info, "events");
    RoomTells(c.info, channel);
    hide RoomText, RoomOf;
  }

  lemma CopiesFit(c: ClientRec, payload: Payload, n: nat)
    ensures GotCopies(c, OfferedTimes(c, payload, n), payload, n)
    ensures OfferedTimes(c, payload, 0) == c
  {
    OneMoreOffer(c, payload, 0);
  }

  ghost predicate ResolvesTo(bridge: Bridge, event: DomainEvent, eventType: string, org: Uuid, app: Uuid) {
    EventDelivery(bridge, event) ==
      match bridge.encode(eventType, bridge.topic, UuidText(org), UuidText(app), event)
      case None => None
      case Some(payload) => Some(Delivery(org, app, payload))
  }

  /** One client, when the event resolves to this organization and application. */
  lemma ClientHears(s: Registry, bridge: Bridge, event: DomainEvent, eventType: string, org: Uuid, app: Uuid,
                    id: ClientId)
    requires Ready(s, bridge) && id in s.clients
    ensures ResolvesTo(bridge, event, eventType, org, app) ==>
      var message := bridge.encode(eventType, bridge.topic, UuidText(org), UuidText(app), event);
      var c, after := s.clients[id], Handled(s, bridge, event).clients;
      && id in after
      && if message.Some? && c.info.org == org && (app == NIL_UUID || c.info.app == app)
         then GotCopies(c, after[id], message.value, Listened(c, bridge.channel)) else after[id] == c
  {
    hide ClientsOk, IsChannelName, EventDelivery, OfferedTimes, GotCopies, Listened, Subscriptions, UuidText, Handled;
    FanOut(s, bridge, event, id);
    var d := EventDelivery(bridge, event);
    if d.Some? {
      ListenedIs(s.clients[id], d.value, bridge.channel);
      CopiesFit(s.clients[id], d.value.payload, Subscriptions(s.clients[id], d.value, bridge.channel));
      CopiesFit(s.clients[id], d.value.payload, 0);
    }
  }

  /** An event that resolves to this organization and application, with this message type. */
  lemma ResolvedGoesTo(s: Registry, bridge: Bridge, event: DomainEvent, eventType: string, org: Uuid, app: Uuid)
    requires Ready(s, bridge)
    ensures ResolvesTo(bridge, event, eventType, org, app) ==>
      GoesTo(s, bridge, event, eventType, org, app, app == NIL_UUID)
  {
    hide Ready, ResolvesTo, Handled, GotCopies, Listened, UuidText;
    HandledKeys(s, bridge, event);
    forall id | id in s.clients {
      ClientHears(s, bridge, event, eventType, org, app, id);
    }
  }

  lemma HandledKeys(s: Registry, bridge: Bridge, event: DomainEvent)
    ensures Handled(s, bridge, event).clients.Keys == s.clients.Keys
  {
    hide ExtractRoutes, DeliveryOf, Push;
    DeliverKeys(s, bridge, event, ExtractRoutes(event));
  }

  lemma {:induction false} DeliverKeys(s: Registry, bridge: Bridge, event: DomainEvent, routes: seq<Route>)
    ensures Deliver(s, bridge, event, routes).clients.Keys == s.clients.Keys
  {
    hide DeliveryOf, Push;
    if routes != [] {
      var before := routes[..|routes| - 1];
      DeliverKeys(s, bridge, event, before);
      var d := DeliveryOf(bridge, event, routes[|routes| - 1]);
      if d.Some? {
        PushAllKeys(Deliver(s, bridge, event, before), d.value, ChannelsOf(bridge.channel));
      }
    }
  }

  lemma PushKeys(s: Registry, d: Delivery, channel: string)
    ensures Push(s, d, channel).clients.Keys == s.clients.Keys
  {
    hide BuildRoomKey;
  }

  lemma {:induction false} PushAllKeys(s: Registry, d: Delivery, channels: seq<string>)
    ensures PushAll(s, d, channels).clients.Keys == s.clients.Keys
  {
    hide Push;
    if channels != [] {
      var before := channels[..|channels| - 1];
      PushAllKeys(s, d, before);
      PushKeys(PushAll(s, d, before), d, channels[|channels| - 1]);
    }
  }

  lemma UnresolvedGoesNowhere(s: Registry, bridge: Bridge, event: DomainEvent)
    requires Ready(s, bridge) && EventDelivery(bridge, event).None?
    ensures GoesNowhere(s, bridge, event)
  {
    hide ClientsOk, IsChannelName, EventDelivery;
    HandledKeys(s, bridge, event);
    forall id | id in s.clients ensures Handled(s, bridge, event).clients[id] == s.clients[id] {
      FanOut(s, bridge, event, id);
    }
  }

  lemma RoutedGoesTo(s: Registry, bridge: Bridge, event: DomainEvent, route: Route, org: Uuid)
    requires Ready(s, bridge) && ExtractRoutes(event) == [route] && ResolveOrg(route, bridge.apps) == Some(org)
    ensures GoesTo(s, bridge, event, route.eventType, org, route.app, route.app == NIL_UUID)
  {
    assert EventDelivery(bridge, event) == DeliveryOf(bridge, event, route);
    assert ResolvesTo(bridge, event, route.eventType, org, route.app) by { hide ExtractRoutes, UuidText; }
    hide Ready, GoesTo, ExtractRoutes, EventDelivery, UuidText, ResolvesTo;
    ResolvedGoesTo(s, bridge, event, route.eventType, org, route.app);
  }

  lemma RoutedNowhere(s: Registry, bridge: Bridge, event: DomainEvent, route: Route)
    requires Ready(s, bridge) && ExtractRoutes(event) == [route] && ResolveOrg(route, bridge.apps).None?
    ensures GoesNowhere(s, bridge, event)
  {
    assert EventDelivery(bridge, event) == DeliveryOf(bridge, event, route);
    hide Ready, GoesNowhere, ExtractRoutes, EventDelivery;
    UnresolvedGoesNowhere(s, bridge, event);
  }

  lemma UnroutedNowhere(s: Registry, bridge: Bridge, event: DomainEvent)
    requires Ready(s, bridge) && ExtractRoutes(event) == []
    ensures GoesNowhere(s, bridge, event)
  {
    hide Ready, GoesNowhere, ExtractRoutes;
    UnresolvedGoesNowhere(s, bridge, event);
  }

  // ----- Event by event -----

  /** The organization the application repository names, when it names one. */
  predicate OwnerIs(bridge: Bridge, app: Uuid, org: Uuid) {
    bridge.apps.Some? && bridge.apps.value(app) == Some(org) && org != NIL_UUID
  }

  predicate OwnerUnknown(bridge: Bridge, app: Uuid) {
    bridge.apps.None? || bridge.apps.value(app).None? || bridge.apps.value(app) == Some(NIL_UUID)
  }

  /** An application was created or updated: its clients in its organization hear of it. */
  lemma AppEvents(s: Registry, bridge: Bridge, org: Uuid, app: Uuid)
    requires Ready(s, bridge) && org != NIL_UUID && app != NIL_UUID
    ensures GoesTo(s, bridge, AppCreated(org, app), "app.created", org, app, false)
    ensures GoesTo(s, bridge, AppUpdated(org, app), "app.updated", org, app, false)
  {
    hide GoesTo, Ready, UuidText;
    RoutedGoesTo(s, bridge, AppCreated(org, app), Route(org, app, "app.created"), org);
    RoutedGoesTo(s, bridge, AppUpdated(org, app), Route(org, app, "app.updated"), org);
  }

  /** Events of an organization reach its clients in all applications. */
  lemma OrganizationEvents(s: Registry, bridge: Bridge, org: Uuid)
    requires Ready(s, bridge) && org != NIL_UUID
    ensures GoesTo(s, bridge, RoleAssigned(org), "role.assigned", org, NIL_UUID, true)
    ensures GoesTo(s, bridge, OrganizationCreated(org), "organization.created", org, NIL_UUID, true)
    ensures GoesTo(s, bridge, WorkspaceCreated(org), "workspace.created", org, NIL_UUID, true)
    ensures GoesTo(s, bridge, AppCreated(org, NIL_UUID), "app.created", org, NIL_UUID, true)
    ensures GoesTo(s, bridge, AppUpdated(org, NIL_UUID), "app.updated", org, NIL_UUID, true)
  {
    hide GoesTo, Ready, UuidText;
    RoutedGoesTo(s, bridge, RoleAssigned(org), Route(org, NIL_UUID, "role.assigned"), org);
    RoutedGoesTo(s, bridge, OrganizationCreated(org), Route(org, NIL_UUID, "organization.created"), org);
    RoutedGoesTo(s, bridge, WorkspaceCreated(org), Route(org, NIL_UUID, "workspace.created"), org);
    RoutedGoesTo(s, bridge, AppCreated(org, NIL_UUID), Route(org, NIL_UUID, "app.created"), org);
    RoutedGoesTo(s, bridge, AppUpdated(org, NIL_UUID), Route(org, NIL_UUID, "app.updated"), org);
  }

  /** Events that name an application only go to its clients, in the organization the repository names. */
  lemma EndpointEvents(s: Registry, bridge: Bridge, org: Uuid, app: Uuid)
    requires Ready(s, bridge) && app != NIL_UUID && OwnerIs(bridge, app, org)
    ensures GoesTo(s, bridge, EndpointCreated(app), "endpoint.created", org, app, false)
    ensures GoesTo(s, bridge, EndpointUpdated(app), "endpoint.updated", org, app, false)
    ensures GoesTo(s, bridge, EndpointRetired(app), "endpoint.retired", org, app, false)
    ensures GoesTo(s, bridge, EndpointActivated(app), "endpoint.activated", org, app, false)
    ensures GoesTo(s, bridge, AppCreated(NIL_UUID, app), "app.created", org, app, false)
    ensures GoesTo(s, bridge, AppUpdated(NIL_UUID, app), "app.updated", org, app, false)
  {
    hide GoesTo, Ready, UuidText;
    RoutedGoesTo(s, bridge, EndpointCreated(app), Route(NIL_UUID, app, "endpoint.created"), org);
    RoutedGoesTo(s, bridge, EndpointUpdated(app), Route(NIL_UUID, app, "endpoint.updated"), org);
    RoutedGoesTo(s, bridge, EndpointRetired(app), Route(NIL_UUID, app, "endpoint.retired"), org);
    RoutedGoesTo(s, bridge, EndpointActivated(app), Route(NIL_UUID, app, "endpoint.activated"), org);
    RoutedGoesTo(s, bridge, AppCreated(NIL_UUID, app), Route(NIL_UUID, app, "app.created"), org);
    RoutedGoesTo(s, bridge, AppUpdated(NIL_UUID, app), Route(NIL_UUID, app, "app.updated"), org);
  }

  /** An application whose organization is not known, or no identifier at all: nobody hears of it. */
  lemma UnownedEvents(s: Registry, bridge: Bridge, app: Uuid)
    requires Ready(s, bridge) && (app == NIL_UUID || OwnerUnknown(bridge, app))
    ensures GoesNowhere(s, bridge, EndpointCreated(app)) && GoesNowhere(s, bridge, EndpointUpdated(app))
    ensures GoesNowhere(s, bridge, EndpointRetired(app)) && GoesNowhere(s, bridge, EndpointActivated(app))
    ensures GoesNowhere(s, bridge, AppCreated(NIL_UUID, app)) && GoesNowhere(s, bridge, AppUpdated(NIL_UUID, app))
  {
    hide GoesNowhere, Ready;
    RoutedNowhere(s, bridge, EndpointCreated(app), Route(NIL_UUID, app, "endpoint.created"));
    RoutedNowhere(s, bridge, EndpointUpdated(app), Route(NIL_UUID, app, "endpoint.updated"));
    RoutedNowhere(s, bridge, EndpointRetired(app), Route(NIL_UUID, app, "endpoint.retired"));
    RoutedNowhere(s, bridge, EndpointActivated(app), Route(NIL_UUID, app, "endpoint.activated"));
    RoutedNowhere(s, bridge, AppCreated(NIL_UUID, app), Route(NIL_UUID, app, "app.created"));
    RoutedNowhere(s, bridge, AppUpdated(NIL_UUID, app), Route(NIL_UUID, app, "app.updated"));
  }

  /** Events without an organization, and everything that comes over Kafka, reach nobody. */
  lemma SilentEvents(s: Registry, bridge: Bridge)
    requires Ready(s, bridge)
    ensures GoesNowhere(s, bridge, UserRegistered) && GoesNowhere(s, bridge, Unrecognized)
    ensures GoesNowhere(s, bridge, RoleAssigned(NIL_UUID)) && GoesNowhere(s, bridge, OrganizationCreated(NIL_UUID))
    ensures GoesNowhere(s, bridge, WorkspaceCreated(NIL_UUID))
  {
    hide GoesNowhere, Ready;
    UnroutedNowhere(s, bridge, UserRegistered);
    UnroutedNowhere(s, bridge, Unrecognized);
    UnroutedNowhere(s, bridge, RoleAssigned(NIL_UUID));
    RoutedNowhere(s, bridge, OrganizationCreated(NIL_UUID), Route(NIL_UUID, NIL_UUID, "organization.created"));
    RoutedNowhere(s, bridge, WorkspaceCreated(NIL_UUID), Route(NIL_UUID, NIL_UUID, "workspace.created"));
  }

  /** The bridge has three handlers, one for each of three topics, and each pushes on its topic's channel. */
  lemma HandlersAreRegistered(apps: Option<AppRepository>, encode: Encoder, bridge: Bridge)
    ensures bridge in Registered(apps, encode) <==>
      && bridge.apps == apps && bridge.encode == encode
      && (bridge.topic, bridge.channel) in {
           ("masterfabric.iam", "iam"),
           ("masterfabric.tenant", "tenant"),
           ("masterfabric.api-management", "api-management")}
    ensures |Registered(apps, encode)| == 3
  {
    if bridge.apps == apps && bridge.encode == encode {
      var all := Registered(apps, encode);
      assert all[0] in all && all[1] in all && all[2] in all;
    }
  }
}
