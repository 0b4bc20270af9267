/**
  The connection hub on values (internal/infrastructure/websocket/hub.go).

  A Registry is the plain view of a hub: who is connected, what each client subscribed to, and
  what waits in its send buffer.  A HubRep adds the two structures the hub keeps for speed: the
  members of each room, and the reverse index from organization and channel to rooms.
  HubOk says that both hold exactly what a scan of the registry would find; every call keeps it,
  and does to the registry what Apply says, which knows nothing of the two structures.
 */
module HubModel {
  import opened Outcomes
  import opened Uuids
  import opened RoomKeys
  import opened RoomDirectory

  type Payload = string

  datatype ClientId = ClientId(text: string)

  datatype ClientInfo = ClientInfo(id: ClientId, user: Uuid, org: Uuid, app: Uuid)

  datatype HubError = ClientNotFound | BadChannel(error: KeyError)

  /** A connected client: its own room set and its bounded send buffer. */
  datatype ClientRec = ClientRec(info: ClientInfo, rooms: set<RoomKey>, queue: seq<Payload>, capacity: nat) {
    /** A send that never blocks: a full buffer drops the payload. */
    function Offer(payload: Payload): ClientRec {
      if |queue| < capacity then this.(queue := queue + [payload]) else this
    }
  }

  // ----- The plain view -----

  datatype Registry = Registry(maxConnections: int, clients: map<ClientId, ClientRec>, closed: bool)

  datatype Op =
    | Register(info: ClientInfo, queue: seq<Payload>, capacity: nat)
    | Subscribe(id: ClientId, channel: string)
    | Unsubscribe(id: ClientId, channel: string)
    | Unregister(id: ClientId)
    | Close
    | SendToClient(id: ClientId, payload: Payload)
    | Broadcast(room: RoomKey, payload: Payload)
    | BroadcastToOrganization(org: Uuid, channel: string, payload: Payload)
    | Receive(id: ClientId)

  function OfferTo(clients: map<ClientId, ClientRec>, targets: set<ClientId>, payload: Payload)
    : (r: map<ClientId, ClientRec>)
    ensures r.Keys == clients.Keys
  {
    map id | id in clients :: if id in targets then clients[id].Offer(payload) else clients[id]
  }

  function RoomMembers(clients: map<ClientId, ClientRec>, room: RoomKey): set<ClientId> {
    set id | id in clients && room in clients[id].rooms
  }

  /** The plain scan: every client of the organization subscribed to the channel in its own application. */
  function ChannelMembers(clients: map<ClientId, ClientRec>, org: Uuid, channel: string): set<ClientId> {
    set id | id in clients && clients[id].info.org == org &&
      RoomText(org, clients[id].info.app, channel) in clients[id].rooms
  }

  function Resubscribe(s: Registry, id: ClientId, rooms: set<RoomKey>): Registry
    requires id in s.clients
  {
    s.(clients := s.clients[id := s.clients[id].(rooms := rooms)])
  }

  function ChannelRoom(s: Registry, id: ClientId, channel: string): Result<RoomKey, HubError> {
    if id !in s.clients then Err(ClientNotFound)
    else
      match BuildRoomKey(s.clients[id].info.org, s.clients[id].info.app, channel)
      case Ok(room) => Ok(room)
      case Err(e) => Err(BadChannel(e))
  }

  function Apply(s: Registry, op: Op): Registry {
    match op
    case Register(info, queue, capacity) =>
      if s.closed || |s.clients.Keys| >= s.maxConnections then s
      else
        var room := RoomText(info.org, info.app, DEFAULT_CHANNEL);
        s.(clients := s.clients[info.id := ClientRec(info, {room}, queue, capacity)])
    case Subscribe(id, channel) =>
      var room := ChannelRoom(s, id, channel);
      if room.Ok? then Resubscribe(s, id, s.clients[id].rooms + {room.value}) else s
    case Unsubscribe(id, channel) =>
      var room := ChannelRoom(s, id, channel);
      if room.Ok? then Resubscribe(s, id, s.clients[id].rooms - {room.value}) else s
    case Unregister(id) => s.(clients := s.clients - {id})
    case Close => s.(clients := map[], closed := true)
    case SendToClient(id, payload) => s.(clients := OfferTo(s.clients, {id}, payload))
    case Broadcast(room, payload) => s.(clients := OfferTo(s.clients, RoomMembers(s.clients, room), payload))
    case BroadcastToOrganization(org, channel, payload) =>
      s.(clients := OfferTo(s.clients, ChannelMembers(s.clients, org, channel), payload))
    case Receive(id) =>
      if id in s.clients && s.clients[id].queue != []
      then s.(clients := s.clients[id := s.clients[id].(queue := s.clients[id].queue[1..])])
      else s
  }

  // ----- The hub's own structures -----

  datatype HubRep = HubRep(
    reg: Registry,
    rooms: map<RoomKey, set<ClientId>>,
    orgChannels: map<string, set<RoomKey>>)
  {
    function Dir(): Directory<ClientId, RoomKey, string> {
      Directory(Own(reg.clients), rooms, orgChannels)
    }
  }

  function Own(clients: map<ClientId, ClientRec>): map<ClientId, set<RoomKey>> {
    map id | id in clients :: clients[id].rooms
  }

  function IndexKey(org: Uuid, channel: string): string {
    UuidText(org) + ":" + channel
  }

  /** The index key the hub computes for a room of a client of org; none when the key text does not parse. */
  function RoomIndexKey(org: Uuid, room: RoomKey): Option<string> {
    match ParseRoomKey(room)
    case Ok(parts) => Some(IndexKey(org, parts.channel))
    case Err(_) => None
  }

  /** Where the index has to hold a room: under its own organization and channel. */
  function KeyOf(room: RoomKey): string {
    match ParseRoomKey(room)
    case Ok(parts) => IndexKey(parts.org, parts.channel)
    case Err(_) => ""
  }

  /** A room that a client with this info can be in: one of its own organization and application. */
  ghost predicate OwnRoom(info: ClientInfo, room: RoomKey) {
    exists channel :: IsChannelName(channel) && room == RoomText(info.org, info.app, channel)
  }

  ghost predicate ClientsOk(s: Registry) {
    && 0 < s.maxConnections
    && |s.clients.Keys| <= s.maxConnections
    && (s.closed ==> s.clients == map[])
    && (forall id :: id in s.clients ==> s.clients[id].info.id == id)
    && (forall id, r :: id in s.clients && r in s.clients[id].rooms ==> OwnRoom(s.clients[id].info, r))
  }

  ghost predicate HubOk(h: HubRep) {
    ClientsOk(h.reg) && Consistent(h.Dir(), KeyOf)
  }

  /** addToRoomLocked. */
  function AddToRoom(h: HubRep, id: ClientId, room: RoomKey): HubRep
    requires id in h.reg.clients
  {
    var c := h.reg.clients[id];
    HubRep(
      Resubscribe(h.reg, id, c.rooms + {room}),
      JoinMembers(h.rooms, id, room),
      FileRoom(h.orgChannels, RoomIndexKey(c.info.org, room), room))
  }

  /** The common part of removeFromRoomLocked and removeClient for one room. */
  function TakeOut(h: HubRep, id: ClientId, org: Uuid, room: RoomKey): HubRep {
    HubRep(h.reg, DropMembers(h.rooms, id, room),
      if Empties(h.rooms, id, room) then UnfileRoom(h.orgChannels, RoomIndexKey(org, room), room) else h.orgChannels)
  }

  /** removeFromRoomLocked. */
  function RemoveFromRoom(h: HubRep, id: ClientId, room: RoomKey): HubRep
    requires id in h.reg.clients
  {
    var c := h.reg.clients[id];
    TakeOut(h, id, c.info.org, room).(reg := Resubscribe(h.reg, id, c.rooms - {room}))
  }

  /** removeClient's loop over the rooms a client object carries, in whatever order they come. */
  ghost function TakeOutOfAll(h: HubRep, id: ClientId, org: Uuid, rooms: set<RoomKey>): HubRep
    decreases rooms
  {
    if rooms == {} then h
    else
      var r :| r in rooms;
      TakeOutOfAll(TakeOut(h, id, org, r), id, org, rooms - {r})
  }

  function Disconnect(h: HubRep, id: ClientId): HubRep {
    h.(reg := h.reg.(clients := h.reg.clients - {id}))
  }

  /** removeClient, called with the room set the client object carries. */
  ghost function RemoveClient(h: HubRep, id: ClientId, org: Uuid, rooms: set<RoomKey>): HubRep {
    if id !in h.reg.clients then h else TakeOutOfAll(Disconnect(h, id), id, org, rooms)
  }

  /** broadcastLocked. */
  function OfferRoom(h: HubRep, room: RoomKey, payload: Payload): HubRep {
    if h.reg.closed || room !in h.rooms then h
    else h.(reg := h.reg.(clients := OfferTo(h.reg.clients, h.rooms[room], payload)))
  }

  /** BroadcastToOrganization's loop over the indexed rooms, in whatever order they come. */
  ghost function OfferRooms(h: HubRep, rooms: set<RoomKey>, payload: Payload): HubRep
    decreases rooms
  {
    if rooms == {} then h
    else
      var r :| r in rooms;
      OfferRooms(OfferRoom(h, r, payload), rooms - {r}, payload)
  }

  function Admitted(h: HubRep, c: ClientRec): HubRep {
    h.(reg := h.reg.(clients := h.reg.clients[c.info.id := c]))
  }

  /** One call on the hub, over all of its structures. */
  ghost function Step(h: HubRep, op: Op): HubRep {
    match op
    case Register(info, queue, capacity) =>
      if h.reg.closed || |h.reg.clients.Keys| >= h.reg.maxConnections then h
      else
        var h1 := Admitted(h, ClientRec(info, {}, queue, capacity));
        var room := BuildRoomKey(info.org, info.app, DEFAULT_CHANNEL);
        if room.Ok? then AddToRoom(h1, info.id, room.value) else h1
    case Subscribe(id, channel) =>
      var room := ChannelRoom(h.reg, id, channel);
      if room.Ok? then AddToRoom(h, id, room.value) else h
    case Unsubscribe(id, channel) =>
      var room := ChannelRoom(h.reg, id, channel);
      if room.Ok? then RemoveFromRoom(h, id, room.value) else h
    case Unregister(id) =>
      if id in h.reg.clients then RemoveClient(h, id, h.reg.clients[id].info.org, h.reg.clients[id].rooms) else h
    case Close => HubRep(h.reg.(clients := map[], closed := true), map[], map[])
    case SendToClient(id, payload) =>
      if id !in h.reg.clients || h.reg.closed then h
      else h.(reg := h.reg.(clients := h.reg.clients[id := h.reg.clients[id].Offer(payload)]))
    case Broadcast(room, payload) => OfferRoom(h, room, payload)
    case BroadcastToOrganization(org, channel, payload) =>
      OfferRooms(h, Entry(h.orgChannels, IndexKey(org, channel)), payload)
    case Receive(_) => h.(reg := Apply(h.reg, op))
  }

  // ----- Room names inside the hub -----

  lemma IndexKeyInjective(o1: Uuid, c1: string, o2: Uuid, c2: string)
    ensures IndexKey(o1, c1) == IndexKey(o2, c2) <==> o1 == o2 && c1 == c2
  {
    if IndexKey(o1, c1) == IndexKey(o2, c2) {
      assert IndexKey(o1, c1)[..36] == UuidText(o1) && IndexKey(o2, c2)[..36] == UuidText(o2);
      assert IndexKey(o1, c1)[37..] == c1 && IndexKey(o2, c2)[37..] == c2;
      UuidTextInjective(o1, o2);
    }
  }

  /** A client's rooms parse back to its own organization and application, so the hub files them under their own key. */
  lemma OwnRoomParts(info: ClientInfo, room: RoomKey) returns (channel: string)
    requires OwnRoom(info, room)
    ensures IsChannelName(channel) && room == RoomText(info.org, info.app, channel)
    ensures KeyOf(room) == IndexKey(info.org, channel)
    ensures RoomIndexKey(info.org, room) == Some(KeyOf(room))
  {
    channel :| IsChannelName(channel) && room == RoomText(info.org, info.app, channel);
    ParseRoomText(info.org, info.app, channel);
  }

  lemma ChannelRoomIsOwn(s: Registry, id: ClientId, channel: string)
    requires ChannelRoom(s, id, channel).Ok?
    ensures OwnRoom(s.clients[id].info, ChannelRoom(s, id, channel).value)
  {
  }

  /**
    A client in a room filed under an organization and channel belongs to that organization, and the room
    is its own one for that channel.
   */
  lemma FiledRoom(info: ClientInfo, room: RoomKey, org: Uuid, channel: string)
    requires OwnRoom(info, room)
    ensures KeyOf(room) == IndexKey(org, channel) <==> info.org == org && room == RoomText(org, info.app, channel)
  {
    var ch := OwnRoomParts(info, room);
    IndexKeyInjective(info.org, ch, org, channel);
    ParseRoomText(info.org, info.app, channel);
    ParseRoomText(info.org, info.app, ch);
  }

  // ----- Each call keeps the structures in agreement and does what the plain view says -----

  lemma ResubscribeOk(s: Registry, id: ClientId, rooms: set<RoomKey>)
    requires ClientsOk(s) && id in s.clients
    requires forall r :: r in rooms ==> OwnRoom(s.clients[id].info, r)
    ensures ClientsOk(Resubscribe(s, id, rooms))
    ensures Own(Resubscribe(s, id, rooms).clients) == Own(s.clients)[id := rooms]
  {
    hide OwnRoom;
    assert Resubscribe(s, id, rooms).clients.Keys == s.clients.Keys;
  }

  lemma AddToRoomKeeps(h: HubRep, id: ClientId, room: RoomKey)
    requires HubOk(h)
    requires id in h.reg.clients && OwnRoom(h.reg.clients[id].info, room)
    ensures HubOk(AddToRoom(h, id, room))
    ensures AddToRoom(h, id, room).reg == Resubscribe(h.reg, id, h.reg.clients[id].rooms + {room})
  {
    hide OwnRoom, Consistent, RoomIndexKey, KeyOf;
    var c, h' := h.reg.clients[id], AddToRoom(h, id, room);
    var channel := OwnRoomParts(c.info, room);
    ResubscribeOk(h.reg, id, c.rooms + {room});
    JoinKeeps(h.Dir(), KeyOf, id, room);
    assert h'.Dir() == Join(h.Dir(), id, room, Some(KeyOf(room)));
  }

  lemma RemoveFromRoomKeeps(h: HubRep, id: ClientId, room: RoomKey)
    requires HubOk(h) && id in h.reg.clients && OwnRoom(h.reg.clients[id].info, room)
    ensures HubOk(RemoveFromRoom(h, id, room))
    ensures RemoveFromRoom(h, id, room).reg == Resubscribe(h.reg, id, h.reg.clients[id].rooms - {room})
  {
    hide OwnRoom, Consistent, RoomIndexKey, KeyOf;
    var c, h' := h.reg.clients[id], RemoveFromRoom(h, id, room);
    var channel := OwnRoomParts(c.info, room);
    ResubscribeOk(h.reg, id, c.rooms - {room});
    LeaveKeeps(h.Dir(), KeyOf, id, room);
    assert h'.Dir() == Leave(h.Dir(), id, room, Some(KeyOf(room)));
  }

  lemma {:induction false} TakeOutOfAllKeeps(h: HubRep, info: ClientInfo, rooms: set<RoomKey>)
    requires Leaving(h.Dir(), KeyOf, info.id, rooms) && info.id !in h.reg.clients
    requires forall r :: r in rooms ==> OwnRoom(info, r)
    ensures var h' := TakeOutOfAll(h, info.id, info.org, rooms);
      h'.reg == h.reg && Leaving(h'.Dir(), KeyOf, info.id, {})
    decreases rooms
  {
    if rooms != {} {
      var r :| r in rooms && TakeOutOfAll(h, info.id, info.org, rooms) ==
        TakeOutOfAll(TakeOut(h, info.id, info.org, r), info.id, info.org, rooms - {r});
      TakeOutKeeps(h, info, rooms, r);
      TakeOutOfAllKeeps(TakeOut(h, info.id, info.org, r), info, rooms - {r});
    }
  }

  lemma TakeOutKeeps(h: HubRep, info: ClientInfo, rooms: set<RoomKey>, room: RoomKey)
    requires Leaving(h.Dir(), KeyOf, info.id, rooms) && info.id !in h.reg.clients
    requires room in rooms && OwnRoom(info, room)
    ensures Leaving(TakeOut(h, info.id, info.org, room).Dir(), KeyOf, info.id, rooms - {room})
  {
    var channel := OwnRoomParts(info, room);
    DropMemberKeeps(h.Dir(), KeyOf, info.id, rooms, room);
    assert TakeOut(h, info.id, info.org, room).Dir() == DropMember(h.Dir(), info.id, room, Some(KeyOf(room)));
  }

  /** Leaving with nothing left to do is full agreement. */
  lemma LeftAll(d: Directory<ClientId, RoomKey, string>, id: ClientId)
    requires Leaving(d, KeyOf, id, {}) && id !in d.own
    ensures Consistent(d, KeyOf)
  {
  }

  lemma DisconnectLeaves(h: HubRep, id: ClientId)
    requires HubOk(h) && id in h.reg.clients
    ensures ClientsOk(Disconnect(h, id).reg)
    ensures Leaving(Disconnect(h, id).Dir(), KeyOf, id, h.reg.clients[id].rooms)
    ensures forall r :: r in h.reg.clients[id].rooms ==> OwnRoom(h.reg.clients[id].info, r)
  {
    hide OwnRoom, MembersAgree, IndexAgrees;
    var h1, rooms := Disconnect(h, id), h.reg.clients[id].rooms;
    FewerClients(h.reg, id);
    assert {} + rooms == rooms;
    assert h1.Dir().own[id := rooms] == h.Dir().own;
  }

  lemma FewerClients(s: Registry, id: ClientId)
    requires ClientsOk(s) && id in s.clients
    ensures ClientsOk(s.(clients := s.clients - {id}))
  {
  }

  lemma RemoveClientKeeps(h: HubRep, id: ClientId)
    requires HubOk(h) && id in h.reg.clients
    ensures var c := h.reg.clients[id]; var h' := RemoveClient(h, id, c.info.org, c.rooms);
      HubOk(h') && h'.reg == Disconnect(h, id).reg
  {
    var c := h.reg.clients[id];
    DisconnectLeaves(h, id);
    TakeOutOfAllKeeps(Disconnect(h, id), c.info, c.rooms);
    LeftAll(TakeOutOfAll(Disconnect(h, id), id, c.info.org, c.rooms).Dir(), id);
  }

  function MembersOf(members: map<RoomKey, set<ClientId>>, rooms: set<RoomKey>): set<ClientId> {
    set r, id | r in rooms && r in members && id in members[r] :: id
  }

  /** No client is a member of two of the rooms. */
  ghost predicate OneRoomEach(members: map<RoomKey, set<ClientId>>, rooms: set<RoomKey>) {
    forall r1, r2, id :: r1 in rooms && r2 in rooms && Has(members, r1, id) && Has(members, r2, id) ==> r1 == r2
  }

  function Offered(h: HubRep, targets: set<ClientId>, payload: Payload): HubRep {
    h.(reg := h.reg.(clients := OfferTo(h.reg.clients, targets, payload)))
  }

  lemma QueuesChange(h: HubRep, clients: map<ClientId, ClientRec>)
    requires HubOk(h) && clients.Keys == h.reg.clients.Keys
    requires forall id :: id in clients ==>
      clients[id].info == h.reg.clients[id].info && clients[id].rooms == h.reg.clients[id].rooms
    ensures HubOk(h.(reg := h.reg.(clients := clients)))
  {
    hide OwnRoom, Consistent;
    assert |clients.Keys| == |h.reg.clients.Keys|;
    assert Own(clients) == Own(h.reg.clients);
  }

  lemma OfferKeeps(h: HubRep, targets: set<ClientId>, payload: Payload)
    requires HubOk(h)
    ensures HubOk(Offered(h, targets, payload))
  {
    hide HubOk;
    QueuesChange(h, OfferTo(h.reg.clients, targets, payload));
  }

  /** What an organization's indexed rooms reach, one room after the other, is one offer to each of their members. */
  lemma {:induction false} OfferRoomsOnce(h: HubRep, rooms: set<RoomKey>, payload: Payload)
    requires !h.reg.closed && rooms <= h.rooms.Keys
    requires OneRoomEach(h.rooms, rooms)
    ensures OfferRooms(h, rooms, payload) == Offered(h, MembersOf(h.rooms, rooms), payload)
    decreases rooms
  {
    hide OwnRoom, ParseRoomKey, BuildRoomKey;
    if rooms == {} {
      assert Offered(h, {}, payload) == h by { assert OfferTo(h.reg.clients, {}, payload) == h.reg.clients; }
    } else {
      var r :| r in rooms &&
        OfferRooms(h, rooms, payload) == OfferRooms(OfferRoom(h, r, payload), rooms - {r}, payload);
      var h1, rest := OfferRoom(h, r, payload), rooms - {r};
      assert h1 == Offered(h, h.rooms[r], payload);
      OfferRoomsOnce(h1, rest, payload);
      var others := MembersOf(h.rooms, rest);
      assert MembersOf(h.rooms, rooms) == h.rooms[r] + others;
      assert h.rooms[r] !! others by {
        forall id | id in h.rooms[r] ensures id !in others { assert Has(h.rooms, r, id); }
      }
      OfferTwice(h.reg.clients, h.rooms[r], others, payload);
    }
  }

  lemma OfferTwice(clients: map<ClientId, ClientRec>, first: set<ClientId>, second: set<ClientId>, payload: Payload)
    requires first !! second
    ensures OfferTo(OfferTo(clients, first, payload), second, payload) == OfferTo(clients, first + second, payload)
  {
  }

  /** The reverse index finds exactly the clients a scan of all clients would, and each of them in one room only. */
  lemma IndexIsScan(h: HubRep, org: Uuid, channel: string)
    requires HubOk(h)
    ensures var rooms := Entry(h.orgChannels, IndexKey(org, channel));
      && rooms <= h.rooms.Keys
      && MembersOf(h.rooms, rooms) == ChannelMembers(h.reg.clients, org, channel)
      && OneRoomEach(h.rooms, rooms)
  {
    var key := IndexKey(org, channel);
    var rooms := Entry(h.orgChannels, key);
    forall r | r in rooms ensures r in h.rooms && KeyOf(r) == key {
      assert Has(h.orgChannels, key, r);
    }
    forall r, id | r in rooms && Has(h.rooms, r, id)
      ensures id in ChannelMembers(h.reg.clients, org, channel)
      ensures r == RoomText(org, h.reg.clients[id].info.app, channel)
    {
      assert Has(h.Dir().own, id, r);
      FiledRoom(h.reg.clients[id].info, r, org, channel);
    }
    forall id | id in ChannelMembers(h.reg.clients, org, channel)
      ensures var r := RoomText(org, h.reg.clients[id].info.app, channel); r in rooms && Has(h.rooms, r, id)
    {
      var r := RoomText(org, h.reg.clients[id].info.app, channel);
      assert Has(h.Dir().own, id, r);
      assert Has(h.rooms, r, id);
      FiledRoom(h.reg.clients[id].info, r, org, channel);
      assert Has(h.orgChannels, key, r);
    }
    var reached := MembersOf(h.rooms, rooms);
    forall id ensures id in reached <==> id in ChannelMembers(h.reg.clients, org, channel) {
      if id in reached {
        var r :| r in rooms && id in h.rooms[r];
        assert Has(h.rooms, r, id);
      }
    }
  }

  /**
    BroadcastToOrganization through the reverse index is the plain scan: each client of the organization
    subscribed to the channel is offered the payload once, and nobody else is.
   */
  lemma BroadcastToOrganizationIsScan(h: HubRep, org: Uuid, channel: string, payload: Payload)
    requires HubOk(h)
    ensures OfferRooms(h, Entry(h.orgChannels, IndexKey(org, channel)), payload) ==
            Offered(h, ChannelMembers(h.reg.clients, org, channel), payload)
  {
    var rooms := Entry(h.orgChannels, IndexKey(org, channel));
    IndexIsScan(h, org, channel);
    if h.reg.closed {
      ClosedIsEmpty(h);
      assert Offered(h, ChannelMembers(h.reg.clients, org, channel), payload) == h by {
        assert OfferTo(map[], {}, payload) == map[];
      }
    } else {
      OfferRoomsOnce(h, rooms, payload);
    }
  }

  lemma ClosedIsEmpty(h: HubRep)
    requires HubOk(h) && h.reg.closed
    ensures h.rooms == map[] && h.orgChannels == map[]
  {
    NobodyLeft(h.Dir(), KeyOf);
  }

  lemma BroadcastIsScan(h: HubRep, room: RoomKey, payload: Payload)
    requires HubOk(h)
    ensures OfferRoom(h, room, payload) == Offered(h, RoomMembers(h.reg.clients, room), payload)
  {
    hide OwnRoom, ParseRoomKey, BuildRoomKey;
    var members := RoomMembers(h.reg.clients, room);
    forall id ensures id in members <==> Has(h.rooms, room, id) {
      assert Has(h.rooms, room, id) <==> Has(h.Dir().own, id, room);
    }
    if room in h.rooms {
      assert members == h.rooms[room];
    } else {
      assert members == {};
    }
    assert h.reg.closed || members == {} ==> OfferTo(h.reg.clients, members, payload) == h.reg.clients;
  }

  /** What Register asks of its caller: a client id that is not in use. */
  predicate Legal(s: Registry, op: Op) {
    op.Register? ==> op.info.id !in s.clients
  }

  /**
    Every call keeps the members and the index in agreement with the clients, and does to the clients what
    the plain view says.
   */
  lemma StepRefines(h: HubRep, op: Op)
    requires HubOk(h) && Legal(h.reg, op)
    ensures HubOk(Step(h, op)) && Step(h, op).reg == Apply(h.reg, op)
  {
    hide HubOk, BuildRoomKey;
    match op
    case Register(info, queue, capacity) =>
      if !h.reg.closed && |h.reg.clients.Keys| < h.reg.maxConnections {
        RegisterKeeps(h, info, queue, capacity);
      }
    case Subscribe(id, channel) =>
      if ChannelRoom(h.reg, id, channel).Ok? {
        ChannelRoomIsOwn(h.reg, id, channel);
        AddToRoomKeeps(h, id, ChannelRoom(h.reg, id, channel).value);
      }
    case Unsubscribe(id, channel) =>
      if ChannelRoom(h.reg, id, channel).Ok? {
        ChannelRoomIsOwn(h.reg, id, channel);
        RemoveFromRoomKeeps(h, id, ChannelRoom(h.reg, id, channel).value);
      }
    case Unregister(id) =>
      if id in h.reg.clients {
        RemoveClientKeeps(h, id);
      } else {
        assert h.reg.clients - {id} == h.reg.clients;
      }
    case Close => CloseKeeps(h);
    case SendToClient(id, payload) => SendKeeps(h, id, payload);
    case Broadcast(room, payload) =>
      BroadcastIsScan(h, room, payload);
      OfferKeeps(h, RoomMembers(h.reg.clients, room), payload);
    case BroadcastToOrganization(org, channel, payload) =>
      BroadcastToOrganizationIsScan(h, org, channel, payload);
      OfferKeeps(h, ChannelMembers(h.reg.clients, org, channel), payload);
    case Receive(id) => ReceiveKeeps(h, id);
  }

  lemma RegisterKeeps(h: HubRep, info: ClientInfo, queue: seq<Payload>, capacity: nat)
    requires HubOk(h) && info.id !in h.reg.clients && !h.reg.closed && |h.reg.clients.Keys| < h.reg.maxConnections
    ensures var op := Register(info, queue, capacity);
      HubOk(Step(h, op)) && Step(h, op).reg == Apply(h.reg, op)
  {
    hide HubOk, BuildRoomKey;
    var h1 := Admitted(h, ClientRec(info, {}, queue, capacity));
    var room := RoomText(info.org, info.app, DEFAULT_CHANNEL);
    NewClientKeeps(h, ClientRec(info, {}, queue, capacity));
    DefaultRoom(info.org, info.app);
    OwnDefaultRoom(info);
    AddToRoomKeeps(h1, info.id, room);
    FirstRoom(h, info, queue, capacity, room);
  }

  lemma OwnDefaultRoom(info: ClientInfo)
    ensures OwnRoom(info, RoomText(info.org, info.app, DEFAULT_CHANNEL))
  {
  }

  /** Registration with room to spare is one admission and one join. */
  lemma AdmitStep(h: HubRep, info: ClientInfo, queue: seq<Payload>, capacity: nat)
    requires !h.reg.closed && |h.reg.clients.Keys| < h.reg.maxConnections
    ensures Step(h, Register(info, queue, capacity)) ==
            AddToRoom(Admitted(h, ClientRec(info, {}, queue, capacity)), info.id,
              RoomText(info.org, info.app, DEFAULT_CHANNEL))
  {
    hide BuildRoomKey;
    DefaultRoom(info.org, info.app);
  }

  lemma FirstRoom(h: HubRep, info: ClientInfo, queue: seq<Payload>, capacity: nat, room: RoomKey)
    ensures var h1 := Admitted(h, ClientRec(info, {}, queue, capacity));
      AddToRoom(h1, info.id, room).reg.clients == h.reg.clients[info.id := ClientRec(info, {room}, queue, capacity)]
  {
    assert {} + {room} == {room};
  }

  lemma NewClientOk(s: Registry, c: ClientRec)
    requires ClientsOk(s) && c.info.id !in s.clients && c.rooms == {}
    requires !s.closed && |s.clients.Keys| < s.maxConnections
    ensures ClientsOk(s.(clients := s.clients[c.info.id := c]))
  {
  }

  /** A client without rooms changes neither the members nor the index. */
  lemma NewClientKeeps(h: HubRep, c: ClientRec)
    requires HubOk(h) && c.info.id !in h.reg.clients && !h.reg.closed && |h.reg.clients.Keys| < h.reg.maxConnections
    requires c.rooms == {}
    ensures HubOk(Admitted(h, c))
  {
    hide ClientsOk, Consistent;
    var h1 := Admitted(h, c);
    NewClientOk(h.reg, c);
    NewcomerKeeps(h.Dir(), KeyOf, c.info.id);
    assert h1.Dir().own == h.Dir().own[c.info.id := {}];
  }

  lemma CloseKeeps(h: HubRep)
    requires HubOk(h)
    ensures HubOk(Step(h, Close))
  {
    hide OwnRoom, ParseRoomKey, BuildRoomKey;
    assert Step(h, Close).Dir().own == map[];
  }

  lemma SendKeeps(h: HubRep, id: ClientId, payload: Payload)
    requires HubOk(h)
    ensures var op := SendToClient(id, payload); HubOk(Step(h, op)) && Step(h, op).reg == Apply(h.reg, op)
  {
    hide Consistent, OwnRoom;
    OfferKeeps(h, {id}, payload);
    OfferToOne(h.reg.clients, id, payload);
  }

  lemma OfferToOne(clients: map<ClientId, ClientRec>, id: ClientId, payload: Payload)
    ensures OfferTo(clients, {id}, payload) ==
      if id in clients then clients[id := clients[id].Offer(payload)] else clients
  {
  }

  lemma ReceiveKeeps(h: HubRep, id: ClientId)
    requires HubOk(h)
    ensures HubOk(Step(h, Receive(id)))
  {
    hide HubOk;
    QueuesChange(h, Apply(h.reg, Receive(id)).clients);
  }

  // ----- Whole runs -----

  function NewHub(maxConnections: int): HubRep {
    HubRep(Registry(if maxConnections <= 0 then 1000 else maxConnections, map[], false), map[], map[])
  }

  ghost function Run(h: HubRep, ops: seq<Op>): HubRep
    decreases |ops|
  {
    if ops == [] then h else Run(Step(h, ops[0]), ops[1..])
  }

  ghost predicate LegalRun(h: HubRep, ops: seq<Op>)
    decreases |ops|
  {
    ops == [] || (Legal(h.reg, ops[0]) && LegalRun(Step(h, ops[0]), ops[1..]))
  }

  function ApplyAll(s: Registry, ops: seq<Op>): Registry
    decreases |ops|
  {
    if ops == [] then s else ApplyAll(Apply(s, ops[0]), ops[1..])
  }

  lemma {:induction false} RunFrom(h: HubRep, ops: seq<Op>)
    requires HubOk(h) && LegalRun(h, ops)
    ensures HubOk(Run(h, ops)) && Run(h, ops).reg == ApplyAll(h.reg, ops)
    decreases |ops|
  {
    if ops != [] {
      StepRefines(h, ops[0]);
      RunFrom(Step(h, ops[0]), ops[1..]);
    }
  }

  /** Every run of calls on a new hub: the structures agree, and the clients are what the plain view computes. */
  lemma EveryRunIsConsistent(maxConnections: int, ops: seq<Op>)
    requires LegalRun(NewHub(maxConnections), ops)
    ensures var h := Run(NewHub(maxConnections), ops);
      HubOk(h) && h.reg == ApplyAll(NewHub(maxConnections).reg, ops)
  {
    RunFrom(NewHub(maxConnections), ops);
  }

  // ----- The session's shadow client -----

  /**
    A session builds a second client object with the same id and an empty room set, and its read pump
    hands that object to removeClient.  The hub survives this exactly when the registered client had
    no rooms, which registration alone already rules out.
   */
  lemma ShadowRemoval(h: HubRep, id: ClientId, org: Uuid)
    requires HubOk(h) && id in h.reg.clients
    ensures HubOk(RemoveClient(h, id, org, {})) <==> h.reg.clients[id].rooms == {}
  {
    var c, h' := h.reg.clients[id], RemoveClient(h, id, org, {});
    assert h' == Disconnect(h, id);
    if c.rooms == {} {
      RemoveClientKeeps(h, id);
    } else {
      var r :| r in c.rooms;
      assert Has(h.Dir().own, id, r) && Has(h'.Dir().members, r, id) && !Has(h'.Dir().own, id, r);
    }
  }
}
