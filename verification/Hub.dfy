/**
  The connection hub as it runs: objects updated in place
  (internal/infrastructure/websocket/hub.go and client.go).

  Sending on a closed channel and closing a channel twice both stop the original program, so they are
  preconditions of SendChan here, met by every method below.
 */
module Hub {
  import opened Outcomes
  import opened Uuids
  import opened RoomKeys
  import opened RoomDirectory
  import opened HubModel
  import HubCalls

  /** A buffered channel with its closed flag. */
  class SendChan {
    const capacity: nat
    var buffer: seq<Payload>
    var closed: bool

    constructor (capacity: nat)
      ensures this.capacity == capacity && buffer == [] && !closed
    {
      this.capacity := capacity;
      buffer, closed := [], false;
    }

    method TrySend(payload: Payload) returns (sent: bool)
      requires !closed
      modifies this`buffer
      ensures sent == (|old(buffer)| < capacity)
      ensures buffer == if sent then old(buffer) + [payload] else old(buffer)
    {
      sent := |buffer| < capacity;
      if sent {
        buffer := buffer + [payload];
      }
    }

    method Close()
      requires !closed
      modifies this`closed
      ensures closed
    {
      closed := true;
    }
  }

  class Client {
    const info: ClientInfo
    const send: SendChan
    var rooms: set<RoomKey>
    var closed: bool

    constructor (info: ClientInfo, send: SendChan)
      ensures this.info == info && this.send == send && rooms == {} && !closed
    {
      this.info, this.send := info, send;
      rooms, closed := {}, false;
    }

    ghost function Record(): ClientRec
      reads this, send
    {
      ClientRec(info, rooms, send.buffer, send.capacity)
    }

    method Subscribe(room: RoomKey)
      modifies this`rooms
      ensures rooms == old(rooms) + {room}
    {
      rooms := rooms + {room};
    }

    method Unsubscribe(room: RoomKey)
      modifies this`rooms
      ensures rooms == old(rooms) - {room}
    {
      rooms := rooms - {room};
    }

    method CloseSend()
      requires !closed ==> !send.closed
      modifies this`closed, send`closed
      ensures closed
      ensures send.closed == (!old(closed) || old(send.closed))
    {
      if !closed {
        closed := true;
        send.Close();
      }
    }
  }

  function Names<V>(rooms: map<RoomKey, map<ClientId, V>>): map<RoomKey, set<ClientId>> {
    map r | r in rooms :: rooms[r].Keys
  }

  lemma NamesUpdate<V>(rooms: map<RoomKey, map<ClientId, V>>, room: RoomKey, members: map<ClientId, V>)
    ensures Names(rooms[room := members]) == Names(rooms)[room := members.Keys]
  {
  }

  lemma NamesRemove<V>(rooms: map<RoomKey, map<ClientId, V>>, room: RoomKey)
    ensures Names(rooms - {room}) == Names(rooms) - {room}
  {
  }

  /** A client id stands for one object ever handed out, with a channel of its own. */
  ghost predicate Identified(clients: map<ClientId, Client>, issued: set<Client>) {
    && (forall id :: id in clients ==> clients[id] in issued && clients[id].info.id == id)
    && (forall c, d :: c in issued && d in issued && c != d ==> c.info.id != d.info.id && c.send != d.send)
  }

  /** The member maps point at the registered objects. */
  ghost predicate MembersAreClients(rooms: map<RoomKey, map<ClientId, Client>>, clients: map<ClientId, Client>) {
    forall r, id :: r in rooms && id in rooms[r] ==> id in clients && rooms[r][id] == clients[id]
  }

  lemma IdentifiedGrows(clients: map<ClientId, Client>, issued: set<Client>,
                        rooms: map<RoomKey, map<ClientId, Client>>, c: Client)
    requires Identified(clients, issued) && MembersAreClients(rooms, clients)
    requires forall d :: d in issued ==> d.info.id != c.info.id && d.send != c.send
    ensures c.info.id !in clients
    ensures Identified(clients[c.info.id := c], issued + {c})
    ensures MembersAreClients(rooms, clients[c.info.id := c])
  {
  }

  /** Members only left. */
  ghost predicate Narrowed(before: map<RoomKey, map<ClientId, Client>>, after: map<RoomKey, map<ClientId, Client>>) {
    forall r, id :: r in after && id in after[r] ==> r in before && id in before[r] && after[r][id] == before[r][id]
  }

  lemma NarrowedAreClients(before: map<RoomKey, map<ClientId, Client>>, after: map<RoomKey, map<ClientId, Client>>,
                           clients: map<ClientId, Client>)
    requires MembersAreClients(before, clients) && Narrowed(before, after)
    ensures MembersAreClients(after, clients)
  {
  }

  class Hub {
    const maxConnections: int
    var clients: map<ClientId, Client>
    var rooms: map<RoomKey, map<ClientId, Client>>
    var orgChannels: map<string, set<RoomKey>>
    var closed: bool
    /** Every client object Register ever handed out. */
    ghost var issued: set<Client>

    ghost function Sends(): set<SendChan>
      reads this`clients
    {
      set id | id in clients :: clients[id].send
    }

    ghost function Records(): map<ClientId, ClientRec>
      reads this`clients, clients.Values, Sends()
    {
      map id | id in clients :: clients[id].Record()
    }

    /** As long as no client object or channel changes, neither do their records. */
    twostate lemma SameRecords()
      requires clients == old(clients)
      requires forall id :: id in clients ==> unchanged(clients[id]) && unchanged(clients[id].send)
      ensures Records() == old(Records())
    {
    }

    /** Changing one client object changes its record only. */
    twostate lemma OneRecord(id: ClientId)
      requires clients == old(clients) && id in clients
      requires forall j :: j in clients && j != id ==> unchanged(clients[j]) && unchanged(clients[j].send)
      ensures Records() == old(Records())[id := clients[id].Record()]
    {
    }

    ghost function Rep(): HubRep
      reads this, clients.Values, Sends()
    {
      HubRep(Registry(maxConnections, Records(), closed), Names(rooms), orgChannels)
    }

    /** One object per id, open channels, and structures that agree. */
    ghost predicate Valid()
      reads this, clients.Values, Sends()
    {
      && Identified(clients, issued)
      && MembersAreClients(rooms, clients)
      && AllOpen()
      && HubOk(Rep())
    }

    ghost predicate AllOpen()
      reads this`clients, clients.Values, Sends()
    {
      forall id :: id in clients ==> !clients[id].closed && !clients[id].send.closed
    }

    constructor (maxConnections: int)
      ensures Valid() && Rep() == NewHub(maxConnections) && issued == {}
    {
      this.maxConnections := if maxConnections <= 0 then 1000 else maxConnections;
      clients, rooms, orgChannels, closed, issued := map[], map[], map[], false, {};
      new;
      assert Rep() == NewHub(maxConnections);
      EveryRunIsConsistent(maxConnections, []);
    }

    /**
      Adds a client under a fresh id with a fresh channel; the result is what the unregister function
      removes, if anything.
     */
    method Register(info: ClientInfo, send: SendChan) returns (registered: Client?)
      requires Valid()
      requires forall c :: c in issued ==> c.info.id != info.id && c.send != send
      requires !send.closed
      modifies this, send`closed
      ensures Rep() == Step(old(Rep()), HubModel.Register(info, send.buffer, send.capacity))
      ensures registered != null ==> fresh(registered) && registered.info == info && registered.send == send
      ensures issued == old(issued) + (if registered == null then {} else {registered})
      ensures send.closed == (!old(closed) && |old(clients).Keys| >= maxConnections)
      ensures Valid()
    {
      hide HubOk, MembersAreClients, AllOpen, Identified;
      registered := null;
      assert Records().Keys == clients.Keys;
      if closed {
        return;
      }
      if |clients.Keys| >= maxConnections {
        send.Close();
        ForeignClose(send);
        return;
      }
      registered := AdmitLocked(info, send);
    }

    /** The branch of Register that finds room: the new client joins its default room. */
    method AdmitLocked(info: ClientInfo, send: SendChan) returns (c: Client)
      requires Valid() && !closed && |clients.Keys| < maxConnections
      requires forall d :: d in issued ==> d.info.id != info.id && d.send != send
      requires !send.closed
      modifies this
      ensures Rep() == Step(old(Rep()), HubModel.Register(info, send.buffer, send.capacity))
      ensures fresh(c) && c.info == info && c.send == send
      ensures issued == old(issued) + {c}
      ensures Valid()
    {
      hide HubOk, MembersAreClients, AllOpen, AddToRoom, BuildRoomKey, Step, Identified, Admitted;
      ghost var h := Rep();
      assert Records().Keys == clients.Keys;
      AdmitStep(h, info, send.buffer, send.capacity);
      DefaultRoom(info.org, info.app);
      c := EnterLocked(info, send);
      var room := BuildRoomKey(info.org, info.app, DEFAULT_CHANNEL);
      if room.Ok? {
        OwnDefaultRoom(info);
        AddToRoomLocked(c, room.value);
      }
    }

    /** The new client object is on the clients map, in no room yet. */
    method EnterLocked(info: ClientInfo, send: SendChan) returns (c: Client)
      requires Valid() && !closed && |clients.Keys| < maxConnections
      requires forall d :: d in issued ==> d.info.id != info.id && d.send != send
      requires !send.closed
      modifies this
      ensures Rep() == Admitted(old(Rep()), ClientRec(info, {}, send.buffer, send.capacity))
      ensures fresh(c) && c.info == info && c.send == send
      ensures clients == old(clients)[info.id := c] && issued == old(issued) + {c}
      ensures Valid()
    {
      hide HubOk, MembersAreClients, Identified, Admitted;
      c := new Client(info, send);
      clients := clients[info.id := c];
      issued := issued + {c};
      ClientAdded(c);
    }

    /** Closing a channel no client has touches nothing the hub stands for. */
    twostate lemma ForeignClose(send: SendChan)
      requires old(Valid()) && unchanged(this)
      requires forall c :: c in issued ==> c.send != send
      requires forall id :: id in clients ==>
        unchanged(clients[id]) && (clients[id].send == send || unchanged(clients[id].send))
      ensures Rep() == old(Rep()) && Valid()
    {
      hide HubOk;
      SameRecords();
    }

    /** A new object with a channel of its own, and still without rooms. */
    twostate lemma ClientAdded(new c: Client)
      requires old(Valid()) && !closed && closed == old(closed) && |old(clients).Keys| < maxConnections
      requires clients == old(clients)[c.info.id := c] && issued == old(issued) + {c}
      requires forall d :: d in old(issued) ==> d.info.id != c.info.id && d.send != c.send
      requires rooms == old(rooms) && orgChannels == old(orgChannels)
      requires forall id :: id in old(clients) ==> unchanged(old(clients)[id]) && unchanged(old(clients)[id].send)
      requires c.rooms == {} && !c.closed && !c.send.closed
      ensures Rep() == Admitted(old(Rep()), c.Record())
      ensures Valid()
    {
      hide HubOk, Identified, MembersAreClients;
      IdentifiedGrows(old(clients), old(issued), rooms, c);
      assert old(Records()).Keys == old(clients).Keys;
      NewClientKeeps(old(Rep()), c.Record());
      assert Records() == old(Records())[c.info.id := c.Record()];
    }

    method Subscribe(clientID: ClientId, channel: string) returns (r: Result<(), HubError>)
      requires Valid()
      modifies this, clients.Values
      ensures Rep().reg == Apply(old(Rep()).reg, HubModel.Subscribe(clientID, channel))
      ensures Valid() && clients == old(clients) && issued == old(issued)
      ensures r.Ok? <==> clientID in clients && IsChannelName(HubCalls.AskedName(channel))
      ensures r.Ok? ==> HubCalls.OnlyRooms(old(Rep()).reg, Rep().reg, clientID,
        old(Rep()).reg.clients[clientID].rooms + {HubCalls.RoomOf(clients[clientID].info, HubCalls.AskedName(channel))})
      ensures r.Err? ==> Rep() == old(Rep())
      ensures r.Err? ==> r.error == if clientID !in clients then ClientNotFound else BadChannel(InvalidChannelName)
    {
      hide HubOk, OwnRoom, BuildRoomKey, MembersAreClients, AllOpen, AddToRoom, RemoveFromRoom, IsChannelName;
      hide HubCalls.OnlyRooms, HubCalls.RoomOf, HubCalls.AskedName;
      if clientID !in clients {
        return Err(ClientNotFound);
      }
      HubCalls.AskedRoom(Rep().reg, clientID, channel);
      var c := clients[clientID];
      var room := BuildRoomKey(c.info.org, c.info.app, channel);
      if room.Err? {
        return Err(BadChannel(room.error));
      }
      HubCalls.SubscribeJoins(Rep().reg, clientID, channel);
      ChannelRoomIsOwn(Rep().reg, clientID, channel);
      AddToRoomKeeps(Rep(), clientID, room.value);
      AddToRoomLocked(c, room.value);
      return Ok(());
    }

    method Unsubscribe(clientID: ClientId, channel: string) returns (r: Result<(), HubError>)
      requires Valid()
      modifies this, clients.Values
      ensures Rep().reg == Apply(old(Rep()).reg, HubModel.Unsubscribe(clientID, channel))
      ensures Valid() && clients == old(clients) && issued == old(issued)
      ensures r.Ok? <==> clientID in clients && IsChannelName(HubCalls.AskedName(channel))
      ensures r.Ok? ==> HubCalls.OnlyRooms(old(Rep()).reg, Rep().reg, clientID,
        old(Rep()).reg.clients[clientID].rooms - {HubCalls.RoomOf(clients[clientID].info, HubCalls.AskedName(channel))})
      ensures r.Err? ==> Rep() == old(Rep())
      ensures r.Err? ==> r.error == if clientID !in clients then ClientNotFound else BadChannel(InvalidChannelName)
    {
      hide HubOk, OwnRoom, BuildRoomKey, MembersAreClients, AllOpen, AddToRoom, RemoveFromRoom, IsChannelName;
      hide HubCalls.OnlyRooms, HubCalls.RoomOf, HubCalls.AskedName;
      if clientID !in clients {
        return Err(ClientNotFound);
      }
      HubCalls.AskedRoom(Rep().reg, clientID, channel);
      var c := clients[clientID];
      var room := BuildRoomKey(c.info.org, c.info.app, channel);
      if room.Err? {
        return Err(BadChannel(room.error));
      }
      HubCalls.UnsubscribeLeaves(Rep().reg, clientID, channel);
      ChannelRoomIsOwn(Rep().reg, clientID, channel);
      RemoveFromRoomKeeps(Rep(), clientID, room.value);
      RemoveFromRoomLocked(c, room.value);
      return Ok(());
    }

    method SendToClient(clientID: ClientId, payload: Payload)
      requires Valid()
      modifies Sends()
      ensures Rep().reg == Apply(old(Rep()).reg, HubModel.SendToClient(clientID, payload))
      ensures Valid()
    {
      hide HubOk, MembersAreClients, OfferTo;
      SendKeeps(Rep(), clientID, payload);
      OfferToOne(Records(), clientID, payload);
      if clientID !in clients || closed {
        return;
      }
      OfferOne(clientID, payload);
    }

    /** One non-blocking send on a registered client's channel. */
    method OfferOne(id: ClientId, payload: Payload)
      requires Identified(clients, issued) && AllOpen() && id in clients
      modifies clients[id].send`buffer
      ensures Records() == old(Records())[id := old(Records())[id].Offer(payload)]
      ensures AllOpen()
    {
      var sent := clients[id].send.TrySend(payload);
      OneRecord(id);
    }

    method Broadcast(room: RoomKey, payload: Payload)
      requires Valid()
      modifies Sends()
      ensures Rep().reg == Apply(old(Rep()).reg, HubModel.Broadcast(room, payload))
      ensures Valid()
    {
      hide HubOk;
      BroadcastIsScan(Rep(), room, payload);
      BroadcastLocked(room, payload);
    }

    method BroadcastToOrganization(org: Uuid, channel: string, payload: Payload)
      requires Valid()
      modifies Sends()
      ensures Rep().reg == Apply(old(Rep()).reg, HubModel.BroadcastToOrganization(org, channel, payload))
      ensures Valid()
    {
      hide HubOk, MembersAreClients, AllOpen, Identified, OneRoomEach, MembersOf, OfferTo, ChannelMembers;
      var orgKey := UuidText(org) + ":" + channel;
      var targets := if orgKey in orgChannels then orgChannels[orgKey] else {};
      IndexIsScan(Rep(), org, channel);
      OfferRoomsLocked(targets, payload);
    }

    /** BroadcastToOrganization's loop over the indexed rooms. */
    method OfferRoomsLocked(targets: set<RoomKey>, payload: Payload)
      requires Valid() && targets <= Rep().rooms.Keys && OneRoomEach(Rep().rooms, targets)
      modifies Sends()
      ensures Rep() == Offered(old(Rep()), MembersOf(old(Rep()).rooms, targets), payload)
      ensures Valid()
    {
      hide HubOk, OfferRoom, MembersAreClients, AllOpen, Identified, OneRoomEach, MembersOf, OfferTo;
      ghost var h := Rep();
      var todo := targets;
      ghost var done := {};
      NoOffer(h, payload);
      while todo != {}
        invariant done !! todo && done + todo == targets
        invariant Valid()
        invariant Rep() == Offered(h, MembersOf(h.rooms, done), payload)
        decreases todo
      {
        var room :| room in todo;
        NextRoom(h, targets, done, room, payload);
        BroadcastLocked(room, payload);
        todo, done := todo - {room}, done + {room};
      }
      assert done == targets;
    }

    method BroadcastLocked(room: RoomKey, payload: Payload)
      requires Valid()
      modifies Sends()
      ensures Rep() == OfferRoom(old(Rep()), room, payload)
      ensures Valid()
    {
      hide HubOk, OfferTo;
      if closed || room !in rooms {
        return;
      }
      var members := rooms[room];
      OfferKeeps(Rep(), members.Keys, payload);
      OfferMembersLocked(members, payload);
    }

    /** The loop of broadcastLocked: one non-blocking send to each member of a room. */
    method OfferMembersLocked(members: map<ClientId, Client>, payload: Payload)
      requires Identified(clients, issued) && AllOpen()
      requires forall id :: id in members ==> id in clients && members[id] == clients[id]
      modifies Sends()
      ensures Records() == OfferTo(old(Records()), members.Keys, payload)
      ensures AllOpen()
    {
      hide OfferTo;
      ghost var before := Records();
      var todo := members.Keys;
      ghost var done := {};
      OfferNone(before, payload);
      while todo != {}
        invariant done !! todo && done + todo == members.Keys
        invariant AllOpen()
        invariant Records() == OfferTo(before, done, payload)
        decreases todo
      {
        var id :| id in todo;
        OfferNext(before, done, id, payload);
        OfferOne(id, payload);
        todo, done := todo - {id}, done + {id};
      }
      assert done == members.Keys;
    }

    method ConnectionCount() returns (n: nat)
      requires Valid()
      ensures n == |Rep().reg.clients|
    {
      assert clients.Keys == Rep().reg.clients.Keys;
      n := |clients|;
    }

    method Close()
      requires Valid()
      modifies this, clients.Values, Sends()
      ensures Rep() == Step(old(Rep()), HubModel.Close)
      ensures Valid() && issued == old(issued)
      ensures forall id :: id in old(clients) ==> old(clients)[id].closed && old(clients)[id].send.closed
    {
      hide HubOk, AllOpen;
      CloseKeeps(Rep());
      closed := true;
      CloseAll();
      ForgetAll();
    }

    method ForgetAll()
      modifies this`clients, this`rooms, this`orgChannels
      ensures clients == map[] && rooms == map[] && orgChannels == map[]
      ensures Records() == map[] && Names(rooms) == map[] && AllOpen()
    {
      clients, rooms, orgChannels := map[], map[], map[];
    }

    method CloseAll()
      requires AllOpen() && Identified(clients, issued)
      modifies clients.Values, Sends()
      ensures forall id :: id in clients ==> clients[id].closed && clients[id].send.closed
    {
      var todo := clients.Keys;
      while todo != {}
        invariant todo <= clients.Keys
        invariant forall id :: id in clients && id !in todo ==> clients[id].closed && clients[id].send.closed
        invariant forall id :: id in todo ==> !clients[id].closed && !clients[id].send.closed
        decreases todo
      {
        var id :| id in todo;
        clients[id].CloseSend();
        todo := todo - {id};
      }
    }

    /** Files a room in the reverse index. */
    method IndexLocked(org: Uuid, room: RoomKey)
      modifies this`orgChannels
      ensures orgChannels == FileRoom(old(orgChannels), RoomIndexKey(org, room), room)
    {
      hide ParseRoomKey;
      var parts := ParseRoomKey(room);
      if parts.Ok? {
        var orgKey := UuidText(org) + ":" + parts.value.channel;
        if orgKey !in orgChannels {
          orgChannels := orgChannels[orgKey := {}];
        }
        orgChannels := orgChannels[orgKey := orgChannels[orgKey] + {room}];
      }
    }

    method JoinLocked(c: Client, room: RoomKey)
      requires MembersAreClients(rooms, clients) && c.info.id in clients && clients[c.info.id] == c
      modifies this`rooms
      ensures MembersAreClients(rooms, clients)
      ensures Names(rooms) == JoinMembers(old(Names(rooms)), c.info.id, room)
    {
      var members: map<ClientId, Client> := if room in rooms then rooms[room] else map[];
      NamesUpdate(rooms, room, members[c.info.id := c]);
      assert members[c.info.id := c].Keys == Entry(Names(rooms), room) + {c.info.id};
      rooms := rooms[room := members[c.info.id := c]];
    }

    /** After a change to one client's room set and to the two maps, the hub stands for h. */
    twostate lemma RoomsChanged(c: Client, new h: HubRep)
      requires old(AllOpen()) && clients == old(clients) && closed == old(closed)
      requires Identified(clients, issued) && c.info.id in clients && clients[c.info.id] == c
      requires forall id :: id in clients ==>
        (clients[id] == c || unchanged(clients[id])) && unchanged(clients[id].send)
      requires c.closed == old(c.closed)
      requires h == HubRep(Resubscribe(old(Rep()).reg, c.info.id, c.rooms), Names(rooms), orgChannels)
      requires MembersAreClients(rooms, clients) && HubOk(h)
      ensures Rep() == h && Valid()
    {
      hide HubOk, MembersAreClients;
      OneRecord(c.info.id);
    }

    method AddToRoomLocked(c: Client, room: RoomKey)
      requires Valid() && c.info.id in clients && clients[c.info.id] == c
      requires OwnRoom(c.info, room)
      modifies this`rooms, this`orgChannels, c`rooms
      ensures Rep() == AddToRoom(old(Rep()), c.info.id, room)
      ensures Valid()
    {
      hide HubOk, OwnRoom, RoomIndexKey, MembersAreClients, AllOpen, JoinMembers, FileRoom, Identified;
      ghost var h := AddToRoom(Rep(), c.info.id, room);
      AddToRoomKeeps(Rep(), c.info.id, room);
      JoinLocked(c, room);
      c.Subscribe(room);
      IndexLocked(c.info.org, room);
      RoomsChanged(c, h);
    }

    /** Takes an emptied room out of the reverse index. */
    method UnindexLocked(org: Uuid, room: RoomKey)
      modifies this`orgChannels
      ensures orgChannels == UnfileRoom(old(orgChannels), RoomIndexKey(org, room), room)
    {
      hide ParseRoomKey;
      var parts := ParseRoomKey(room);
      if parts.Ok? {
        var orgKey := UuidText(org) + ":" + parts.value.channel;
        if orgKey in orgChannels {
          var left := orgChannels[orgKey] - {room};
          assert left == {} <==> |left| == 0;
          orgChannels := orgChannels[orgKey := left];
          if |left| == 0 {
            orgChannels := orgChannels - {orgKey};
          }
        }
      }
    }

    /** Takes an id out of a room's members, and an emptied room out of both maps. */
    method TakeOutLocked(info: ClientInfo, room: RoomKey)
      modifies this`rooms, this`orgChannels
      ensures Names(rooms) == DropMembers(old(Names(rooms)), info.id, room)
      ensures orgChannels == if Empties(old(Names(rooms)), info.id, room)
        then UnfileRoom(old(orgChannels), RoomIndexKey(info.org, room), room) else old(orgChannels)
      ensures Narrowed(old(rooms), rooms)
    {
      hide RoomIndexKey, UnfileRoom;
      if room in rooms {
        var members := rooms[room] - {info.id};
        NamesUpdate(rooms, room, members);
        NamesRemove(rooms, room);
        assert members.Keys == Names(rooms)[room] - {info.id};
        assert members.Keys == {} <==> |members| == 0;
        if |members| == 0 {
          rooms := rooms - {room};
          UnindexLocked(info.org, room);
        } else {
          rooms := rooms[room := members];
        }
      }
    }

    method RemoveFromRoomLocked(c: Client, room: RoomKey)
      requires Valid() && c.info.id in clients && clients[c.info.id] == c
      requires OwnRoom(c.info, room)
      modifies this`rooms, this`orgChannels, c`rooms
      ensures Rep() == RemoveFromRoom(old(Rep()), c.info.id, room)
      ensures Valid()
    {
      hide HubOk, OwnRoom, DropMembers, UnfileRoom, Empties, AllOpen, RoomIndexKey, Identified;
      hide MembersAreClients, Narrowed;
      ghost var h := RemoveFromRoom(Rep(), c.info.id, room);
      RemoveFromRoomKeeps(Rep(), c.info.id, room);
      TakeOutLocked(c.info, room);
      NarrowedAreClients(old(rooms), rooms, clients);
      c.Unsubscribe(room);
      RoomsChanged(c, h);
    }

    /** The second object a session builds for a connection: the same id and channel, and no rooms. */
    ghost predicate Shadow(c: Client)
      reads this, clients.Values, Sends(), c, c.send
    {
      && c !in issued && c.rooms == {}
      && (c.info.id in clients ==> clients[c.info.id].send == c.send && !c.closed)
    }

    /**
      removeClient.  For an object Register returned, the hub is afterwards as it was without the client, and
      calling it again, or after Close, changes nothing.  For a session's second object the client is off the
      clients map and the channel is closed, but the hub stays valid only if the client had no rooms.
     */
    method RemoveClient(c: Client)
      requires Valid() && (c in issued || Shadow(c))
      modifies this, c`closed, c.send`closed
      ensures Rep().reg == Apply(old(Rep()).reg, HubModel.Unregister(c.info.id))
      ensures issued == old(issued)
      ensures c.info.id in old(clients) ==> c.closed && c.send.closed
      ensures c.info.id !in old(clients) ==>
        Rep() == old(Rep()) && c.closed == old(c.closed) && c.send.closed == old(c.send.closed)
      ensures c !in issued && c.info.id in old(clients) ==> Rep() == Disconnect(old(Rep()), c.info.id)
      ensures Valid() <==>
        c in issued || c.info.id !in old(clients) || old(Rep()).reg.clients[c.info.id].rooms == {}
    {
      hide HubOk, MembersAreClients, Leaving, Consistent, ClientsOk, AllOpen, Names, KeyOf, Apply, Disconnect;
      UnregisterDisconnects(Rep(), c.info.id);
      if c.info.id !in clients {
        return;
      }
      OpenAt(c.info.id);
      DetachLocked(c);
      label Left:
      c.CloseSend();
      SameRecords@Left();
      if c in issued {
        ClientGone(c);
      } else {
        ShadowGone(c);
      }
    }

    /** The client leaves the clients map and the rooms its object carries. */
    method DetachLocked(c: Client)
      requires Valid() && (c in issued || Shadow(c)) && c.info.id in clients
      modifies this`clients, this`rooms, this`orgChannels
      ensures clients == old(clients) - {c.info.id}
      ensures c in issued ==>
        MembersAreClients(rooms, old(clients)) && Leaving(Rep().Dir(), KeyOf, c.info.id, {})
      ensures c !in issued ==> rooms == old(rooms) && orgChannels == old(orgChannels)
    {
      hide HubOk, MembersAreClients, Leaving, Consistent, ClientsOk, AllOpen, Narrowed, OwnRoom, Names;
      DisconnectLeaves(Rep(), c.info.id);
      clients := clients - {c.info.id};
      RecordsWithout(c);
      LeaveRooms(c.info, c.rooms);
      NarrowedAreClients(old(rooms), rooms, old(clients));
    }

    /** The session's second object was removed: only the clients map and its own channel changed. */
    twostate lemma ShadowGone(c: Client)
      requires old(Valid()) && c !in issued && old(c.info.id in clients && clients[c.info.id].send == c.send)
      requires clients == old(clients) - {c.info.id} && issued == old(issued) && closed == old(closed)
      requires rooms == old(rooms) && orgChannels == old(orgChannels)
      requires forall id :: id in clients ==> unchanged(clients[id])
      requires forall id :: id in clients && clients[id].send != c.send ==> unchanged(clients[id].send)
      ensures Rep() == Disconnect(old(Rep()), c.info.id)
      ensures Valid() <==> old(Rep()).reg.clients[c.info.id].rooms == {}
    {
      hide HubOk, MembersAreClients;
      RecordsWithout(c);
      assert Rep() == Disconnect(old(Rep()), c.info.id);
      ShadowStructures(old(Rep()), rooms, old(clients), c.info.id, c.info.org);
      StillOpen(c.info.id);
    }

    /** The clients that are left keep channels of their own, and open. */
    twostate lemma StillOpen(id: ClientId)
      requires old(Identified(clients, issued) && AllOpen()) && id in old(clients)
      requires clients == old(clients) - {id} && issued == old(issued)
      requires forall j :: j in clients ==> unchanged(clients[j])
      requires forall j :: j in clients && clients[j].send != old(clients[id]).send ==> unchanged(clients[j].send)
      ensures Identified(clients, issued) && AllOpen()
    {
      forall j | j in clients ensures clients[j].send != old(clients[id]).send {
        assert clients[j] in issued && old(clients[id]) in issued && clients[j].info.id != old(clients[id]).info.id;
      }
    }

    lemma OpenAt(id: ClientId)
      requires AllOpen() && id in clients
      ensures !clients[id].closed && !clients[id].send.closed
    {
    }

    twostate lemma RecordsWithout(c: Client)
      requires clients == old(clients) - {c.info.id}
      requires forall id :: id in clients ==> unchanged(clients[id]) && unchanged(clients[id].send)
      ensures Records() == old(Records()) - {c.info.id}
    {
    }

    /** Once a client is off every structure, and only its own object changed, the hub is as it was without it. */
    twostate lemma ClientGone(c: Client)
      requires old(Valid()) && old(c.info.id in clients && clients[c.info.id] == c)
      requires clients == old(clients) - {c.info.id} && issued == old(issued) && closed == old(closed)
      requires forall id :: id in clients && clients[id] != c ==> unchanged(clients[id])
      requires forall id :: id in clients && clients[id].send != c.send ==> unchanged(clients[id].send)
      requires MembersAreClients(rooms, old(clients)) && Leaving(Rep().Dir(), KeyOf, c.info.id, {})
      ensures Rep().reg == Disconnect(old(Rep()), c.info.id).reg
      ensures Valid()
    {
      hide HubOk, MembersAreClients, Leaving, Consistent, ClientsOk;
      RecordsWithout(c);
      DisconnectLeaves(old(Rep()), c.info.id);
      LeftAll(Rep().Dir(), c.info.id);
      MembersLeft(rooms, old(clients), c.info.id, Rep());
      HubIsOk(Rep());
    }

    /** removeClient's loop over the rooms the client object carries. */
    method LeaveRooms(info: ClientInfo, own: set<RoomKey>)
      requires own != {} ==> Leaving(Rep().Dir(), KeyOf, info.id, own) && info.id !in clients
      requires forall r :: r in own ==> OwnRoom(info, r)
      modifies this`rooms, this`orgChannels
      ensures own != {} ==> Leaving(Rep().Dir(), KeyOf, info.id, {})
      ensures own == {} ==> rooms == old(rooms) && orgChannels == old(orgChannels)
      ensures Records() == old(Records())
      ensures Narrowed(old(rooms), rooms)
    {
      hide Leaving, OwnRoom, DropMembers, UnfileRoom, Empties, RoomIndexKey;
      var todo := own;
      while todo != {}
        invariant todo <= own
        invariant own != {} ==> Leaving(Rep().Dir(), KeyOf, info.id, todo)
        invariant own == {} ==> rooms == old(rooms) && orgChannels == old(orgChannels)
        invariant Records() == old(Records())
        invariant Narrowed(old(rooms), rooms)
        decreases todo
      {
        var room :| room in todo;
        label Before:
        TakeOutKeeps(Rep(), info, todo, room);
        TakeOutLocked(info, room);
        SameRecords@Before();
        todo := todo - {room};
      }
    }
  }

  /** In a hub without the id, no room has it as a member. */
  lemma MembersLeft(rooms: map<RoomKey, map<ClientId, Client>>, clients: map<ClientId, Client>, id: ClientId, h: HubRep)
    requires MembersAreClients(rooms, clients)
    requires Consistent(h.Dir(), KeyOf) && h.rooms == Names(rooms) && id !in h.reg.clients
    ensures MembersAreClients(rooms, clients - {id})
  {
    hide IndexAgrees;
    forall r, i | r in rooms && i in rooms[r] ensures i != id {
      assert Has(h.Dir().members, r, i) <==> Has(h.Dir().own, i, r);
    }
  }

  lemma UnregisterDisconnects(h: HubRep, id: ClientId)
    ensures Apply(h.reg, HubModel.Unregister(id)) == Disconnect(h, id).reg
    ensures id !in h.reg.clients ==> Disconnect(h, id).reg == h.reg
  {
    assert id !in h.reg.clients ==> h.reg.clients - {id} == h.reg.clients;
  }

  lemma HubParts(h: HubRep)
    requires HubOk(h)
    ensures ClientsOk(h.reg) && Consistent(h.Dir(), KeyOf)
  {
  }

  /** Off the clients map only: the other structures agree exactly when the client was in no room. */
  lemma ShadowStructures(h: HubRep, rooms: map<RoomKey, map<ClientId, Client>>, clients: map<ClientId, Client>,
                         id: ClientId, org: Uuid)
    requires HubOk(h) && id in h.reg.clients && h.rooms == Names(rooms) && MembersAreClients(rooms, clients)
    ensures HubOk(Disconnect(h, id)) && MembersAreClients(rooms, clients - {id}) <==> h.reg.clients[id].rooms == {}
  {
    hide HubOk, ClientsOk, Consistent, MembersAreClients;
    assert RemoveClient(h, id, org, {}) == Disconnect(h, id);
    ShadowRemoval(h, id, org);
    if HubOk(Disconnect(h, id)) {
      HubParts(Disconnect(h, id));
      MembersLeft(rooms, clients, id, Disconnect(h, id));
    }
  }

  lemma HubIsOk(h: HubRep)
    requires ClientsOk(h.reg) && Consistent(h.Dir(), KeyOf)
    ensures HubOk(h)
  {
  }

  lemma OfferNone(clients: map<ClientId, ClientRec>, payload: Payload)
    ensures OfferTo(clients, {}, payload) == clients
  {
  }

  lemma OfferNext(clients: map<ClientId, ClientRec>, done: set<ClientId>, id: ClientId, payload: Payload)
    requires id in clients && id !in done
    ensures var reached := OfferTo(clients, done, payload);
      OfferTo(clients, done + {id}, payload) == reached[id := reached[id].Offer(payload)]
  {
  }

  lemma NoOffer(h: HubRep, payload: Payload)
    ensures Offered(h, MembersOf(h.rooms, {}), payload) == h
  {
  }

  /** One more room of a broadcast: its members were not reached through the earlier rooms. */
  lemma NextRoom(h: HubRep, targets: set<RoomKey>, done: set<RoomKey>, room: RoomKey, payload: Payload)
    requires HubOk(h) && done <= targets && targets <= h.rooms.Keys && room in targets && room !in done
    requires OneRoomEach(h.rooms, targets)
    ensures OfferRoom(Offered(h, MembersOf(h.rooms, done), payload), room, payload) ==
            Offered(h, MembersOf(h.rooms, done + {room}), payload)
  {
    hide HubOk;
    if h.reg.closed {
      ClosedIsEmpty(h);
    }
    var before := MembersOf(h.rooms, done);
    assert MembersOf(h.rooms, done + {room}) == before + h.rooms[room];
    assert before !! h.rooms[room] by {
      forall id | id in h.rooms[room] ensures id !in before { assert Has(h.rooms, room, id); }
    }
    OfferTwice(h.reg.clients, before, h.rooms[room], payload);
  }
}
