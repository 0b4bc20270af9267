/**
  Channel safety over whole runs of the hub.

  Each Register call brings a fresh id and a fresh send channel, so a channel is named here by the id
  it came with.  Effect lists the channels a call sends on and the channels it closes; a run is safe
  when no call touches a channel that an earlier call closed.
 */
module HubChannels {
  import opened Uuids
  import opened RoomKeys
  import opened RoomDirectory
  import opened HubModel

  datatype Effect = Effect(sends: set<ClientId>, closes: set<ClientId>)

  const NOTHING := Effect({}, {})

  function Effects(h: HubRep, op: Op): Effect {
    match op
    case Register(info, _, _) =>
      if !h.reg.closed && |h.reg.clients.Keys| >= h.reg.maxConnections then Effect({}, {info.id}) else NOTHING
    case Unregister(id) => if id in h.reg.clients then Effect({}, {id}) else NOTHING
    case Close => Effect({}, h.reg.clients.Keys)
    case SendToClient(id, _) => if id in h.reg.clients && !h.reg.closed then Effect({id}, {}) else NOTHING
    case Broadcast(room, _) => if h.reg.closed then NOTHING else Effect(Entry(h.rooms, room), {})
    case BroadcastToOrganization(org, channel, _) =>
      if h.reg.closed then NOTHING else Effect(MembersOf(h.rooms, Entry(h.orgChannels, IndexKey(org, channel))), {})
    case Subscribe(_, _) => NOTHING
    case Unsubscribe(_, _) => NOTHING
    case Receive(_) => NOTHING
  }

  /** Ids and channels are never reused over the run. */
  predicate FreshRun(used: set<ClientId>, ops: seq<Op>)
    decreases |ops|
  {
    if ops == [] then true
    else if ops[0].Register? then ops[0].info.id !in used && FreshRun(used + {ops[0].info.id}, ops[1..])
    else FreshRun(used, ops[1..])
  }

  /** No call of the run sends on, or closes, a channel in dead or one closed earlier in the run. */
  ghost predicate SafeRun(h: HubRep, dead: set<ClientId>, ops: seq<Op>)
    decreases |ops|
  {
    ops == [] ||
    var effect := Effects(h, ops[0]);
    && effect.sends !! dead
    && effect.closes !! dead
    && SafeRun(Step(h, ops[0]), dead + effect.closes, ops[1..])
  }

  predicate Sends(op: Op) {
    op.SendToClient? || op.Broadcast? || op.BroadcastToOrganization?
  }

  /**
    The effects are what happens to the queues and the clients: a call sends to exactly the clients whose queue
    gets its payload, or would if it had room, and closes the channel of exactly the clients that leave, and of
    a newcomer that an open hub turns away.
   */
  lemma EffectsAreReal(h: HubRep, op: Op)
    requires HubOk(h) && Legal(h.reg, op)
    ensures var effect, after := Effects(h, op), Step(h, op).reg.clients;
      && (forall id :: id in h.reg.clients ==> (id in effect.closes <==> id !in after))
      && (forall id :: id in h.reg.clients && id in after && Sends(op) ==>
            after[id].queue == h.reg.clients[id].queue +
              (if id in effect.sends && |h.reg.clients[id].queue| < h.reg.clients[id].capacity
               then [op.payload] else []))
      && (forall id :: id in h.reg.clients && id in after && !Sends(op) && !op.Receive? ==>
            after[id].queue == h.reg.clients[id].queue)
      && (!Sends(op) ==> effect.sends == {})
      && (op.Register? ==> (op.info.id in effect.closes <==> !h.reg.closed && op.info.id !in after))
  {
    StepRefines(h, op);
    if Sends(op) {
      SendEffects(h, op);
      OfferedQueues(h.reg.clients, Effects(h, op).sends, op.payload);
      hide HubOk, Step, Apply, Effects, Legal, OfferTo;
    } else {
      OtherEffects(h, op);
      hide HubOk, Step, Apply, Effects, Legal;
    }
  }

  lemma SendEffects(h: HubRep, op: Op)
    requires HubOk(h) && Sends(op)
    ensures Effects(h, op).closes == {}
    ensures Apply(h.reg, op).clients == OfferTo(h.reg.clients, Effects(h, op).sends, op.payload)
  {
    hide OfferTo;
    if op.SendToClient? {
      ClosedHasNoClients(h);
      SendTargets(h.reg.clients, op.id, op.payload);
    } else {
      BroadcastEffects(h, op);
    }
  }

  lemma OfferedQueues(clients: map<ClientId, ClientRec>, sends: set<ClientId>, payload: Payload)
    ensures var after := OfferTo(clients, sends, payload);
      && after.Keys == clients.Keys
      && forall id :: id in clients ==>
           var fits := id in sends && |clients[id].queue| < clients[id].capacity;
           after[id].queue == clients[id].queue + if fits then [payload] else []
  {
  }

  lemma SendTargets(clients: map<ClientId, ClientRec>, id: ClientId, payload: Payload)
    ensures id !in clients ==> OfferTo(clients, {id}, payload) == OfferTo(clients, {}, payload)
  {
  }

  lemma OtherEffects(h: HubRep, op: Op)
    requires HubOk(h) && Legal(h.reg, op) && !Sends(op)
    ensures var effect, after := Effects(h, op), Apply(h.reg, op).clients;
      && effect.sends == {}
      && (forall id :: id in h.reg.clients ==> (id in effect.closes <==> id !in after))
      && (forall id :: id in h.reg.clients && id in after && !op.Receive? ==>
            after[id].queue == h.reg.clients[id].queue)
      && (op.Register? ==> (op.info.id in effect.closes <==> !h.reg.closed && op.info.id !in after))
  {
    hide Consistent, OwnRoom, RoomText, BuildRoomKey;
  }

  lemma BroadcastEffects(h: HubRep, op: Op)
    requires HubOk(h) && (op.Broadcast? || op.BroadcastToOrganization?)
    ensures Apply(h.reg, op).clients == OfferTo(h.reg.clients, Effects(h, op).sends, op.payload)
  {
    hide OfferTo, MembersOf, ChannelMembers;
    if h.reg.closed {
      ClosedHasNoClients(h);
      assert RoomMembers(h.reg.clients, if op.Broadcast? then op.room else "") == {};
      assert op.BroadcastToOrganization? ==> ChannelMembers(h.reg.clients, op.org, op.channel) == {} by {
        NobodyListens(op);
      }
    } else if op.Broadcast? {
      hide ClientsOk, IndexAgrees, KeyOf;
      forall id ensures id in Entry(h.rooms, op.room) <==> id in RoomMembers(h.reg.clients, op.room) {
        assert Has(h.Dir().members, op.room, id) <==> Has(h.Dir().own, id, op.room);
      }
      assert Entry(h.rooms, op.room) == RoomMembers(h.reg.clients, op.room);
    } else {
      IndexIsScan(h, op.org, op.channel);
    }
  }

  lemma NobodyListens(op: Op)
    ensures op.BroadcastToOrganization? ==> ChannelMembers(map[], op.org, op.channel) == {}
  {
  }

  lemma EffectsOnClients(h: HubRep, op: Op)
    requires HubOk(h)
    ensures Effects(h, op).sends <= h.reg.clients.Keys
    ensures Effects(h, op).closes <= h.reg.clients.Keys + Brings(op)
  {
    hide ClientsOk, IndexAgrees, KeyOf;
    forall r, id | Has(h.rooms, r, id) ensures id in h.reg.clients {
      assert Has(h.Dir().members, r, id) <==> Has(h.Dir().own, id, r);
    }
    match op
    case Broadcast(room, _) =>
      forall id | id in Entry(h.rooms, room) ensures id in h.reg.clients { assert Has(h.rooms, room, id); }
    case BroadcastToOrganization(org, channel, _) =>
      forall r, id | r in h.rooms && id in h.rooms[r] ensures id in h.reg.clients { assert Has(h.rooms, r, id); }
    case _ =>
  }

  /** The id a call may bring into the hub. */
  function Brings(op: Op): set<ClientId> {
    if op.Register? then {op.info.id} else {}
  }

  /** A call connects at most its own fresh id, and what it closes is off the clients map afterwards. */
  lemma ClientsAfter(h: HubRep, op: Op)
    requires Legal(h.reg, op)
    ensures Apply(h.reg, op).clients.Keys <= h.reg.clients.Keys + Brings(op)
    ensures Effects(h, op).closes !! Apply(h.reg, op).clients.Keys
  {
    hide BuildRoomKey, RoomMembers, ChannelMembers;
    match op
    case Subscribe(id, channel) => assert id !in h.reg.clients ==> ChannelRoom(h.reg, id, channel).Err?;
    case Unsubscribe(id, channel) => assert id !in h.reg.clients ==> ChannelRoom(h.reg, id, channel).Err?;
    case _ =>
  }

  /** The invariant of a run, over one call: the closed channels belong to no connected client. */
  lemma SafeStep(h: HubRep, used: set<ClientId>, dead: set<ClientId>, op: Op)
    requires HubOk(h) && Brings(op) !! used
    requires h.reg.clients.Keys <= used && dead <= used && dead !! h.reg.clients.Keys
    ensures Legal(h.reg, op)
    ensures Effects(h, op).sends !! dead && Effects(h, op).closes !! dead
    ensures var h', dead', used' := Step(h, op), dead + Effects(h, op).closes, used + Brings(op);
      HubOk(h') && h'.reg.clients.Keys <= used' && dead' <= used' && dead' !! h'.reg.clients.Keys
  {
    hide HubOk, Step, Apply, Effects;
    assert Legal(h.reg, op) by { assert op.Register? ==> op.info.id in Brings(op); }
    EffectsOnClients(h, op);
    StepRefines(h, op);
    ClientsAfter(h, op);
  }

  lemma {:induction false} SafeFrom(h: HubRep, used: set<ClientId>, dead: set<ClientId>, ops: seq<Op>)
    requires HubOk(h) && FreshRun(used, ops)
    requires h.reg.clients.Keys <= used && dead <= used && dead !! h.reg.clients.Keys
    ensures SafeRun(h, dead, ops) && LegalRun(h, ops)
    decreases |ops|
  {
    hide HubOk, Step, Effects, Legal;
    if ops != [] {
      SafeStep(h, used, dead, ops[0]);
      assert used + Brings(ops[0]) == if ops[0].Register? then used + {ops[0].info.id} else used;
      SafeFrom(Step(h, ops[0]), used + Brings(ops[0]), dead + Effects(h, ops[0]).closes, ops[1..]);
    }
  }

  /** Every run on a new hub with fresh ids: no send on a closed channel, and no channel closed twice. */
  lemma EveryRunIsSafe(maxConnections: int, ops: seq<Op>)
    requires FreshRun({}, ops)
    ensures SafeRun(NewHub(maxConnections), {}, ops)
  {
    EveryRunIsConsistent(maxConnections, []);
    SafeFrom(NewHub(maxConnections), {}, {}, ops);
  }

  /** After Close nobody is ever connected again. */
  lemma {:induction false} CloseIsFinal(s: Registry, ops: seq<Op>)
    requires s.closed && s.clients == map[]
    ensures ApplyAll(s, ops).closed && ApplyAll(s, ops).clients == map[]
    decreases |ops|
  {
    if ops != [] {
      assert Apply(s, ops[0]).clients == map[] by {
        match ops[0]
        case Subscribe(id, channel) => assert ChannelRoom(s, id, channel).Err?;
        case Unsubscribe(id, channel) => assert ChannelRoom(s, id, channel).Err?;
        case _ =>
      }
      CloseIsFinal(Apply(s, ops[0]), ops[1..]);
    }
  }

  lemma {:induction false} ApplyAllConcat(s: Registry, first: seq<Op>, second: seq<Op>)
    ensures ApplyAll(s, first + second) == ApplyAll(ApplyAll(s, first), second)
    decreases |first|
  {
    if first == [] {
      assert first + second == second;
    } else {
      assert (first + second)[1..] == first[1..] + second;
      ApplyAllConcat(Apply(s, first[0]), first[1..], second);
    }
  }

  /** A run with fresh ids on a new hub does what the plain view computes, and keeps to the limit. */
  lemma FreshRunRefines(maxConnections: int, ops: seq<Op>)
    requires FreshRun({}, ops)
    ensures var h := Run(NewHub(maxConnections), ops);
      && HubOk(h) && h.reg == ApplyAll(NewHub(maxConnections).reg, ops)
      && |h.reg.clients.Keys| <= (if maxConnections <= 0 then 1000 else maxConnections)
  {
    EveryRunIsConsistent(maxConnections, []);
    SafeFrom(NewHub(maxConnections), {}, {}, ops);
    EveryRunIsConsistent(maxConnections, ops);
    MaxConstant(NewHub(maxConnections).reg, ops);
  }

  /** A run that closed the hub somewhere ends with no client. */
  lemma ClosedStaysEmpty(maxConnections: int, before: seq<Op>, after: seq<Op>)
    requires FreshRun({}, before + [Close] + after)
    ensures Run(NewHub(maxConnections), before + [Close] + after).reg.clients == map[]
  {
    hide HubOk, Apply, Run;
    var s := NewHub(maxConnections).reg;
    FreshRunRefines(maxConnections, before + [Close] + after);
    assert before + [Close] + after == before + ([Close] + after);
    ApplyAllConcat(s, before, [Close] + after);
    ApplyAllConcat(ApplyAll(s, before), [Close], after);
    CloseEmpties(ApplyAll(s, before));
    CloseIsFinal(ApplyAll(ApplyAll(s, before), [Close]), after);
  }

  lemma CloseEmpties(s: Registry)
    ensures ApplyAll(s, [Close]).closed && ApplyAll(s, [Close]).clients == map[]
  {
  }

  lemma {:induction false} MaxConstant(s: Registry, ops: seq<Op>)
    ensures ApplyAll(s, ops).maxConnections == s.maxConnections
    decreases |ops|
  {
    if ops != [] {
      MaxConstant(Apply(s, ops[0]), ops[1..]);
    }
  }

  // ----- The session's second client object -----

  /**
    The read pump hands removeClient an object with the client's id and channel, and no rooms; its channel
    is closed.
   */
  ghost function ShadowStep(h: HubRep, id: ClientId, org: Uuid): (HubRep, Effect) {
    (RemoveClient(h, id, org, {}), if id in h.reg.clients then Effect({}, {id}) else NOTHING)
  }

  /** The client's rooms then still lead to the channel that removal closed. */
  lemma ShadowRemovalLeavesDeadChannel(h: HubRep, id: ClientId, org: Uuid, room: RoomKey, payload: Payload)
    requires HubOk(h) && id in h.reg.clients && room in h.reg.clients[id].rooms
    ensures ShadowStep(h, id, org).1.closes == {id}
    ensures id in Effects(ShadowStep(h, id, org).0, Broadcast(room, payload)).sends
  {
    hide ClientsOk, IndexAgrees, KeyOf;
    assert RemoveClient(h, id, org, {}) == Disconnect(h, id);
    assert Has(h.Dir().own, id, room);
    assert Has(h.Dir().members, room, id);
    assert !h.reg.closed by { ClosedHasNoClients(h); }
  }

  /**
    After such a removal every further run with fresh ids leaves closed channels alone exactly when the
    client was in no room.  A registered client is in its default room from the start.
   */
  lemma ShadowRemovalIsSafeExactly(h: HubRep, used: set<ClientId>, dead: set<ClientId>, id: ClientId, org: Uuid)
    requires HubOk(h) && id in h.reg.clients
    requires h.reg.clients.Keys <= used && dead <= used && dead !! h.reg.clients.Keys
    ensures var (h', effect) := ShadowStep(h, id, org);
      (forall ops :: FreshRun(used, ops) ==> SafeRun(h', dead + effect.closes, ops)) <==>
      h.reg.clients[id].rooms == {}
  {
    hide HubOk, Effects, SafeRun;
    var h', rooms := ShadowStep(h, id, org).0, h.reg.clients[id].rooms;
    assert h' == Disconnect(h, id);
    if rooms == {} {
      ShadowRemoval(h, id, org);
      forall ops | FreshRun(used, ops) ensures SafeRun(h', dead + {id}, ops) {
        SafeFrom(h', used, dead + {id}, ops);
      }
    } else {
      var room :| room in rooms;
      ShadowRemovalLeavesDeadChannel(h, id, org, room, []);
      var ops := [Broadcast(room, [])];
      assert FreshRun(used, ops);
      UnsafeSend(h', dead + {id}, ops[0], id);
    }
  }

  lemma UnsafeSend(h: HubRep, dead: set<ClientId>, op: Op, id: ClientId)
    requires id in dead && id in Effects(h, op).sends
    ensures !SafeRun(h, dead, [op])
  {
  }

  /** A run from the start: one registration, of anybody, and the session's end. */
  lemma ShadowRemovalIsReachable(maxConnections: int, info: ClientInfo, queue: seq<Payload>, capacity: nat, org: Uuid)
    ensures var h := Run(NewHub(maxConnections), [Register(info, queue, capacity)]);
      && FreshRun({}, [Register(info, queue, capacity)]) && HubOk(h) && info.id in h.reg.clients
      && !HubOk(ShadowStep(h, info.id, org).0)
  {
    var start, op := NewHub(maxConnections), Register(info, queue, capacity);
    EveryRunIsConsistent(maxConnections, []);
    RegisterKeeps(start, info, queue, capacity);
    assert [op][1..] == [];
    assert Run(start, [op]) == Step(start, op);
    hide HubOk, Step;
    DefaultRoom(info.org, info.app);
    ShadowRemoval(Step(start, op), info.id, org);
  }

  // ----- Runs with session ends -----

  /** A call on the hub, or the end of a session, before which the read pump removes its own object. */
  datatype Act = Call(op: Op) | SessionEnd(id: ClientId, org: Uuid)

  ghost function Perform(h: HubRep, act: Act): (HubRep, Effect) {
    match act
    case Call(op) => (Step(h, op), Effects(h, op))
    case SessionEnd(id, org) => ShadowStep(h, id, org)
  }

  ghost function PerformAll(h: HubRep, acts: seq<Act>): HubRep
    decreases |acts|
  {
    if acts == [] then h else PerformAll(Perform(h, acts[0]).0, acts[1..])
  }

  function BroughtBy(act: Act): set<ClientId> {
    if act.Call? then Brings(act.op) else {}
  }

  predicate FreshActs(used: set<ClientId>, acts: seq<Act>)
    decreases |acts|
  {
    acts == [] || (BroughtBy(acts[0]) !! used && FreshActs(used + BroughtBy(acts[0]), acts[1..]))
  }

  /** No act touches a dead channel, and at no moment of the run could further calls with fresh ids do so. */
  ghost predicate AlwaysSafe(h: HubRep, used: set<ClientId>, dead: set<ClientId>, acts: seq<Act>)
    decreases |acts|
  {
    && (forall ops :: FreshRun(used, ops) ==> SafeRun(h, dead, ops))
    && (acts == [] ||
        var (h', effect) := Perform(h, acts[0]);
        && effect.sends !! dead && effect.closes !! dead
        && AlwaysSafe(h', used + BroughtBy(acts[0]), dead + effect.closes, acts[1..]))
  }

  /** Every session end of the run finds its client gone, or in no room. */
  ghost predicate EndsClean(h: HubRep, acts: seq<Act>)
    decreases |acts|
  {
    acts == [] || (EndIsClean(h, acts[0]) && EndsClean(Perform(h, acts[0]).0, acts[1..]))
  }

  predicate EndIsClean(h: HubRep, act: Act) {
    act.SessionEnd? && act.id in h.reg.clients ==> h.reg.clients[act.id].rooms == {}
  }

  /** The invariant of such a run over one act. */
  lemma CleanAct(h: HubRep, used: set<ClientId>, dead: set<ClientId>, act: Act)
    requires HubOk(h) && BroughtBy(act) !! used && EndIsClean(h, act)
    requires h.reg.clients.Keys <= used && dead <= used && dead !! h.reg.clients.Keys
    ensures var (h', effect) := Perform(h, act);
      var used', dead' := used + BroughtBy(act), dead + effect.closes;
      && effect.sends !! dead && effect.closes !! dead
      && HubOk(h') && h'.reg.clients.Keys <= used' && dead' <= used' && dead' !! h'.reg.clients.Keys
  {
    hide HubOk, Effects, Step, Apply;
    match act
    case Call(op) => SafeStep(h, used, dead, op);
    case SessionEnd(id, org) =>
      if id in h.reg.clients {
        assert ShadowStep(h, id, org).0 == Disconnect(h, id);
        ShadowRemoval(h, id, org);
      }
  }

  lemma {:induction false} SafeExactlyFrom(h: HubRep, used: set<ClientId>, dead: set<ClientId>, acts: seq<Act>)
    requires HubOk(h) && FreshActs(used, acts)
    requires h.reg.clients.Keys <= used && dead <= used && dead !! h.reg.clients.Keys
    ensures AlwaysSafe(h, used, dead, acts) <==> EndsClean(h, acts)
    ensures EndsClean(h, acts) ==> HubOk(PerformAll(h, acts))
    decreases |acts|
  {
    hide HubOk, SafeRun;
    forall ops | FreshRun(used, ops) ensures SafeRun(h, dead, ops) {
      SafeFrom(h, used, dead, ops);
    }
    if acts != [] {
      hide Perform, FreshRun, BroughtBy;
      if EndIsClean(h, acts[0]) {
        CleanAct(h, used, dead, acts[0]);
        var (h', effect) := Perform(h, acts[0]);
        SafeExactlyFrom(h', used + BroughtBy(acts[0]), dead + effect.closes, acts[1..]);
      } else {
        UncleanAct(h, used, dead, acts);
      }
    }
  }

  lemma UncleanAct(h: HubRep, used: set<ClientId>, dead: set<ClientId>, acts: seq<Act>)
    requires HubOk(h) && acts != [] && !EndIsClean(h, acts[0])
    requires h.reg.clients.Keys <= used && dead <= used && dead !! h.reg.clients.Keys
    ensures !AlwaysSafe(h, used, dead, acts)
  {
    hide HubOk, SafeRun, FreshRun, ShadowStep;
    ShadowRemovalIsSafeExactly(h, used, dead, acts[0].id, acts[0].org);
    assert used + BroughtBy(acts[0]) == used;
  }

  /**
    Runs of calls and session ends, in any order, on a new hub: the run is safe at every moment, whatever
    calls could follow, exactly when each session end finds its client gone or in no room; and then the hub
    stays consistent.
   */
  lemma SessionEndsExactly(maxConnections: int, acts: seq<Act>)
    requires FreshActs({}, acts)
    ensures AlwaysSafe(NewHub(maxConnections), {}, {}, acts) <==> EndsClean(NewHub(maxConnections), acts)
    ensures EndsClean(NewHub(maxConnections), acts) ==> HubOk(PerformAll(NewHub(maxConnections), acts))
  {
    EveryRunIsConsistent(maxConnections, []);
    SafeExactlyFrom(NewHub(maxConnections), {}, {}, acts);
  }

  lemma ClosedHasNoClients(h: HubRep)
    requires HubOk(h)
    ensures h.reg.closed ==> h.reg.clients == map[]
  {
  }
}
