/**
  The bridge on the in-process bus: its three handlers are registered on the topics of the platform
  (internal/infrastructure/websocket/event_bridge.go), and the bus calls them among any others.
 */
module BridgedBus {
  import opened EventBridge
  import opened Outcomes
  import opened InProcessBus

  /** The bridge's handlers, numbered as they are registered; any other number is somebody else's handler. */
  const TOPICS: seq<string> := [TOPIC_IAM, TOPIC_TENANT, TOPIC_API_MANAGEMENT]

  const REGISTRATION: seq<Step> := [
    Subscribe(TOPIC_IAM, 0),
    Subscribe(TOPIC_TENANT, 1),
    Subscribe(TOPIC_API_MANAGEMENT, 2)]

  predicate IsBridge(handler: Handler) {
    0 <= handler < 3
  }

  /** The bridge's handler for a topic, if it has one. */
  function BridgesFor(topic: string): (due: seq<Handler>)
    ensures forall k :: k in due <==> IsBridge(k) && TOPICS[k] == topic
    ensures |due| <= 1
  {
    if topic == TOPIC_IAM then [0] else if topic == TOPIC_TENANT then [1]
    else if topic == TOPIC_API_MANAGEMENT then [2] else []
  }

  function BridgesIn(handlers: seq<Handler>): seq<Handler> {
    if handlers == [] then []
    else (if IsBridge(handlers[0]) then [handlers[0]] else []) + BridgesIn(handlers[1..])
  }

  lemma {:induction false} BridgesAppend(a: seq<Handler>, b: seq<Handler>)
    ensures BridgesIn(a + b) == BridgesIn(a) + BridgesIn(b)
  {
    hide IsBridge;
    if a == [] {
      assert a + b == b;
    } else {
      assert (a + b)[1..] == a[1..] + b;
      BridgesAppend(a[1..], b);
    }
  }

  lemma BridgesAppendOne(a: seq<Handler>, handler: Handler)
    ensures BridgesIn(a + [handler]) == BridgesIn(a) + if IsBridge(handler) then [handler] else []
  {
    BridgesAppend(a, [handler]);
  }

  predicate InRange(calls: seq<nat>, n: nat) {
    forall i :: 0 <= i < |calls| ==> calls[i] < n
  }

  /** The bridge's handlers among those a dispatch called, in the order of the calls. */
  function BridgeCalls(snapshot: seq<Handler>, calls: seq<nat>): (called: seq<Handler>)
    requires InRange(calls, |snapshot|)
    ensures forall i :: 0 <= i < |called| ==> IsBridge(called[i])
  {
    if calls == [] then []
    else
      (if IsBridge(snapshot[calls[0]]) then [snapshot[calls[0]]] else []) + BridgeCalls(snapshot, calls[1..])
  }

  // ----- A handler registered once is called once -----

  lemma {:induction false} BridgeAt(handlers: seq<Handler>, p: nat)
    requires p < |handlers| && IsBridge(handlers[p])
    ensures handlers[p] in BridgesIn(handlers)
    ensures |BridgesIn(handlers)| <= 1 ==> BridgesIn(handlers) == [handlers[p]]
    ensures |BridgesIn(handlers)| <= 1 ==> forall q: nat :: q < |handlers| && q != p ==> !IsBridge(handlers[q])
  {
    assert handlers == handlers[..p] + ([handlers[p]] + handlers[p + 1..]);
    BridgesAppend(handlers[..p], [handlers[p]] + handlers[p + 1..]);
    assert ([handlers[p]] + handlers[p + 1..])[1..] == handlers[p + 1..];
    forall q: nat | q < |handlers| && q != p && IsBridge(handlers[q]) ensures |BridgesIn(handlers)| > 1 {
      if q < p {
        assert handlers[..p][q] == handlers[q];
        BridgeIn(handlers[..p], q);
      } else {
        assert handlers[p + 1..][q - p - 1] == handlers[q];
        BridgeIn(handlers[p + 1..], q - p - 1);
      }
    }
  }

  lemma {:induction false} BridgeIn(handlers: seq<Handler>, p: nat)
    requires p < |handlers| && IsBridge(handlers[p])
    ensures BridgesIn(handlers) != []
  {
    if p > 0 {
      BridgeIn(handlers[1..], p - 1);
    }
  }

  lemma {:induction false} BridgeFound(handlers: seq<Handler>)
    requires BridgesIn(handlers) != []
    ensures exists p: nat :: p < |handlers| && IsBridge(handlers[p])
  {
    if !IsBridge(handlers[0]) {
      BridgeFound(handlers[1..]);
      var p: nat :| p < |handlers[1..]| && IsBridge(handlers[1..][p]);
      assert handlers[p + 1] == handlers[1..][p];
    }
  }

  /** Of distinct positions with one bridge handler at p: its call is there exactly when p is. */
  lemma {:induction false} CallsOfOne(snapshot: seq<Handler>, calls: seq<nat>, p: nat)
    requires p < |snapshot| && IsBridge(snapshot[p]) && InRange(calls, |snapshot|)
    requires forall q: nat :: q < |snapshot| && q != p ==> !IsBridge(snapshot[q])
    requires forall i, j :: 0 <= i < j < |calls| ==> calls[i] != calls[j]
    ensures BridgeCalls(snapshot, calls) == if p in calls then [snapshot[p]] else []
  {
    if calls != [] {
      var rest := calls[1..];
      assert forall i, j :: 0 <= i < j < |rest| ==> rest[i] == calls[i + 1] && rest[j] == calls[j + 1];
      assert calls == [calls[0]] + rest;
      CallsOfOne(snapshot, rest, p);
    }
  }

  lemma {:induction false} CallsOfNone(snapshot: seq<Handler>, calls: seq<nat>)
    requires InRange(calls, |snapshot|)
    requires forall q: nat :: q < |snapshot| ==> !IsBridge(snapshot[q])
    ensures BridgeCalls(snapshot, calls) == []
  {
    if calls != [] {
      assert calls == [calls[0]] + calls[1..];
      CallsOfNone(snapshot, calls[1..]);
    }
  }

  /** Whatever the order of the calls, the bridge's handler in the snapshot is called once. */
  lemma CalledOnce(snapshot: seq<Handler>, calls: seq<nat>)
    requires EachOnce(calls, |snapshot|) && |BridgesIn(snapshot)| <= 1
    ensures InRange(calls, |snapshot|) && BridgeCalls(snapshot, calls) == BridgesIn(snapshot)
  {
    forall i | 0 <= i < |calls| ensures calls[i] < |snapshot| {
      assert calls[i] in calls;
    }
    if p: nat :| p < |snapshot| && IsBridge(snapshot[p]) {
      BridgeAt(snapshot, p);
      CallsOfOne(snapshot, calls, p);
    } else {
      if BridgesIn(snapshot) != [] {
        BridgeFound(snapshot);
      }
      CallsOfNone(snapshot, calls);
    }
  }

  // ----- Over the runs of the bus -----

  /** Each topic's handlers hold the bridge's for this topic and no other of the bridge's. */
  ghost predicate Wired(b: Bus) {
    forall topic :: BridgesIn(HandlersOf(b, topic)) == BridgesFor(topic)
  }

  predicate Foreign(steps: seq<Step>) {
    forall s :: s in steps && s.Subscribe? ==> !IsBridge(s.handler)
  }

  /** From the event at position first on, dispatches were made from wired snapshots. */
  ghost predicate Bridged(b: Bus, first: nat) {
    && Wired(b)
    && (forall i :: first <= i < |b.dispatched| ==> WiredSnapshot(b.dispatched[i].item, b.dispatched[i].snapshot))
    && (b.dispatcher.Running? && |b.dispatched| >= first ==>
          WiredSnapshot(b.dispatcher.current, b.dispatcher.snapshot))
  }

  predicate WiredSnapshot(item: Accepted, snapshot: seq<Handler>) {
    BridgesIn(snapshot) == BridgesFor(item.env.topic)
  }

  lemma StepBridged(b: Bus, step: Step, first: nat)
    requires Bridged(b, first) && Enabled(b, step) && Foreign([step])
    ensures Bridged(Next(b, step), first)
  {
    hide BridgesIn, BridgesFor;
    assert step in [step];
    if step.Subscribe? {
      BridgesAppendOne(HandlersOf(b, step.topic), step.handler);
    }
  }

  lemma {:induction false} RunBridged(b: Bus, steps: seq<Step>, first: nat)
    requires Bridged(b, first) && LegalRun(b, steps) && Foreign(steps)
    ensures Bridged(Run(b, steps), first)
    decreases |steps|
  {
    if steps != [] {
      StepBridged(b, steps[0], first);
      RunBridged(Next(b, steps[0]), steps[1..], first);
    }
  }

  ghost predicate Unwired(b: Bus) {
    forall topic :: BridgesIn(HandlersOf(b, topic)) == []
  }

  lemma StepUnwired(b: Bus, step: Step)
    requires Unwired(b) && Enabled(b, step) && (step.Subscribe? ==> !IsBridge(step.handler))
    ensures Unwired(Next(b, step))
  {
    hide BridgesIn;
    if step.Subscribe? {
      BridgesAppendOne(HandlersOf(b, step.topic), step.handler);
    }
    forall topic ensures BridgesIn(HandlersOf(Next(b, step), topic)) == [] {
      assert BridgesIn(HandlersOf(b, topic)) == [];
    }
  }

  lemma {:induction false} RunUnwired(b: Bus, steps: seq<Step>)
    requires Unwired(b) && LegalRun(b, steps) && Foreign(steps)
    ensures Unwired(Run(b, steps))
    decreases |steps|
  {
    if steps != [] {
      assert steps[0] in steps;
      StepUnwired(b, steps[0]);
      RunUnwired(Next(b, steps[0]), steps[1..]);
    }
  }

  /** How many events the dispatcher has taken so far. */
  function TakenSoFar(b: Bus): nat {
    |b.dispatched| + |InFlight(b.dispatcher)|
  }

  lemma ThreeSteps(b: Bus, s0: Step, s1: Step, s2: Step)
    requires s0.Subscribe? && s1.Subscribe? && s2.Subscribe?
    ensures LegalRun(b, [s0, s1, s2]) && Run(b, [s0, s1, s2]) == Next(Next(Next(b, s0), s1), s2)
  {
    var b1 := Next(b, s0);
    var b2 := Next(b1, s1);
    assert [s2][1..] == [] && Run(Next(b2, s2), []) == Next(b2, s2);
    assert LegalRun(b2, [s2]) && Run(b2, [s2]) == Next(b2, s2);
    assert [s1, s2][1..] == [s2] && LegalRun(b1, [s1, s2]) && Run(b1, [s1, s2]) == Run(b2, [s2]);
    assert [s0, s1, s2][1..] == [s1, s2];
  }

  /** The registration leaves the bus as it is but for the three handlers. */
  lemma RegistrationWires(b: Bus)
    requires Unwired(b)
    ensures LegalRun(b, REGISTRATION)
    ensures var b' := Run(b, REGISTRATION);
      Bridged(b', TakenSoFar(b)) && b' == b.(handlers := b'.handlers)
  {
    hide BridgesIn;
    var s0, s1, s2 := REGISTRATION[0], REGISTRATION[1], REGISTRATION[2];
    ThreeSteps(b, s0, s1, s2);
    var b3 := Next(Next(Next(b, s0), s1), s2);
    forall topic ensures BridgesIn(HandlersOf(b3, topic)) == BridgesFor(topic) {
      BridgesAppendOne(HandlersOf(b, topic), 0);
      BridgesAppendOne(HandlersOf(b, topic), 1);
      BridgesAppendOne(HandlersOf(b, topic), 2);
    }
  }

  // ----- What the bridge gets to handle -----

  /** One event in the hands of one of the bridge's handlers. */
  datatype Handling = Handling(bridge: Bridge, event: DomainEvent)

  /** What the bridge was built with, and how an event of the bus reads as a domain event. */
  datatype Wiring = Wiring(apps: Option<AppRepository>, encode: Encoder, decode: string -> DomainEvent)
  {
    function Handlings(called: seq<Handler>, event: string): seq<Handling>
      requires forall i :: 0 <= i < |called| ==> IsBridge(called[i])
    {
      seq(|called|, i requires 0 <= i < |called| => HandlingBy(called[i], event))
    }

    function HandlingBy(handler: Handler, event: string): Handling
      requires IsBridge(handler)
    {
      Handling(Registered(apps, encode)[handler], decode(event))
    }
  }

  /** One handling by the handler the bridge registered for the topic, event after event. */
  function Due(w: Wiring, items: seq<Accepted>): seq<Handling> {
    if items == [] then []
    else
      var env := items[0].env;
      assert forall i :: 0 <= i < |BridgesFor(env.topic)| ==> BridgesFor(env.topic)[i] in BridgesFor(env.topic);
      w.Handlings(BridgesFor(env.topic), env.event) + Due(w, items[1..])
  }

  ghost predicate AllDispatchOk(dispatched: seq<Dispatch>) {
    forall i :: 0 <= i < |dispatched| ==> DispatchOk(dispatched[i])
  }

  /** The handlings by the bridge in what was dispatched, in the order of the calls. */
  ghost function Done(w: Wiring, dispatched: seq<Dispatch>): seq<Handling>
    requires AllDispatchOk(dispatched)
  {
    if dispatched == [] then []
    else
      var d := dispatched[0];
      assert InRange(d.calls, |d.snapshot|) by {
        assert forall i :: 0 <= i < |d.calls| ==> d.calls[i] in d.calls;
      }
      w.Handlings(BridgeCalls(d.snapshot, d.calls), d.item.env.event) + Done(w, dispatched[1..])
  }

  lemma {:induction false} DoneIsDue(w: Wiring, dispatched: seq<Dispatch>)
    requires AllDispatchOk(dispatched)
    requires forall i :: 0 <= i < |dispatched| ==> WiredSnapshot(dispatched[i].item, dispatched[i].snapshot)
    ensures Done(w, dispatched) == Due(w, Items(dispatched))
  {
    if dispatched != [] {
      var d := dispatched[0];
      CalledOnce(d.snapshot, d.calls);
      assert Items(dispatched)[1..] == Items(dispatched[1..]);
      DoneIsDue(w, dispatched[1..]);
    }
  }

  /**
    Over every interleaving of publishers, subscribers, the dispatcher and handlers, before and after the
    registration of the bridge: each event taken from the buffer since then and dispatched was handled
    exactly once by the handler the bridge registered for its topic, and by no other of its handlers, in the
    order of acceptance; once Close has returned these are all the events accepted since, or waiting then.
   */
  lemma EveryEventIsBridgedOnce(w: Wiring, bufferSize: int, before: seq<Step>, after: seq<Step>)
    requires LegalRun(NewBus(bufferSize), before) && Foreign(before) && Foreign(after)
    requires LegalRun(Run(NewBus(bufferSize), before), REGISTRATION)
    requires LegalRun(Run(Run(NewBus(bufferSize), before), REGISTRATION), after)
    ensures var b0 := Run(NewBus(bufferSize), before);
      var b, first := Run(Run(b0, REGISTRATION), after), TakenSoFar(b0);
      && AllDispatchOk(b.dispatched)
      && Items(b.dispatched) <= b.accepted
      && (first <= |b.dispatched| ==> Done(w, b.dispatched[first..]) == Due(w, Items(b.dispatched)[first..]))
      && (b.dispatcher.Finished? ==> first <= |b.dispatched| && Items(b.dispatched) == b.accepted)
  {
    hide Invariant, Bridged, Unwired, Run, LegalRun, REGISTRATION, Done, Due;
    var b0 := Run(NewBus(bufferSize), before);
    var b1, first := Run(b0, REGISTRATION), TakenSoFar(b0);
    var b := Run(b1, after);
    NewBusOk(bufferSize);
    RunUnwired(NewBus(bufferSize), before);
    RunKeeps(NewBus(bufferSize), before);
    RegistrationWires(b0);
    RunKeeps(b0, REGISTRATION);
    RunBridged(b1, after, first);
    RunKeeps(b1, after);
    TakenGrows(b1, after);
    BridgedIsDone(w, b, first);
  }

  lemma NewBusOk(bufferSize: int)
    ensures Unwired(NewBus(bufferSize)) && Invariant(NewBus(bufferSize))
  {
  }

  lemma BridgedIsDone(w: Wiring, b: Bus, first: nat)
    requires Invariant(b) && Bridged(b, first) && first <= TakenSoFar(b)
    ensures AllDispatchOk(b.dispatched) && Items(b.dispatched) <= b.accepted
    ensures first <= |b.dispatched| ==> Done(w, b.dispatched[first..]) == Due(w, Items(b.dispatched)[first..])
    ensures b.dispatcher.Finished? ==> first <= |b.dispatched| && Items(b.dispatched) == b.accepted
  {
    hide DispatchOk, WiredSnapshot, Wired, Done, Due;
    assert AllDispatchOk(b.dispatched);
    if first <= |b.dispatched| {
      assert Items(b.dispatched[first..]) == Items(b.dispatched)[first..];
      DoneIsDue(w, b.dispatched[first..]);
    }
  }

  lemma {:induction false} TakenGrows(b: Bus, steps: seq<Step>)
    requires LegalRun(b, steps)
    ensures TakenSoFar(b) <= TakenSoFar(Run(b, steps))
    decreases |steps|
  {
    if steps != [] {
      TakenGrows(Next(b, steps[0]), steps[1..]);
    }
  }
}
