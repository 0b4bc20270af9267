/**
  The in-process event bus (internal/shared/events/inprocess.go): a bounded channel, handlers appended
  per topic, and one dispatcher that takes an event, copies its topic's handlers and runs them all
  before it takes the next.

  Every action of a publisher, a subscriber, the dispatcher or a handler goroutine is one step, so the
  statements about runs cover every interleaving.
 */
module InProcessBus {
  type Handler = int

  datatype Envelope = Envelope(topic: string, event: string)

  /** An accepted event, with the handlers its topic had at that time. */
  datatype Accepted = Accepted(env: Envelope, known: seq<Handler>)

  /** A dispatched event: the handlers copied for it, and the order in which their positions were run. */
  datatype Dispatch = Dispatch(item: Accepted, snapshot: seq<Handler>, calls: seq<nat>)

  datatype Dispatcher =
    | Waiting
    | Taken(item: Accepted)
    | Running(current: Accepted, snapshot: seq<Handler>, pending: set<nat>, calls: seq<nat>)
    | Finished

  datatype Bus = Bus(
    capacity: nat,
    handlers: map<string, seq<Handler>>,
    buffer: seq<Accepted>,
    closed: bool,
    dispatcher: Dispatcher,
    accepted: seq<Accepted>,
    dispatched: seq<Dispatch>)

  datatype Step =
    | Publish(env: Envelope)
    | Subscribe(topic: string, handler: Handler)
    | CloseChannel
    | Take
    | Snapshot
    | Call(position: nat)
    | Complete
    | Finish

  function NewBus(bufferSize: int): Bus {
    Bus(if bufferSize <= 0 then 256 else bufferSize, map[], [], false, Waiting, [], [])
  }

  function HandlersOf(b: Bus, topic: string): seq<Handler> {
    if topic in b.handlers then b.handlers[topic] else []
  }

  /** The positions of a sequence of n handlers. */
  function Positions(n: nat): (s: set<nat>)
    ensures forall p: nat :: p in s <==> p < n
  {
    if n == 0 then {} else Positions(n - 1) + {n - 1}
  }

  /**
    When a step can be taken.  Publishing or closing after Close stops the original program, so those are
    not steps here.
   */
  predicate Enabled(b: Bus, step: Step) {
    match step
    case Publish(_) => !b.closed
    case Subscribe(_, _) => true
    case CloseChannel => !b.closed
    case Take => b.dispatcher.Waiting? && b.buffer != []
    case Snapshot => b.dispatcher.Taken?
    case Call(position) => b.dispatcher.Running? && position in b.dispatcher.pending
    case Complete => b.dispatcher.Running? && b.dispatcher.pending == {}
    case Finish => b.dispatcher.Waiting? && b.buffer == [] && b.closed
  }

  function Next(b: Bus, step: Step): Bus
    requires Enabled(b, step)
  {
    match step
    case Publish(env) =>
      if |b.buffer| < b.capacity then
        var item := Accepted(env, HandlersOf(b, env.topic));
        b.(buffer := b.buffer + [item], accepted := b.accepted + [item])
      else b
    case Subscribe(topic, handler) => b.(handlers := b.handlers[topic := HandlersOf(b, topic) + [handler]])
    case CloseChannel => b.(closed := true)
    case Take => b.(dispatcher := Taken(b.buffer[0]), buffer := b.buffer[1..])
    case Snapshot =>
      var snapshot := HandlersOf(b, b.dispatcher.item.env.topic);
      b.(dispatcher := Running(b.dispatcher.item, snapshot, Positions(|snapshot|), []))
    case Call(position) =>
      var d := b.dispatcher;
      b.(dispatcher := d.(pending := d.pending - {position}, calls := d.calls + [position]))
    case Complete =>
      var d := b.dispatcher;
      b.(dispatcher := Waiting, dispatched := b.dispatched + [Dispatch(d.current, d.snapshot, d.calls)])
    case Finish => b.(dispatcher := Finished)
  }

  predicate LegalRun(b: Bus, steps: seq<Step>)
    decreases |steps|
  {
    steps == [] || (Enabled(b, steps[0]) && LegalRun(Next(b, steps[0]), steps[1..]))
  }

  function Run(b: Bus, steps: seq<Step>): Bus
    requires LegalRun(b, steps)
    decreases |steps|
  {
    if steps == [] then b else Run(Next(b, steps[0]), steps[1..])
  }

  // ----- What every run keeps -----

  function Items(dispatched: seq<Dispatch>): seq<Accepted> {
    seq(|dispatched|, i requires 0 <= i < |dispatched| => dispatched[i].item)
  }

  function InFlight(d: Dispatcher): seq<Accepted> {
    match d
    case Taken(item) => [item]
    case Running(item, _, _, _) => [item]
    case _ => []
  }

  /** Each position of n handlers occurs exactly once. */
  ghost predicate EachOnce(calls: seq<nat>, n: nat) {
    && (forall p: nat :: p < n <==> p in calls)
    && (forall i, j :: 0 <= i < j < |calls| ==> calls[i] != calls[j])
  }

  /** Mid-way: every position was either run, once, or is still pending. */
  ghost predicate PartlyCalled(calls: seq<nat>, pending: set<nat>, n: nat) {
    && (forall p: nat :: p < n <==> p in calls || p in pending)
    && (forall p :: p in calls ==> p !in pending)
    && (forall i, j :: 0 <= i < j < |calls| ==> calls[i] != calls[j])
  }

  /** What was known when an event was accepted is still at the front of the topic's handlers. */
  predicate StillKnown(b: Bus, item: Accepted) {
    item.known <= HandlersOf(b, item.env.topic)
  }

  ghost predicate DispatchOk(d: Dispatch) {
    d.item.known <= d.snapshot && EachOnce(d.calls, |d.snapshot|)
  }

  ghost predicate Invariant(b: Bus) {
    && 0 < b.capacity
    && |b.buffer| <= b.capacity
    && b.accepted == Items(b.dispatched) + InFlight(b.dispatcher) + b.buffer
    && (forall i :: 0 <= i < |b.dispatched| ==> DispatchOk(b.dispatched[i]))
    && (forall i :: 0 <= i < |b.buffer| ==> StillKnown(b, b.buffer[i]))
    && (b.dispatcher.Taken? ==> StillKnown(b, b.dispatcher.item))
    && (b.dispatcher.Running? ==>
          && b.dispatcher.current.known <= b.dispatcher.snapshot
          && PartlyCalled(b.dispatcher.calls, b.dispatcher.pending, |b.dispatcher.snapshot|))
    && (b.dispatcher.Finished? ==> b.closed && b.buffer == [])
  }

  lemma StepKeeps(b: Bus, step: Step)
    requires Invariant(b) && Enabled(b, step)
    ensures Invariant(Next(b, step))
  {
    match step
    case Publish(env) => PublishKeeps(b, env);
    case Subscribe(topic, handler) => SubscribeKeeps(b, topic, handler);
    case CloseChannel =>
    case Take => TakeKeeps(b);
    case Snapshot =>
    case Call(position) =>
      CallKeeps(b.dispatcher.calls, b.dispatcher.pending, |b.dispatcher.snapshot|, position);
    case Complete => CompleteKeeps(b);
    case Finish =>
  }

  lemma PublishKeeps(b: Bus, env: Envelope)
    requires Invariant(b) && Enabled(b, Publish(env))
    ensures Invariant(Next(b, Publish(env)))
  {
  }

  lemma SubscribeKeeps(b: Bus, topic: string, handler: Handler)
    requires Invariant(b)
    ensures Invariant(Next(b, Subscribe(topic, handler)))
  {
  }

  lemma TakeKeeps(b: Bus)
    requires Invariant(b) && Enabled(b, Take)
    ensures Invariant(Next(b, Take))
  {
    hide PartlyCalled, DispatchOk, Items;
    var items := Items(b.dispatched);
    assert items + [] + b.buffer == items + [b.buffer[0]] + b.buffer[1..];
  }

  lemma CompleteKeeps(b: Bus)
    requires Invariant(b) && Enabled(b, Complete)
    ensures Invariant(Next(b, Complete))
  {
  }

  lemma CallKeeps(calls: seq<nat>, pending: set<nat>, n: nat, position: nat)
    requires PartlyCalled(calls, pending, n) && position in pending
    ensures PartlyCalled(calls + [position], pending - {position}, n)
  {
  }

  lemma {:induction false} RunKeeps(b: Bus, steps: seq<Step>)
    requires Invariant(b) && LegalRun(b, steps)
    ensures Invariant(Run(b, steps))
    decreases |steps|
  {
    if steps != [] {
      StepKeeps(b, steps[0]);
      RunKeeps(Next(b, steps[0]), steps[1..]);
    }
  }

  /** The handlers some steps subscribe to a topic, in order. */
  function SubscribedTo(steps: seq<Step>, topic: string): seq<Handler> {
    if steps == [] then []
    else
      (if steps[0].Subscribe? && steps[0].topic == topic then [steps[0].handler] else []) +
      SubscribedTo(steps[1..], topic)
  }

  lemma {:induction false} SubscribedNext(steps: seq<Step>, step: Step, topic: string)
    ensures SubscribedTo(steps + [step], topic) ==
      SubscribedTo(steps, topic) + if step.Subscribe? && step.topic == topic then [step.handler] else []
  {
    if steps == [] {
      assert steps + [step] == [step] && [step][1..] == [];
    } else {
      assert (steps + [step])[1..] == steps[1..] + [step];
      SubscribedNext(steps[1..], step, topic);
    }
  }

  /** A topic's handlers are those subscribed to it, all of them and in order. */
  lemma {:induction false} HandlersAreSubscribed(b: Bus, steps: seq<Step>, topic: string)
    requires LegalRun(b, steps)
    ensures HandlersOf(Run(b, steps), topic) == HandlersOf(b, topic) + SubscribedTo(steps, topic)
    decreases |steps|
  {
    if steps != [] {
      HandlersAreSubscribed(Next(b, steps[0]), steps[1..], topic);
    }
  }

  /** A dispatch copied no handler its topic does not have. */
  ghost predicate SnapshotsKnown(b: Bus) {
    && (forall i :: 0 <= i < |b.dispatched| ==>
          b.dispatched[i].snapshot <= HandlersOf(b, b.dispatched[i].item.env.topic))
    && (b.dispatcher.Running? ==> b.dispatcher.snapshot <= HandlersOf(b, b.dispatcher.current.env.topic))
  }

  lemma {:induction false} RunSnapshots(b: Bus, steps: seq<Step>)
    requires SnapshotsKnown(b) && LegalRun(b, steps)
    ensures SnapshotsKnown(Run(b, steps))
    decreases |steps|
  {
    if steps != [] {
      RunSnapshots(Next(b, steps[0]), steps[1..]);
    }
  }

  /** The channel is closed exactly when Close was called. */
  lemma {:induction false} ClosedExactly(b: Bus, steps: seq<Step>)
    requires LegalRun(b, steps)
    ensures Run(b, steps).closed <==> b.closed || CloseChannel in steps
    decreases |steps|
  {
    if steps != [] {
      assert steps == [steps[0]] + steps[1..];
      ClosedExactly(Next(b, steps[0]), steps[1..]);
    }
  }

  lemma {:induction false} CapacityFixed(b: Bus, steps: seq<Step>)
    requires LegalRun(b, steps)
    ensures Run(b, steps).capacity == b.capacity
    decreases |steps|
  {
    if steps != [] {
      CapacityFixed(Next(b, steps[0]), steps[1..]);
    }
  }

  /**
    Every interleaving, from a new bus: accepted events are the dispatched ones, then the one in flight,
    then the buffered ones, in acceptance order; the buffer stays within its capacity; each dispatched
    event went exactly once to each handler copied for it, among them all that were subscribed when the
    event was accepted, and only handlers that were subscribed to its topic; and once the dispatcher has
    finished, which is when Close returns, every accepted event was dispatched.
   */
  lemma EveryRun(bufferSize: int, steps: seq<Step>)
    requires LegalRun(NewBus(bufferSize), steps)
    ensures var b := Run(NewBus(bufferSize), steps);
      && b.accepted == Items(b.dispatched) + InFlight(b.dispatcher) + b.buffer
      && |b.buffer| <= b.capacity == (if bufferSize <= 0 then 256 else bufferSize)
      && (forall i :: 0 <= i < |b.dispatched| ==> DispatchOk(b.dispatched[i]))
      && (forall i :: 0 <= i < |b.dispatched| ==>
            b.dispatched[i].snapshot <= SubscribedTo(steps, b.dispatched[i].item.env.topic))
      && (b.dispatcher.Finished? ==> CloseChannel in steps && Items(b.dispatched) == b.accepted)
  {
    var b := Run(NewBus(bufferSize), steps);
    RunKeeps(NewBus(bufferSize), steps);
    ClosedExactly(NewBus(bufferSize), steps);
    RunSnapshots(NewBus(bufferSize), steps);
    CapacityFixed(NewBus(bufferSize), steps);
    hide Run, LegalRun, SubscribedTo, DispatchOk;
    forall i | 0 <= i < |b.dispatched|
      ensures b.dispatched[i].snapshot <= SubscribedTo(steps, b.dispatched[i].item.env.topic)
    {
      HandlersAreSubscribed(NewBus(bufferSize), steps, b.dispatched[i].item.env.topic);
    }
  }

  /**
    The published events that found room in the buffer, in the order they were published, each with the handlers
    that were subscribed to its topic by then; past is what happened before.
   */
  function FoundRoom(b: Bus, past: seq<Step>, steps: seq<Step>): seq<Accepted>
    requires LegalRun(b, steps)
    decreases |steps|
  {
    if steps == [] then []
    else
      var rest := FoundRoom(Next(b, steps[0]), past + [steps[0]], steps[1..]);
      if steps[0].Publish? && |b.buffer| < b.capacity
      then [Accepted(steps[0].env, SubscribedTo(past, steps[0].env.topic))] + rest
      else rest
  }

  lemma {:induction false} AcceptedFrom(b: Bus, past: seq<Step>, steps: seq<Step>)
    requires LegalRun(b, steps) && forall topic :: HandlersOf(b, topic) == SubscribedTo(past, topic)
    ensures Run(b, steps).accepted == b.accepted + FoundRoom(b, past, steps)
    decreases |steps|
  {
    hide SubscribedTo;
    if steps != [] {
      var next := Next(b, steps[0]);
      forall topic ensures HandlersOf(next, topic) == SubscribedTo(past + [steps[0]], topic) {
        SubscribedNext(past, steps[0], topic);
      }
      AcceptedFrom(next, past + [steps[0]], steps[1..]);
    }
  }

  /**
    Only a full buffer drops an event: what is accepted is what found room, in publishing order, with the
    handlers known then.
   */
  lemma AcceptedFoundRoom(bufferSize: int, steps: seq<Step>)
    requires LegalRun(NewBus(bufferSize), steps)
    ensures Run(NewBus(bufferSize), steps).accepted == FoundRoom(NewBus(bufferSize), [], steps)
  {
    AcceptedFrom(NewBus(bufferSize), [], steps);
  }

  // ----- The bus as it runs -----

  class EventBus {
    const capacity: nat
    var handlers: map<string, seq<Handler>>
    var buffer: seq<Accepted>
    var closed: bool
    var dispatcher: Dispatcher
    ghost var accepted: seq<Accepted>
    ghost var dispatched: seq<Dispatch>

    ghost function State(): Bus
      reads this
    {
      Bus(capacity, handlers, buffer, closed, dispatcher, accepted, dispatched)
    }

    constructor (bufferSize: int)
      ensures State() == NewBus(bufferSize) && Invariant(State())
    {
      capacity := if bufferSize <= 0 then 256 else bufferSize;
      handlers, buffer, closed, dispatcher := map[], [], false, Waiting;
      accepted, dispatched := [], [];
    }

    /** Never blocks: a full buffer drops the event. */
    method Publish(topic: string, event: string)
      requires Invariant(State()) && !closed
      modifies this`buffer, this`accepted
      ensures State() == Next(old(State()), Step.Publish(Envelope(topic, event)))
      ensures Invariant(State())
    {
      StepKeeps(State(), Step.Publish(Envelope(topic, event)));
      if |buffer| < capacity {
        var item := Accepted(Envelope(topic, event), if topic in handlers then handlers[topic] else []);
        buffer := buffer + [item];
        accepted := accepted + [item];
      }
    }

    method Subscribe(topic: string, handler: Handler)
      requires Invariant(State())
      modifies this`handlers
      ensures State() == Next(old(State()), Step.Subscribe(topic, handler))
      ensures Invariant(State())
    {
      StepKeeps(State(), Step.Subscribe(topic, handler));
      handlers := handlers[topic := (if topic in handlers then handlers[topic] else []) + [handler]];
    }

    /** One turn of the dispatch loop, when nothing else runs meanwhile; handlers may run in any order. */
    method DispatchOne()
      requires Invariant(State()) && dispatcher.Waiting? && buffer != []
      modifies this`buffer, this`dispatcher, this`dispatched
      ensures Invariant(State()) && dispatcher.Waiting?
      ensures buffer == old(buffer)[1..]
      ensures |dispatched| == |old(dispatched)| + 1 && dispatched[..|old(dispatched)|] == old(dispatched)
      ensures dispatched[|old(dispatched)|].item == old(buffer)[0]
      ensures dispatched[|old(dispatched)|].snapshot == HandlersOf(old(State()), old(buffer)[0].env.topic)
    {
      hide Invariant;
      StepKeeps(State(), Take);
      dispatcher, buffer := Taken(buffer[0]), buffer[1..];
      StepKeeps(State(), Snapshot);
      var item := dispatcher.item;
      var snapshot := if item.env.topic in handlers then handlers[item.env.topic] else [];
      dispatcher := Running(item, snapshot, Positions(|snapshot|), []);
      while dispatcher.pending != {}
        invariant dispatcher.Running? && Invariant(State())
        invariant dispatcher.current == item && dispatcher.snapshot == snapshot
        invariant buffer == old(buffer)[1..] && dispatched == old(dispatched)
        decreases dispatcher.pending
      {
        var position :| position in dispatcher.pending;
        StepKeeps(State(), Call(position));
        dispatcher := dispatcher.(pending := dispatcher.pending - {position}, calls := dispatcher.calls + [position]);
      }
      StepKeeps(State(), Complete);
      dispatched := dispatched + [Dispatch(item, snapshot, dispatcher.calls)];
      dispatcher := Waiting;
    }

    /** Close returns after the dispatcher drained the channel: every accepted event has been dispatched. */
    method Close()
      requires Invariant(State()) && !closed && dispatcher.Waiting?
      modifies this`closed, this`buffer, this`dispatcher, this`dispatched
      ensures closed && dispatcher.Finished? && buffer == []
      ensures Invariant(State()) && Items(dispatched) == accepted
    {
      StepKeeps(State(), CloseChannel);
      closed := true;
      while buffer != []
        invariant Invariant(State()) && dispatcher.Waiting? && closed
        decreases |buffer|
      {
        DispatchOne();
      }
      StepKeeps(State(), Finish);
      dispatcher := Finished;
    }
  }
}
