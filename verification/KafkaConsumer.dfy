/**
  The Kafka consume loop (internal/infrastructure/kafka/consumer.go) on one partition: a log, a fetch
  position, and a commit watermark from which a restarted consumer begins again.
 */
module KafkaConsumer {
  import opened Outcomes

  datatype Record = Parseable(envelope: string) | Garbled

  /** One call of the handler at a position of the snapshot, on a record of the log. */
  datatype Attempt = Attempt(record: nat, handler: nat, ok: bool)

  /** The record being worked on: how many handlers it went to, and whether one failed. */
  datatype Work = Work(record: nat, handled: nat, failed: bool)

  datatype Partition = Partition(
    log: seq<Record>,
    handlers: nat,
    watermark: nat,
    position: nat,
    work: Option<Work>,
    attempts: seq<Attempt>,
    skipped: bool,   // a record failed since the last start
    passed: bool)    // a commit went through after such a failure

  datatype Step =
    | Append(record: Record)
    | Fetch
    | Handle(ok: bool)
    | Commit(ok: bool)
    | Skip
    | Restart

  function NewPartition(log: seq<Record>, handlers: nat): Partition {
    Partition(log, handlers, 0, 0, None, [], false, false)
  }

  predicate Enabled(p: Partition, step: Step) {
    match step
    case Append(_) => true
    case Fetch => p.work.None? && p.position < |p.log|
    case Handle(_) => p.work.Some? && p.work.value.record < |p.log| && p.log[p.work.value.record].Parseable?
      && p.work.value.handled < p.handlers
    case Commit(_) => p.work.Some? && p.work.value.record < |p.log| && ReadyToCommit(p, p.work.value)
    case Skip => p.work.Some? && p.work.value.handled == p.handlers && p.work.value.failed
    case Restart => true
  }

  /** A record that does not parse is committed at once; another one when all handlers ran and none failed. */
  predicate ReadyToCommit(p: Partition, w: Work)
    requires w.record < |p.log|
  {
    p.log[w.record].Garbled? || (w.handled == p.handlers && !w.failed)
  }

  function Next(p: Partition, step: Step): Partition
    requires Enabled(p, step)
  {
    match step
    case Append(record) => p.(log := p.log + [record])
    case Fetch => p.(position := p.position + 1, work := Some(Work(p.position, 0, false)))
    case Handle(ok) =>
      var w := p.work.value;
      p.(work := Some(Work(w.record, w.handled + 1, w.failed || !ok)),
         attempts := p.attempts + [Attempt(w.record, w.handled, ok)])
    case Commit(ok) =>
      if ok then p.(work := None, watermark := p.work.value.record + 1, passed := p.passed || p.skipped)
      else p.(work := None)
    case Skip => p.(work := None, skipped := true)
    case Restart => p.(position := p.watermark, work := None, skipped := false)
  }

  predicate LegalRun(p: Partition, steps: seq<Step>)
    decreases |steps|
  {
    steps == [] || (Enabled(p, steps[0]) && LegalRun(Next(p, steps[0]), steps[1..]))
  }

  function Run(p: Partition, steps: seq<Step>): Partition
    requires LegalRun(p, steps)
    decreases |steps|
  {
    if steps == [] then p else Run(Next(p, steps[0]), steps[1..])
  }

  // ----- Handed to every handler -----

  predicate Handed(attempts: seq<Attempt>, record: nat, handler: nat) {
    Attempt(record, handler, true) in attempts || Attempt(record, handler, false) in attempts
  }

  /** A record that parses went to each handler of the snapshot. */
  ghost predicate HandedToAll(p: Partition, record: nat) {
    record < |p.log| && (p.log[record].Parseable? ==> forall h: nat :: h < p.handlers ==> Handed(p.attempts, record, h))
  }

  /** Each handler of the snapshot took the record without an error at least once. */
  ghost predicate Succeeded(p: Partition, record: nat) {
    record < |p.log| &&
    (p.log[record].Parseable? ==> forall h: nat :: h < p.handlers ==> Attempt(record, h, true) in p.attempts)
  }

  /** The records the fetch position has passed, apart from the one being worked on. */
  predicate Behind(p: Partition, record: nat) {
    record < p.position && (p.work.Some? ==> record != p.work.value.record)
  }

  ghost predicate WorkOk(p: Partition, w: Work) {
    && w.record + 1 == p.position <= |p.log| && p.watermark <= w.record && w.handled <= p.handlers
    && (forall h: nat :: h < w.handled ==> Handed(p.attempts, w.record, h))
    && (!w.failed ==> forall h: nat :: h < w.handled ==> Attempt(w.record, h, true) in p.attempts)
    && (w.handled > 0 ==> p.log[w.record].Parseable?)
  }

  ghost predicate Invariant(p: Partition) {
    && p.watermark <= p.position <= |p.log|
    && (p.work.Some? ==> WorkOk(p, p.work.value))
    && (forall r: nat :: Behind(p, r) ==> HandedToAll(p, r))
    && (!p.skipped ==> forall r: nat :: Behind(p, r) && p.watermark <= r ==> Succeeded(p, r))
    && (!p.passed ==> forall r: nat :: r < p.watermark ==> Succeeded(p, r))
  }

  /** What was handed over or taken stays so while the log and the attempts only grow. */
  lemma HistoryGrows(p: Partition, q: Partition)
    requires p.log <= q.log && p.handlers == q.handlers && p.attempts <= q.attempts
    ensures forall r: nat :: HandedToAll(p, r) ==> HandedToAll(q, r)
    ensures forall r: nat :: Succeeded(p, r) ==> Succeeded(q, r)
  {
    assert forall a :: a in p.attempts ==> a in q.attempts;
    forall r: nat | HandedToAll(p, r) ensures HandedToAll(q, r) {
      assert q.log[r] == p.log[r];
      forall h: nat | Handed(p.attempts, r, h) ensures Handed(q.attempts, r, h) {}
    }
    forall r: nat | Succeeded(p, r) ensures Succeeded(q, r) {
      assert q.log[r] == p.log[r];
    }
  }

  lemma HandleKeeps(p: Partition, ok: bool)
    requires Invariant(p) && Enabled(p, Handle(ok))
    ensures Invariant(Next(p, Handle(ok)))
  {
    hide HandedToAll, Succeeded;
    var w, p' := p.work.value, Next(p, Handle(ok));
    HistoryGrows(p, p');
    assert forall a :: a in p.attempts ==> a in p'.attempts;
    assert Attempt(w.record, w.handled, ok) in p'.attempts;
    assert WorkOk(p', p'.work.value) by {
      forall h: nat | Handed(p.attempts, w.record, h) ensures Handed(p'.attempts, w.record, h) {}
      assert Handed(p'.attempts, w.record, w.handled);
    }
    assert forall r: nat :: Behind(p', r) <==> Behind(p, r);
  }

  lemma AppendKeeps(p: Partition, record: Record)
    requires Invariant(p)
    ensures Invariant(Next(p, Append(record)))
  {
    hide HandedToAll, Succeeded;
    HistoryGrows(p, Next(p, Append(record)));
    assert forall r: nat :: Behind(Next(p, Append(record)), r) <==> Behind(p, r);
  }

  lemma FetchKeeps(p: Partition)
    requires Invariant(p) && Enabled(p, Fetch)
    ensures Invariant(Next(p, Fetch))
  {
    hide HandedToAll, Succeeded;
    HistoryGrows(p, Next(p, Fetch));
    assert forall r: nat :: Behind(Next(p, Fetch), r) <==> Behind(p, r);
  }

  /** The record worked on went to every handler, successfully unless it is to be skipped. */
  lemma WorkDone(p: Partition)
    requires Invariant(p) && p.work.Some? && (p.work.value.handled == p.handlers || p.log[p.work.value.record].Garbled?)
    ensures HandedToAll(p, p.work.value.record)
    ensures !p.work.value.failed ==> Succeeded(p, p.work.value.record)
  {
  }

  lemma CommitKeeps(p: Partition, ok: bool)
    requires Invariant(p) && Enabled(p, Commit(ok))
    ensures Invariant(Next(p, Commit(ok)))
  {
    var w, p' := p.work.value, Next(p, Commit(ok));
    WorkDone(p);
    assert p.log[w.record].Garbled? ==> Succeeded(p, w.record);
    hide HandedToAll, Succeeded;
    HistoryGrows(p, p');
    assert forall r: nat :: Behind(p', r) ==> r == w.record || Behind(p, r);
  }

  lemma SkipKeeps(p: Partition)
    requires Invariant(p) && Enabled(p, Skip)
    ensures Invariant(Next(p, Skip))
  {
    var w, p' := p.work.value, Next(p, Skip);
    WorkDone(p);
    hide HandedToAll, Succeeded;
    HistoryGrows(p, p');
    assert forall r: nat :: Behind(p', r) ==> r == w.record || Behind(p, r);
  }

  lemma RestartKeeps(p: Partition)
    requires Invariant(p)
    ensures Invariant(Next(p, Restart))
  {
    var p' := Next(p, Restart);
    hide HandedToAll, Succeeded;
    HistoryGrows(p, p');
    assert forall r: nat :: Behind(p', r) ==> Behind(p, r);
  }

  lemma StepKeeps(p: Partition, step: Step)
    requires Invariant(p) && Enabled(p, step)
    ensures Invariant(Next(p, step))
  {
    match step
    case Append(record) => AppendKeeps(p, record);
    case Fetch => FetchKeeps(p);
    case Handle(ok) => HandleKeeps(p, ok);
    case Commit(ok) => CommitKeeps(p, ok);
    case Skip => SkipKeeps(p);
    case Restart => RestartKeeps(p);
  }

  lemma {:induction false} RunKeeps(p: Partition, steps: seq<Step>)
    requires Invariant(p) && LegalRun(p, steps)
    ensures Invariant(Run(p, steps))
    decreases |steps|
  {
    if steps != [] {
      StepKeeps(p, steps[0]);
      RunKeeps(Next(p, steps[0]), steps[1..]);
    }
  }

  /** The records that arrive in a run, in order. */
  function Arrived(steps: seq<Step>): seq<Record> {
    if steps == [] then []
    else (if steps[0].Append? then [steps[0].record] else []) + Arrived(steps[1..])
  }

  /** The snapshot of the handlers never changes, and the log grows by what arrives. */
  lemma {:induction false} RunExtends(p: Partition, steps: seq<Step>)
    requires LegalRun(p, steps)
    ensures Run(p, steps).handlers == p.handlers && Run(p, steps).log == p.log + Arrived(steps)
    decreases |steps|
  {
    if steps != [] {
      RunExtends(Next(p, steps[0]), steps[1..]);
    }
  }

  /**
    Over any run, with handler errors, failed commits and restarts anywhere: every record below the
    watermark that parses was handed to every handler.
   */
  lemma EveryRunHandsOver(log: seq<Record>, handlers: nat, steps: seq<Step>)
    requires LegalRun(NewPartition(log, handlers), steps)
    ensures var p := Run(NewPartition(log, handlers), steps);
      && p.handlers == handlers && p.log == log + Arrived(steps)
      && forall r: nat :: r < p.watermark ==> HandedToAll(p, r)
  {
    RunKeeps(NewPartition(log, handlers), steps);
    RunExtends(NewPartition(log, handlers), steps);
    var p := Run(NewPartition(log, handlers), steps);
    forall r: nat | r < p.watermark ensures HandedToAll(p, r) {
      assert Behind(p, r);
    }
  }

  // ----- Taken successfully by every handler? -----

  /** A record failed at a handler and was never taken by it. */
  ghost predicate Lost(p: Partition, record: nat) {
    record < |p.log| && p.log[record].Parseable? && !Succeeded(p, record)
  }

  /** Some handler that was called with the record did not take it. */
  ghost predicate MissedBySome(p: Partition, w: Work) {
    exists h: nat :: h < w.handled && Attempt(w.record, h, true) !in p.attempts
  }

  /** Without restarts each record is worked on once, so a record skipped stays lost. */
  ghost predicate OnceThrough(p: Partition) {
    && Invariant(p)
    && (forall a :: a in p.attempts ==> a.record < p.position)
    && (p.work.Some? ==>
          && (forall a :: a in p.attempts && a.record == p.work.value.record ==> a.handler < p.work.value.handled)
          && (p.work.value.failed ==> MissedBySome(p, p.work.value)))
    && (p.skipped ==> exists r: nat :: Behind(p, r) && Lost(p, r))
    && (p.passed ==> p.skipped && exists r: nat :: r < p.watermark && Lost(p, r))
  }

  lemma HandleOnce(p: Partition, ok: bool)
    requires OnceThrough(p) && Enabled(p, Handle(ok))
    ensures OnceThrough(Next(p, Handle(ok)))
  {
    hide Invariant;
    var p', w := Next(p, Handle(ok)), p.work.value;
    HandleKeeps(p, ok);
    WorkRecord(p);
    forall r: nat | r != w.record ensures Lost(p, r) ==> Lost(p', r) {
      assert forall h: nat :: Attempt(r, h, true) in p'.attempts <==> Attempt(r, h, true) in p.attempts;
    }
    assert !ok ==> Attempt(w.record, w.handled, true) !in p'.attempts;
    if w.failed {
      var h: nat :| h < w.handled && Attempt(w.record, h, true) !in p.attempts;
      assert Attempt(w.record, h, true) !in p'.attempts;
    }
    if p.skipped {
      var r: nat :| Behind(p, r) && Lost(p, r);
      assert Behind(p', r) && Lost(p', r);
    }
  }

  lemma WorkRecord(p: Partition)
    requires Invariant(p) && p.work.Some?
    ensures p.work.value.record + 1 == p.position <= |p.log| && p.watermark <= p.work.value.record
    ensures p.work.value.handled > 0 ==> p.log[p.work.value.record].Parseable?
  {
  }

  lemma StepOnce(p: Partition, step: Step)
    requires OnceThrough(p) && Enabled(p, step) && !step.Restart?
    ensures OnceThrough(Next(p, step))
  {
    hide Invariant;
    var p' := Next(p, step);
    StepKeeps(p, step);
    match step
    case Append(record) =>
      assert forall r: nat :: r < |p.log| ==> p'.log[r] == p.log[r];
      InBounds(p);
      forall r: nat | Lost(p, r) ensures Lost(p', r) {}
      assert forall r: nat :: Behind(p, r) ==> Behind(p', r);
    case Fetch =>
      forall r: nat | Lost(p, r) ensures Lost(p', r) {}
      assert forall r: nat :: Behind(p, r) ==> Behind(p', r);
    case Handle(ok) => HandleOnce(p, ok);
    case Commit(ok) =>
      WorkRecord(p);
      forall r: nat | Lost(p, r) ensures Lost(p', r) {}
      assert forall r: nat :: Behind(p, r) ==> Behind(p', r);
      if p'.passed && !p.passed {
        var r: nat :| Behind(p, r) && Lost(p, r);
        assert r < p'.watermark && Lost(p', r);
      }
    case Skip =>
      WorkRecord(p);
      forall r: nat | Lost(p, r) ensures Lost(p', r) {}
      assert forall r: nat :: Behind(p, r) ==> Behind(p', r);
      var h: nat :| h < p.work.value.handled && Attempt(p.work.value.record, h, true) !in p.attempts;
      assert Lost(p', p.work.value.record) && Behind(p', p.work.value.record);
  }

  lemma InBounds(p: Partition)
    requires Invariant(p)
    ensures p.watermark <= p.position <= |p.log|
  {
  }

  lemma {:induction false} RunOnce(p: Partition, steps: seq<Step>)
    requires OnceThrough(p) && LegalRun(p, steps) && forall s :: s in steps ==> !s.Restart?
    ensures OnceThrough(Run(p, steps))
    decreases |steps|
  {
    if steps != [] {
      assert steps[0] in steps;
      StepOnce(p, steps[0]);
      RunOnce(Next(p, steps[0]), steps[1..]);
    }
  }

  /** A record fails, and before the next restart some later commit goes through. */
  predicate CommitAfterFailure(steps: seq<Step>, failed: bool) {
    if steps == [] then false
    else match steps[0]
      case Skip => CommitAfterFailure(steps[1..], true)
      case Restart => CommitAfterFailure(steps[1..], false)
      case Commit(true) => failed || CommitAfterFailure(steps[1..], failed)
      case _ => CommitAfterFailure(steps[1..], failed)
  }

  lemma {:induction false} PassedExactlyThen(p: Partition, steps: seq<Step>)
    requires LegalRun(p, steps)
    ensures Run(p, steps).passed <==> p.passed || CommitAfterFailure(steps, p.skipped)
    decreases |steps|
  {
    if steps != [] {
      PassedExactlyThen(Next(p, steps[0]), steps[1..]);
    }
  }

  /**
    Whether everything below the watermark was also taken successfully.  In every run that never lets a
    commit through after a failure in the same session, it was.  In a run without restarts that is also
    the only way: one commit after a failure leaves a record below the watermark that some handler
    never took.
   */
  lemma SuccessBelowWatermark(log: seq<Record>, handlers: nat, steps: seq<Step>)
    requires LegalRun(NewPartition(log, handlers), steps)
    ensures var p := Run(NewPartition(log, handlers), steps);
      && (!CommitAfterFailure(steps, false) ==> forall r: nat :: r < p.watermark ==> Succeeded(p, r))
      && ((forall s :: s in steps ==> !s.Restart?) ==>
            ((forall r: nat :: r < p.watermark ==> Succeeded(p, r)) <==> !CommitAfterFailure(steps, false)))
  {
    RunKeeps(NewPartition(log, handlers), steps);
    PassedExactlyThen(NewPartition(log, handlers), steps);
    if forall s :: s in steps ==> !s.Restart? {
      RunOnce(NewPartition(log, handlers), steps);
    }
  }

  /** Every record below the watermark was taken by every handler of the snapshot. */
  ghost predicate AllTaken(p: Partition) {
    forall r: nat :: r < p.watermark ==> Succeeded(p, r)
  }

  /** A commit that moves the watermark past a record some handler has not taken so far, in any session. */
  ghost predicate PassesOver(p: Partition, step: Step) {
    step == Commit(true) && exists r: nat :: Behind(p, r) && p.watermark <= r && !Succeeded(p, r)
  }

  ghost predicate PassesOverSome(p: Partition, steps: seq<Step>)
    requires LegalRun(p, steps)
    decreases |steps|
  {
    steps != [] && (PassesOver(p, steps[0]) || PassesOverSome(Next(p, steps[0]), steps[1..]))
  }

  /** No record below the watermark is called again, so a record passed over stays lost. */
  lemma NotCalledAgain(p: Partition, step: Step, r: nat)
    requires Invariant(p) && Enabled(p, step) && r < p.watermark
    ensures Succeeded(Next(p, step), r) <==> Succeeded(p, r)
  {
    var p' := Next(p, step);
    HistoryGrows(p, p');
    assert p'.log[r] == p.log[r];
    forall h: nat ensures Attempt(r, h, true) in p'.attempts <==> Attempt(r, h, true) in p.attempts {}
  }

  lemma StepPasses(p: Partition, step: Step)
    requires Invariant(p) && Enabled(p, step)
    ensures AllTaken(Next(p, step)) <==> AllTaken(p) && !PassesOver(p, step)
  {
    InBounds(p);
    forall r: nat | r < p.watermark ensures Succeeded(Next(p, step), r) <==> Succeeded(p, r) {
      NotCalledAgain(p, step, r);
    }
    if step == Commit(true) {
      WorkRecord(p);
      WorkDone(p);
      assert p.log[p.work.value.record].Garbled? ==> Succeeded(p, p.work.value.record);
      hide Invariant, HandedToAll;
      forall r: nat ensures Succeeded(Next(p, step), r) <==> Succeeded(p, r) {}
      hide Succeeded;
      assert forall r: nat :: r < Next(p, step).watermark <==>
        r < p.watermark || (Behind(p, r) && p.watermark <= r) || r == p.work.value.record;
    }
  }

  /**
    Exactly when everything below the watermark was taken, from any state and over every run, restarts
    included: it was at the beginning, and no commit passes over a record some handler has not taken yet.
   */
  lemma {:induction false} TakenExactly(p: Partition, steps: seq<Step>)
    requires Invariant(p) && LegalRun(p, steps)
    ensures AllTaken(Run(p, steps)) <==> AllTaken(p) && !PassesOverSome(p, steps)
    decreases |steps|
  {
    hide Invariant, AllTaken, PassesOver;
    if steps != [] {
      StepPasses(p, steps[0]);
      StepKeeps(p, steps[0]);
      TakenExactly(Next(p, steps[0]), steps[1..]);
    }
  }

  /**
    A run from the start: the handler fails on the first record, takes the second, and its commit passes
    over the first.
   */
  lemma LostRecordIsReachable() returns (steps: seq<Step>)
    ensures LegalRun(NewPartition([Parseable("a"), Parseable("b")], 1), steps)
    ensures var p := Run(NewPartition([Parseable("a"), Parseable("b")], 1), steps);
      p.watermark == 2 && !Succeeded(p, 0)
  {
    var start := NewPartition([Parseable("a"), Parseable("b")], 1);
    FirstStep(start, Fetch);
    steps := StepFurther(start, [Fetch], Handle(false));
    steps := StepFurther(start, steps, Skip);
    steps := StepFurther(start, steps, Fetch);
    steps := StepFurther(start, steps, Handle(true));
    steps := StepFurther(start, steps, Commit(true));
    var p := Run(start, steps);
    assert p.attempts == [Attempt(0, 0, false), Attempt(1, 0, true)];
    assert p.log[0].Parseable? && Attempt(0, 0, true) !in p.attempts;
  }

  // ----- What comes again after a restart -----

  /** The rest of the handlers take the record. */
  lemma {:induction false} HandlersTake(p: Partition, w: Work) returns (steps: seq<Step>)
    requires Invariant(p) && p.work == Some(w) && p.log[w.record].Parseable? && !w.failed
    ensures forall s :: s in steps ==> s in {Fetch, Handle(true), Commit(true)}
    ensures LegalRun(p, steps) && Invariant(Run(p, steps))
    ensures var q := Run(p, steps);
      q == p.(work := Some(Work(w.record, p.handlers, false)), attempts := q.attempts) && p.attempts <= q.attempts
    decreases p.handlers - w.handled
  {
    EmptyRun(p);
    steps := [];
    if w.handled < p.handlers {
      StepKeeps(p, Handle(true));
      FirstStep(p, Handle(true));
      hide Run, LegalRun, Invariant;
      var next := Next(p, Handle(true));
      var rest := HandlersTake(next, next.work.value);
      RunFurther(p, [Handle(true)], rest);
      steps := [Handle(true)] + rest;
    }
  }

  /** The next record is fetched, taken by every handler, and committed. */
  lemma TakeNext(p: Partition) returns (steps: seq<Step>)
    requires Invariant(p) && p.work.None? && p.position < |p.log|
    ensures forall s :: s in steps ==> s in {Fetch, Handle(true), Commit(true)}
    ensures LegalRun(p, steps) && Invariant(Run(p, steps))
    ensures var q := Run(p, steps);
      && q.log == p.log && q.handlers == p.handlers && p.attempts <= q.attempts && q.work.None?
      && q.position == q.watermark == p.position + 1 && Succeeded(q, p.position)
  {
    FirstStep(p, Fetch);
    StepKeeps(p, Fetch);
    hide Run, LegalRun, Invariant, Succeeded;
    steps := [Fetch];
    var fetched := Next(p, Fetch);
    var ready := fetched;
    if p.log[p.position].Parseable? {
      var rest := HandlersTake(fetched, fetched.work.value);
      RunFurther(p, steps, rest);
      steps := steps + rest;
      ready := Run(p, steps);
    }
    WorkDone(ready);
    StepKeeps(ready, Commit(true));
    HistoryGrows(ready, Next(ready, Commit(true)));
    steps := StepFurther(p, steps, Commit(true));
  }

  lemma {:induction false} CatchUp(p: Partition) returns (steps: seq<Step>)
    requires Invariant(p) && p.work.None?
    ensures forall s :: s in steps ==> s in {Fetch, Handle(true), Commit(true)}
    ensures LegalRun(p, steps) && Invariant(Run(p, steps))
    ensures var q := Run(p, steps);
      && q.log == p.log && q.handlers == p.handlers && p.attempts <= q.attempts
      && (forall r: nat :: p.position <= r < |p.log| ==> Succeeded(q, r))
      && (if p.position < |p.log| then q.watermark == |p.log| else q == p)
    decreases |p.log| - p.position
  {
    EmptyRun(p);
    InBounds(p);
    steps := [];
    if p.position < |p.log| {
      hide Run, LegalRun, Invariant, Succeeded;
      var first := TakeNext(p);
      var next := Run(p, first);
      var rest := CatchUp(next);
      RunFurther(p, first, rest);
      HistoryGrows(next, Run(next, rest));
      InBounds(Run(next, rest));
      steps := first + rest;
    }
  }

  /**
    At least once, as far as the watermark goes: whatever happened before, after a restart a run without further
    failures brings every record from the watermark on to every handler, and ends with all of them committed.
   */
  lemma RestartCatchesUp(p: Partition) returns (steps: seq<Step>)
    requires Invariant(p) && p.watermark < |p.log|
    ensures LegalRun(p, steps) && steps != [] && steps[0] == Restart
    ensures forall s :: s in steps[1..] ==> s in {Fetch, Handle(true), Commit(true)}
    ensures var q := Run(p, steps);
      && q.log == p.log && q.handlers == p.handlers && q.watermark == |p.log|
      && forall r: nat :: p.watermark <= r < |p.log| ==> Succeeded(q, r)
  {
    FirstStep(p, Restart);
    StepKeeps(p, Restart);
    hide Run, LegalRun, Invariant, Succeeded;
    var next := Next(p, Restart);
    var rest := CatchUp(next);
    RunFurther(p, [Restart], rest);
    steps := [Restart] + rest;
  }

  // ----- The consumer as it runs -----

  /** What happens to one fetched record: each handler's answer, and whether a commit would go through. */
  datatype Fate = Fate(answers: seq<bool>, commitOk: bool)

  class Consumer {
    const handlers: nat
    var log: seq<Record>
    var watermark: nat
    var position: nat
    ghost var work: Option<Work>
    ghost var attempts: seq<Attempt>
    ghost var skipped: bool
    ghost var passed: bool

    ghost function State(): Partition
      reads this
    {
      Partition(log, handlers, watermark, position, work, attempts, skipped, passed)
    }

    /** Start copies the topic's handlers; later subscriptions do not reach the loop. */
    constructor (log: seq<Record>, subscribed: nat)
      ensures State() == NewPartition(log, subscribed) && Invariant(State())
    {
      handlers := subscribed;
      this.log, watermark, position, work := log, 0, 0, None;
      attempts, skipped, passed := [], false, false;
    }

    /** consumeLoop for as many records as fates are given: a run of the model without a restart. */
    method ConsumeLoop(fates: seq<Fate>) returns (ghost steps: seq<Step>)
      requires Invariant(State()) && work.None?
      requires position + |fates| <= |log|
      requires forall f :: f in fates ==> |f.answers| == handlers
      modifies this`watermark, this`position, this`work, this`attempts, this`skipped, this`passed
      ensures LegalRun(old(State()), steps) && State() == Run(old(State()), steps)
      ensures Invariant(State()) && work.None?
      ensures position == old(position) + |fates|
      ensures forall r: nat :: r < watermark ==> HandedToAll(State(), r)
    {
      hide Invariant;
      var i := 0;
      steps := [];
      while i < |fates|
        invariant i <= |fates| && position == old(position) + i
        invariant LegalRun(old(State()), steps) && State() == Run(old(State()), steps)
        invariant Invariant(State()) && work.None?
      {
        assert fates[i] in fates;
        ghost var more: seq<Step>;
        more := ConsumeOne(fates[i]);
        RunFurther(old(State()), steps, more);
        steps := steps + more;
        i := i + 1;
      }
      HandedBelowWatermark(State());
    }

    /** One turn of the loop: every handler is called once, and the watermark moves only if none failed. */
    method ConsumeOne(fate: Fate) returns (ghost steps: seq<Step>)
      requires Invariant(State()) && work.None? && position < |log| && |fate.answers| == handlers
      modifies this`watermark, this`position, this`work, this`attempts, this`skipped, this`passed
      ensures LegalRun(old(State()), steps) && State() == Run(old(State()), steps)
      ensures Invariant(State()) && work.None? && position == old(position) + 1
      ensures attempts == old(attempts) + if log[old(position)].Garbled? then [] else Calls(old(position), fate.answers)
      ensures watermark == if fate.commitOk && (log[old(position)].Garbled? || false !in fate.answers)
        then old(position) + 1 else old(watermark)
    {
      hide Invariant, Run, LegalRun;
      ghost var before := State();
      steps := [Fetch];
      FirstStep(before, Fetch);
      StepKeeps(before, Fetch);
      var msg := position;
      position, work := position + 1, Some(Work(msg, 0, false));
      if log[msg].Garbled? {
        steps := StepFurther(before, steps, Commit(fate.commitOk));
        CommitMessage(msg, fate.commitOk);
        return;
      }
      ghost var rest: seq<Step>;
      rest := Dispatch(msg, fate);
      RunFurther(before, steps, rest);
      steps := steps + rest;
    }

    /** A parsed record: all handlers, then a commit only if none failed. */
    method Dispatch(msg: nat, fate: Fate) returns (ghost steps: seq<Step>)
      requires Invariant(State()) && work == Some(Work(msg, 0, false)) && |fate.answers| == handlers
      requires msg < |log| && log[msg].Parseable?
      modifies this`watermark, this`work, this`attempts, this`skipped, this`passed
      ensures LegalRun(old(State()), steps) && State() == Run(old(State()), steps)
      ensures Invariant(State()) && work.None?
      ensures attempts == old(attempts) + Calls(msg, fate.answers)
      ensures watermark == if fate.commitOk && false !in fate.answers then msg + 1 else old(watermark)
    {
      hide Invariant, Run, LegalRun, Calls;
      ghost var before := State();
      var handlerErr: bool;
      handlerErr, steps := CallHandlers(msg, fate.answers);
      if !handlerErr {
        steps := StepFurther(before, steps, Commit(fate.commitOk));
        CommitMessage(msg, fate.commitOk);
      } else {
        steps := StepFurther(before, steps, Skip);
        StepKeeps(State(), Skip);
        work, skipped := None, true;
      }
    }

    /** The inner loop: an error is remembered, and the remaining handlers still run. */
    method CallHandlers(msg: nat, answers: seq<bool>) returns (handlerErr: bool, ghost steps: seq<Step>)
      requires Invariant(State()) && work == Some(Work(msg, 0, false)) && |answers| == handlers
      requires msg < |log| && log[msg].Parseable?
      modifies this`work, this`attempts
      ensures LegalRun(old(State()), steps) && State() == Run(old(State()), steps)
      ensures Invariant(State())
      ensures attempts == old(attempts) + Calls(msg, answers)
      ensures handlerErr == (false in answers) && work == Some(Work(msg, handlers, handlerErr))
    {
      hide Invariant, Run, LegalRun;
      var h := 0;
      handlerErr := false;
      ghost var before := State();
      EmptyRun(before);
      steps := [];
      while h < handlers
        invariant h <= handlers && Invariant(State())
        invariant LegalRun(before, steps) && State() == Run(before, steps)
        invariant attempts == old(attempts) + Calls(msg, answers[..h])
        invariant work == Some(Work(msg, h, handlerErr))
        invariant handlerErr <==> false in answers[..h]
      {
        steps := StepFurther(before, steps, Handle(answers[h]));
        StepKeeps(State(), Handle(answers[h]));
        assert answers[..h + 1] == answers[..h] + [answers[h]];
        attempts := attempts + [Attempt(msg, h, answers[h])];
        if !answers[h] {
          handlerErr := true;
        }
        h := h + 1;
        work := Some(Work(msg, h, handlerErr));
      }
      assert answers[..h] == answers;
    }

    method CommitMessage(msg: nat, ok: bool)
      requires Invariant(State()) && work.Some? && work.value.record == msg && Enabled(State(), Commit(ok))
      modifies this`watermark, this`work, this`passed
      ensures State() == Next(old(State()), Commit(ok)) && Invariant(State())
    {
      hide Invariant;
      StepKeeps(State(), Commit(ok));
      if ok {
        watermark := msg + 1;
        passed := passed || skipped;
      }
      work := None;
    }
  }

  /** Each handler of the snapshot called once, in order. */
  function Calls(record: nat, answers: seq<bool>): seq<Attempt> {
    seq(|answers|, h requires 0 <= h < |answers| => Attempt(record, h, answers[h]))
  }

  lemma {:induction false} RunFurther(p: Partition, steps: seq<Step>, more: seq<Step>)
    requires LegalRun(p, steps) && LegalRun(Run(p, steps), more)
    ensures LegalRun(p, steps + more) && Run(p, steps + more) == Run(Run(p, steps), more)
    decreases |steps|
  {
    if steps == [] {
      assert steps + more == more;
    } else {
      RunFurther(Next(p, steps[0]), steps[1..], more);
      assert (steps + more)[1..] == steps[1..] + more;
    }
  }

  lemma EmptyRun(p: Partition)
    ensures LegalRun(p, []) && Run(p, []) == p
  {
  }

  lemma FirstStep(p: Partition, step: Step)
    requires Enabled(p, step)
    ensures LegalRun(p, [step]) && Run(p, [step]) == Next(p, step)
  {
  }

  lemma StepFurther(p: Partition, steps: seq<Step>, step: Step) returns (longer: seq<Step>)
    requires LegalRun(p, steps) && Enabled(Run(p, steps), step)
    ensures longer == steps + [step] && LegalRun(p, longer) && Run(p, longer) == Next(Run(p, steps), step)
  {
    longer := steps + [step];
    FirstStep(Run(p, steps), step);
    RunFurther(p, steps, [step]);
  }

  lemma HandedBelowWatermark(p: Partition)
    requires Invariant(p) && p.work.None?
    ensures forall r: nat :: r < p.watermark ==> HandedToAll(p, r)
  {
  }
}
