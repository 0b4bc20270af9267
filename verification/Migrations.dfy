/**
  The migration runner (internal/infrastructure/postgres/migrate.go) over restarts: applying a file and
  recording it are two statements, and a run can stop before any statement.

  The runner does not look at the error state of the result set it reads the recorded names from, so a
  read may silently see only part of them.
 */
module Migrations {
  import opened Strings

  /** One execution of a file, with the names recorded at that time. */
  datatype Execution = Execution(file: string, recorded: set<string>)

  /** The database: the recorded names, and every successful execution of a file so far. */
  datatype Db = Db(recorded: set<string>, log: seq<Execution>)

  datatype Outcome = Done | Failed

  /**
    Dropping and creating the table of names, reading it and listing the files: all well, or broken off
    before or after the drop.
   */
  datatype Setup = Ready | Broken(dropped: bool)

  /**
    How a run goes: force or not, its preparation, the names its read delivers, and the outcome of each
    further statement until it is stopped.
   */
  datatype RunInput = RunInput(force: bool, setup: Setup, seen: set<string>, outcomes: seq<Outcome>)

  datatype Ending = Completed | Errored | Stopped

  /** gap is the file the run executed without recording it, if any. */
  datatype RunResult = RunResult(db: Db, ending: Ending, gap: set<string>)

  function Executed(db: Db, file: string): Db {
    db.(log := db.log + [Execution(file, db.recorded)])
  }

  /** Recording inserts under a primary key, so a name already there is refused. */
  predicate RecordSucceeds(db: Db, file: string, outcome: Outcome) {
    outcome.Done? && file !in db.recorded
  }

  function Recorded(db: Db, file: string): Db {
    db.(recorded := db.recorded + {file})
  }

  /** The loop over the sorted files. */
  function ApplyFiles(db: Db, files: seq<string>, applied: set<string>, outcomes: seq<Outcome>): RunResult
    decreases |files|
  {
    if files == [] then RunResult(db, Completed, {})
    else if files[0] in applied then ApplyFiles(db, files[1..], applied, outcomes)
    else if outcomes == [] then RunResult(db, Stopped, {})
    else if outcomes[0].Failed? then RunResult(db, Errored, {})
    else
      var executed := Executed(db, files[0]);
      if |outcomes| == 1 then RunResult(executed, Stopped, {files[0]})
      else if !RecordSucceeds(executed, files[0], outcomes[1]) then RunResult(executed, Errored, {files[0]})
      else ApplyFiles(Recorded(executed, files[0]), files[1..], applied, outcomes[2..])
  }

  /** What dropping the table first leaves. */
  function Prepared(db: Db, force: bool): Db {
    if force then db.(recorded := {}) else db
  }

  /** RunMigrations. */
  function RunOnce(db: Db, files: seq<string>, input: RunInput): RunResult {
    var start := Prepared(db, input.force && input.setup != Broken(false));
    if input.setup.Broken? then RunResult(start, Errored, {})
    else ApplyFiles(start, files, input.seen * start.recorded, input.outcomes)
  }

  function RunAll(db: Db, files: seq<string>, inputs: seq<RunInput>): Db
    decreases |inputs|
  {
    if inputs == [] then db else RunAll(RunOnce(db, files, inputs[0]).db, files, inputs[1..])
  }

  const EMPTY := Db({}, [])

  // ----- The recorded set is a prefix, and files run in order -----

  ghost predicate Distinct(files: seq<string>) {
    forall i, j :: 0 <= i < j < |files| ==> files[i] != files[j]
  }

  function Names(files: seq<string>): set<string> {
    set f | f in files
  }

  /** A file ran only when all files before it were recorded. */
  ghost predicate InOrder(files: seq<string>, log: seq<Execution>) {
    forall e :: e in log ==> exists i :: 0 <= i < |files| && files[i] == e.file && Names(files[..i]) <= e.recorded
  }

  /** The recorded names are those of the first n files. */
  predicate RecordedUpTo(files: seq<string>, db: Db, n: nat) {
    n <= |files| && db.recorded == Names(files[..n])
  }

  ghost predicate DbOk(files: seq<string>, db: Db) {
    (exists n :: RecordedUpTo(files, db, n)) && InOrder(files, db.log)
  }

  lemma NamesGrow(files: seq<string>, i: nat)
    requires i < |files|
    ensures Names(files[..i + 1]) == Names(files[..i]) + {files[i]}
  {
  }

  lemma ExecuteInOrder(files: seq<string>, db: Db, i: nat, n: nat)
    requires InOrder(files, db.log) && i < |files| && i <= n && RecordedUpTo(files, db, n)
    ensures InOrder(files, Executed(db, files[i]).log)
  {
  }

  lemma NotYetRecorded(files: seq<string>, db: Db, i: nat, n: nat)
    requires Distinct(files) && i < |files| && RecordedUpTo(files, db, n)
    ensures files[i] in db.recorded <==> i < n
  {
  }

  /** The loop, entered at position i with the first n files recorded. */
  lemma {:induction false} ApplyKeeps(files: seq<string>, db: Db, i: nat, n: nat, applied: set<string>,
      outcomes: seq<Outcome>)
    requires Distinct(files) && i <= |files| && i <= n && RecordedUpTo(files, db, n) && InOrder(files, db.log)
    requires applied <= db.recorded
    ensures DbOk(files, ApplyFiles(db, files[i..], applied, outcomes).db)
    ensures ApplyFiles(db, files[i..], applied, outcomes).ending.Completed? ==>
      ApplyFiles(db, files[i..], applied, outcomes).db.recorded == Names(files)
    decreases |files| - i
  {
    hide InOrder;
    if i == |files| {
      assert files[..n] == files;
    } else {
      NotYetRecorded(files, db, i, n);
      assert files[i..][1..] == files[i + 1..];
      if files[i] in applied {
        ApplyKeeps(files, db, i + 1, n, applied, outcomes);
      } else if outcomes != [] && outcomes[0].Done? {
        ExecuteInOrder(files, db, i, n);
        var executed := Executed(db, files[i]);
        assert RecordedUpTo(files, executed, n);
        if |outcomes| > 1 && RecordSucceeds(executed, files[i], outcomes[1]) {
          NamesGrow(files, i);
          assert RecordedUpTo(files, Recorded(executed, files[i]), n + 1);
          ApplyKeeps(files, Recorded(executed, files[i]), i + 1, n + 1, applied, outcomes[2..]);
        }
      }
    }
  }

  lemma RunKeeps(files: seq<string>, db: Db, input: RunInput)
    requires Distinct(files) && DbOk(files, db)
    ensures DbOk(files, RunOnce(db, files, input).db)
    ensures RunOnce(db, files, input).ending.Completed? ==> RunOnce(db, files, input).db.recorded == Names(files)
  {
    var start := Prepared(db, input.force);
    var n :| RecordedUpTo(files, db, n);
    var m := if input.force then 0 else n;
    assert RecordedUpTo(files, start, m);
    ApplyKeeps(files, start, 0, m, input.seen * start.recorded, input.outcomes);
    assert files[0..] == files;
  }

  lemma {:induction false} RunAllKeeps(files: seq<string>, db: Db, inputs: seq<RunInput>)
    requires Distinct(files) && DbOk(files, db)
    ensures DbOk(files, RunAll(db, files, inputs))
    decreases |inputs|
  {
    if inputs != [] {
      RunKeeps(files, db, inputs[0]);
      RunAllKeeps(files, RunOnce(db, files, inputs[0]).db, inputs[1..]);
    }
  }

  /**
    After any runs, stopped anywhere, forced or not: the recorded set is a prefix of the files, and every
    execution found all earlier files recorded.
   */
  lemma EveryRunKeepsPrefix(files: seq<string>, inputs: seq<RunInput>)
    requires Distinct(files)
    ensures DbOk(files, RunAll(EMPTY, files, inputs))
  {
    assert RecordedUpTo(files, EMPTY, 0);
    RunAllKeeps(files, EMPTY, inputs);
  }

  // ----- How often a file runs -----

  function Executions(log: seq<Execution>, file: string): nat {
    if log == [] then 0 else Executions(log[..|log| - 1], file) + (if log[|log| - 1].file == file then 1 else 0)
  }

  /** The runs that executed the file without recording it. */
  function Gaps(db: Db, files: seq<string>, inputs: seq<RunInput>, file: string): nat
    decreases |inputs|
  {
    if inputs == [] then 0
    else
      var r := RunOnce(db, files, inputs[0]);
      (if file in r.gap then 1 else 0) + Gaps(r.db, files, inputs[1..], file)
  }

  function Forces(inputs: seq<RunInput>): nat {
    if inputs == [] then 0 else (if inputs[0].force then 1 else 0) + Forces(inputs[1..])
  }

  lemma ExecutionsStep(db: Db, executed: string, file: string)
    ensures Executions(Executed(db, executed).log, file) ==
      Executions(db.log, file) + (if executed == file then 1 else 0)
  {
  }

  function Bit(b: bool): nat {
    if b then 1 else 0
  }

  /** Within one run each execution is either recorded, or the run's gap. */
  lemma {:induction false} ApplyCounts(db: Db, files: seq<string>, applied: set<string>, outcomes: seq<Outcome>,
      file: string)
    ensures var r := ApplyFiles(db, files, applied, outcomes);
      && db.recorded <= r.db.recorded
      && Executions(r.db.log, file) + Bit(file in db.recorded) ==
         Executions(db.log, file) + Bit(file in r.db.recorded) + Bit(file in r.gap)
    decreases |files|
  {
    if files == [] {
    } else if files[0] in applied {
      ApplyCounts(db, files[1..], applied, outcomes, file);
    } else if outcomes != [] && outcomes[0].Done? {
      ExecutionsStep(db, files[0], file);
      var executed := Executed(db, files[0]);
      if |outcomes| > 1 && RecordSucceeds(executed, files[0], outcomes[1]) {
        ApplyCounts(Recorded(executed, files[0]), files[1..], applied, outcomes[2..], file);
      }
    }
  }

  lemma {:induction false} RunAllCounts(db: Db, files: seq<string>, inputs: seq<RunInput>, file: string)
    ensures var after := RunAll(db, files, inputs);
      Executions(after.log, file) + Bit(file in db.recorded) <=
      Executions(db.log, file) + Bit(file in after.recorded) + Gaps(db, files, inputs, file) + Forces(inputs)
    ensures var after := RunAll(db, files, inputs);
      Executions(after.log, file) + Bit(file in db.recorded) >=
      Executions(db.log, file) + Bit(file in after.recorded) + Gaps(db, files, inputs, file)
    decreases |inputs|
  {
    if inputs != [] {
      var start := Prepared(db, inputs[0].force && inputs[0].setup != Broken(false));
      ApplyCounts(start, files, inputs[0].seen * start.recorded, inputs[0].outcomes, file);
      RunAllCounts(RunOnce(db, files, inputs[0]).db, files, inputs[1..], file);
    }
  }

  /**
    Conservation: without force, a file's successful executions are exactly its record, if it has one,
    plus the runs that executed it without recording it; every forced run can add at most one more.
   */
  lemma ExecutionsAccounted(files: seq<string>, inputs: seq<RunInput>, file: string)
    ensures var after := RunAll(EMPTY, files, inputs);
      var settled := Bit(file in after.recorded) + Gaps(EMPTY, files, inputs, file);
      && settled <= Executions(after.log, file) <= settled + Forces(inputs)
      && Executions(after.log, file) <= 1 + Gaps(EMPTY, files, inputs, file) + Forces(inputs)
  {
    RunAllCounts(EMPTY, files, inputs, file);
  }

  /** The files that are not known as applied, in order. */
  function Missing(files: seq<string>, applied: set<string>): seq<string> {
    if files == [] then []
    else if files[0] in applied then Missing(files[1..], applied)
    else [files[0]] + Missing(files[1..], applied)
  }

  predicate AllDone(outcomes: seq<Outcome>) {
    forall i :: 0 <= i < |outcomes| ==> outcomes[i].Done?
  }

  /**
    When every statement works, the loop executes exactly the files not known as applied, in order, each before
    it is recorded, and completes with all of them recorded.
   */
  lemma {:induction false} RunsWhatIsMissing(db: Db, files: seq<string>, applied: set<string>, outcomes: seq<Outcome>)
    requires Distinct(files) && AllDone(outcomes) && 2 * |Missing(files, applied)| <= |outcomes|
    requires forall f :: f in files && f !in applied ==> f !in db.recorded
    ensures var r, missing := ApplyFiles(db, files, applied, outcomes), Missing(files, applied);
      && r.ending.Completed? && r.gap == {}
      && r.db.recorded == db.recorded + Names(missing)
      && |r.db.log| == |db.log| + |missing| && r.db.log[..|db.log|] == db.log
      && forall i: nat :: i < |missing| ==>
           r.db.log[|db.log| + i] == Execution(missing[i], db.recorded + Names(missing[..i]))
    decreases |files|
  {
    if files != [] {
      var rest := files[1..];
      assert files == [files[0]] + rest;
      assert forall i, j :: 0 <= i < j < |rest| ==> rest[i] == files[i + 1] && rest[j] == files[j + 1];
      if files[0] in applied {
        RunsWhatIsMissing(db, rest, applied, outcomes);
      } else {
        var missing, next := Missing(rest, applied), Recorded(Executed(db, files[0]), files[0]);
        assert files[0] !in rest;
        assert Names([files[0]] + missing) == {files[0]} + Names(missing);
        RunsWhatIsMissing(next, rest, applied, outcomes[2..]);
        var log := ApplyFiles(next, rest, applied, outcomes[2..]).db.log;
        assert log[..|db.log|] == log[..|next.log|][..|db.log|];
        assert log[|db.log|] == log[..|next.log|][|db.log|];
        var whole := [files[0]] + missing;
        forall i: nat | i < |whole|
          ensures log[|db.log| + i] == Execution(whole[i], db.recorded + Names(whole[..i]))
        {
          if i > 0 {
            assert whole[..i] == [files[0]] + missing[..i - 1];
            assert Names(whole[..i]) == {files[0]} + Names(missing[..i - 1]);
            assert log[|next.log| + (i - 1)] == Execution(missing[i - 1], next.recorded + Names(missing[..i - 1]));
          }
        }
      }
    }
  }

  /**
    How the loop ends early, at the first file not known as applied: with an error and nothing changed when its
    execution fails, with an error when only its record fails, and stopped when the run is cut off.
   */
  lemma {:induction false} EarlyEndings(db: Db, files: seq<string>, applied: set<string>, outcomes: seq<Outcome>)
    requires Missing(files, applied) != []
    ensures var r, first := ApplyFiles(db, files, applied, outcomes), Missing(files, applied)[0];
      var executed := db.log + [Execution(first, db.recorded)];
      && (outcomes == [] ==> r == RunResult(db, Stopped, {}))
      && (outcomes != [] && outcomes[0].Failed? ==> r == RunResult(db, Errored, {}))
      && (outcomes == [Done] ==> r == RunResult(Db(db.recorded, executed), Stopped, {first}))
      && (|outcomes| > 1 && outcomes[0].Done? && (outcomes[1].Failed? || first in db.recorded) ==>
            r == RunResult(Db(db.recorded, executed), Errored, {first}))
    decreases |files|
  {
    if files[0] in applied {
      EarlyEndings(db, files[1..], applied, outcomes);
    }
  }

  /** A run whose preparation breaks off executes nothing; the names are gone if the drop went through. */
  lemma BrokenPreparation(db: Db, files: seq<string>, input: RunInput)
    requires input.setup.Broken?
    ensures var r := RunOnce(db, files, input);
      && r.ending.Errored? && r.gap == {} && r.db.log == db.log
      && r.db.recorded == if input.force && input.setup.dropped then {} else db.recorded
  {
  }

  /** Once everything is recorded, a run that reads all the names executes nothing and completes. */
  lemma {:induction false} NothingLeft(db: Db, files: seq<string>, applied: set<string>, outcomes: seq<Outcome>)
    requires Names(files) <= applied
    ensures ApplyFiles(db, files, applied, outcomes) == RunResult(db, Completed, {})
    decreases |files|
  {
    if files != [] {
      assert files[0] in Names(files);
      assert Names(files[1..]) <= Names(files);
      NothingLeft(db, files[1..], applied, outcomes);
    }
  }

  /** A run after a completed one changes nothing, unless it is forced or its read is cut short. */
  lemma RunAfterCompleted(files: seq<string>, db: Db, first: RunInput, second: RunInput)
    requires Distinct(files) && DbOk(files, db)
    requires RunOnce(db, files, first).ending.Completed?
    requires !second.force && RunOnce(db, files, first).db.recorded <= second.seen
    ensures var r := RunOnce(db, files, first);
      RunOnce(r.db, files, second) == RunResult(r.db, if second.setup.Ready? then Completed else Errored, {})
  {
    RunKeeps(files, db, first);
    var r := RunOnce(db, files, first);
    NothingLeft(r.db, files, second.seen * r.db.recorded, second.outcomes);
  }

  /** The loop executes something exactly when some file is not known as applied and the next statement works. */
  lemma {:induction false} ExecutesExactly(db: Db, files: seq<string>, applied: set<string>, outcomes: seq<Outcome>)
    ensures var after := ApplyFiles(db, files, applied, outcomes).db;
      && |db.log| <= |after.log|
      && (after.log == db.log <==> Names(files) <= applied || outcomes == [] || outcomes[0].Failed?)
    decreases |files|
  {
    if files != [] {
      assert files == [files[0]] + files[1..];
      assert Names(files) == {files[0]} + Names(files[1..]);
      if files[0] in applied {
        ExecutesExactly(db, files[1..], applied, outcomes);
      } else if |outcomes| >= 2 {
        ExecutesExactly(Recorded(Executed(db, files[0]), files[0]), files[1..], applied, outcomes[2..]);
      }
    }
  }

  /**
    When a run after a completed one executes nothing: its preparation breaks off, its first statement does
    not come or fails, there is no file, or it is not forced and its read delivered every name.
   */
  lemma RerunExactly(files: seq<string>, db: Db, first: RunInput, second: RunInput)
    requires Distinct(files) && DbOk(files, db)
    requires RunOnce(db, files, first).ending.Completed?
    ensures var r := RunOnce(db, files, first);
      RunOnce(r.db, files, second).db.log == r.db.log <==>
      || second.setup.Broken? || files == []
      || second.outcomes == [] || second.outcomes[0].Failed?
      || (!second.force && Names(files) <= second.seen)
  {
    RunKeeps(files, db, first);
    var r := RunOnce(db, files, first);
    assert files != [] ==> files[0] in Names(files);
    if second.setup.Ready? {
      var start := Prepared(r.db, second.force);
      ExecutesExactly(start, files, second.seen * start.recorded, second.outcomes);
    }
  }

  /** The first file a read did not deliver. */
  function FirstMissing(files: seq<string>, applied: set<string>): string
    requires !(Names(files) <= applied)
    decreases |files|
  {
    assert files != [] && Names(files) == {files[0]} + Names(files[1..]) by {
      assert files != [] ==> files == [files[0]] + files[1..];
    }
    if files[0] !in applied then files[0] else FirstMissing(files[1..], applied)
  }

  lemma {:induction false} RefusedRecord(db: Db, files: seq<string>, applied: set<string>, outcomes: seq<Outcome>)
    requires !(Names(files) <= applied) && Names(files) <= db.recorded && outcomes != [] && outcomes[0].Done?
    ensures var file := FirstMissing(files, applied);
      ApplyFiles(db, files, applied, outcomes) ==
      RunResult(Executed(db, file), if |outcomes| == 1 then Stopped else Errored, {file})
    decreases |files|
  {
    assert files != [] && Names(files) == {files[0]} + Names(files[1..]) by {
      assert files != [] ==> files == [files[0]] + files[1..];
    }
    if files[0] in applied {
      RefusedRecord(db, files[1..], applied, outcomes);
    }
  }

  /**
    How such a rerun without force ends: the first file the read did not deliver is executed once more, its
    record is refused, and the run is an error with nothing else done.
   */
  lemma RerunEnds(files: seq<string>, db: Db, first: RunInput, second: RunInput)
    requires Distinct(files) && DbOk(files, db)
    requires RunOnce(db, files, first).ending.Completed?
    requires !second.force && second.setup.Ready? && !(Names(files) <= second.seen)
    requires second.outcomes != [] && second.outcomes[0].Done?
    ensures var r, file := RunOnce(db, files, first), FirstMissing(files, second.seen);
      RunOnce(r.db, files, second) ==
      RunResult(Executed(r.db, file), if |second.outcomes| == 1 then Stopped else Errored, {file})
  {
    RunKeeps(files, db, first);
    var r := RunOnce(db, files, first);
    RefusedRecord(r.db, files, second.seen * r.db.recorded, second.outcomes);
    SameMissing(files, second.seen, r.db.recorded);
  }

  lemma {:induction false} SameMissing(files: seq<string>, seen: set<string>, recorded: set<string>)
    requires !(Names(files) <= seen) && Names(files) <= recorded
    ensures !(Names(files) <= seen * recorded) && FirstMissing(files, seen * recorded) == FirstMissing(files, seen)
    decreases |files|
  {
    assert files != [] && Names(files) == {files[0]} + Names(files[1..]) by {
      assert files != [] ==> files == [files[0]] + files[1..];
    }
    if files[0] in seen {
      SameMissing(files[1..], seen, recorded);
    }
  }

  /** A run from the start: a read cut short makes a recorded file run again, although its first run was recorded. */
  lemma ShortReadRunsAgain(file: string)
    ensures var input := RunInput(false, Ready, {}, [Done, Done]);
      && RunOnce(EMPTY, [file], input).ending.Completed?
      && Executions(RunAll(EMPTY, [file], [input, input]).log, file) == 2
  {
    var input := RunInput(false, Ready, {}, [Done, Done]);
    var executed := Executed(EMPTY, file);
    var db1 := Recorded(executed, file);
    assert [file][1..] == [] && input.outcomes[2..] == [];
    assert RecordSucceeds(executed, file, Done);
    assert ApplyFiles(EMPTY, [file], {}, input.outcomes) == ApplyFiles(db1, [], {}, []);
    assert {} * EMPTY.recorded == {} && {} * db1.recorded == {};
    assert RunOnce(EMPTY, [file], input) == RunResult(db1, Completed, {});
    assert RunOnce(db1, [file], input).db == Executed(db1, file);
    ExecutionsStep(EMPTY, file, file);
    ExecutionsStep(db1, file, file);
    assert [input, input][1..] == [input] && [input][1..] == [];
    assert RunAll(db1, [file], [input]) == Executed(db1, file);
  }

  // ----- The runner as it runs -----

  class Database {
    var recorded: set<string>
    ghost var log: seq<Execution>

    constructor ()
      ensures State() == EMPTY
    {
      recorded, log := {}, [];
    }

    ghost function State(): Db
      reads this
    {
      Db(recorded, log)
    }

    /** Runs a file's statements; they take effect together or not at all. */
    method Execute(file: string, outcome: Outcome) returns (ok: bool)
      modifies this
      ensures ok == outcome.Done?
      ensures State() == if ok then Executed(old(State()), file) else old(State())
    {
      ok := outcome.Done?;
      if ok {
        log := log + [Execution(file, recorded)];
      }
    }

    method Insert(file: string, outcome: Outcome) returns (ok: bool)
      modifies this
      ensures ok == RecordSucceeds(old(State()), file, outcome)
      ensures State() == if ok then Recorded(old(State()), file) else old(State())
    {
      ok := outcome.Done? && file !in recorded;
      if ok {
        recorded := recorded + {file};
      }
    }

    method RunMigrations(files: seq<string>, input: RunInput) returns (ending: Ending)
      modifies this
      ensures State() == RunOnce(old(State()), files, input).db
      ensures ending == RunOnce(old(State()), files, input).ending
    {
      if input.force {
        if input.setup == Broken(false) {
          return Errored;
        }
        recorded := {};
      }
      if input.setup.Broken? {
        return Errored;
      }
      ghost var start := State();
      var applied := input.seen * recorded;
      ghost var expected := RunOnce(old(State()), files, input);
      assert expected == ApplyFiles(start, files, applied, input.outcomes);
      var i, used := 0, 0;
      while i < |files|
        invariant i <= |files| && used <= |input.outcomes|
        invariant ApplyFiles(State(), files[i..], applied, input.outcomes[used..]).(gap := {}) == expected.(gap := {})
      {
        var name := files[i];
        assert files[i..][0] == name && files[i..][1..] == files[i + 1..];
        if name !in applied {
          ghost var left := input.outcomes[used..];
          if used == |input.outcomes| {
            return Stopped;
          }
          var executed := Execute(name, input.outcomes[used]);
          if !executed {
            return Errored;
          }
          if used + 1 == |input.outcomes| {
            return Stopped;
          }
          assert left[1] == input.outcomes[used + 1] && left[2..] == input.outcomes[used + 2..];
          var inserted := Insert(name, input.outcomes[used + 1]);
          if !inserted {
            return Errored;
          }
          used := used + 2;
        }
        i := i + 1;
      }
      return Completed;
    }
  }

  // ----- The part of a file that is applied -----

  const UP := "-- +goose Up"
  const DOWN := "-- +goose Down"

  predicate OpensUp(line: string) {
    TrimSpace(line) == UP
  }

  predicate OpensDown(line: string) {
    TrimSpace(line) == DOWN
  }

  /** The lines in an Up section, given whether the first line is in one. */
  function UpLines(lines: seq<string>, inUp: bool): seq<string> {
    if lines == [] then []
    else if OpensUp(lines[0]) then UpLines(lines[1..], true)
    else if OpensDown(lines[0]) then UpLines(lines[1..], false)
    else if inUp then [lines[0]] + UpLines(lines[1..], inUp)
    else UpLines(lines[1..], inUp)
  }

  ghost predicate Plain(lines: seq<string>) {
    forall line :: line in lines ==> TrimSpace(line) != "-- +goose Up" && TrimSpace(line) != "-- +goose Down"
  }

  lemma {:induction false} UpLinesAcross(block: seq<string>, rest: seq<string>, inUp: bool)
    requires Plain(block)
    ensures UpLines(block + rest, inUp) == (if inUp then block else []) + UpLines(rest, inUp)
    decreases |block|
  {
    assert block != [] ==> block[0] in block && !OpensUp(block[0]) && !OpensDown(block[0]);
    hide OpensUp, OpensDown;
    if block == [] {
      assert block + rest == rest;
    } else {
      assert (block + rest)[1..] == block[1..] + rest;
      UpLinesAcross(block[1..], rest, inUp);
    }
  }

  /** An Up section closed by a Down line is applied, and then whatever Up sections the rest has. */
  lemma UpSections(header: seq<string>, up: string, body: seq<string>, down: string, rest: seq<string>)
    requires Plain(header) && Plain(body)
    requires TrimSpace(up) == "-- +goose Up" && TrimSpace(down) == "-- +goose Down"
    ensures UpLines(header + ([up] + (body + ([down] + rest))), false) == body + UpLines(rest, false)
  {
    assert !OpensUp(down) && DOWN[|DOWN| - 1] != UP[|UP| - 1];
    assert OpensUp(up) && OpensDown(down);
    hide OpensUp, OpensDown;
    UpLinesAcross(header, [up] + (body + ([down] + rest)), false);
    UpLinesAcross(body, [down] + rest, true);
    assert ([up] + (body + ([down] + rest)))[1..] == body + ([down] + rest);
    assert ([down] + rest)[1..] == rest;
  }

  /** Of a file with one Up and one Down section, exactly the Up section is applied. */
  lemma UpSectionOnly(header: seq<string>, up: string, body: seq<string>, down: string, tail: seq<string>)
    requires Plain(header) && Plain(body) && Plain(tail)
    requires TrimSpace(up) == "-- +goose Up" && TrimSpace(down) == "-- +goose Down"
    ensures UpLines(header + ([up] + (body + ([down] + tail))), false) == body
  {
    UpSections(header, up, body, down, tail);
    UpLinesAcross(tail, [], false);
    assert tail + [] == tail;
  }

  /** stripGooseDirectives, on the lines of a file. */
  method StripGooseDirectives(lines: seq<string>) returns (upLines: seq<string>)
    ensures upLines == UpLines(lines, false)
  {
    hide OpensUp, OpensDown;
    upLines := [];
    var inUp, i := false, 0;
    while i < |lines|
      invariant i <= |lines|
      invariant upLines + UpLines(lines[i..], inUp) == UpLines(lines, false)
    {
      assert lines[i..][0] == lines[i] && lines[i..][1..] == lines[i + 1..];
      if OpensUp(lines[i]) {
        inUp := true;
      } else if OpensDown(lines[i]) {
        inUp := false;
      } else if inUp {
        assert upLines + ([lines[i]] + UpLines(lines[i + 1..], inUp)) ==
          (upLines + [lines[i]]) + UpLines(lines[i + 1..], inUp);
        upLines := upLines + [lines[i]];
      }
      i := i + 1;
    }
  }
}
