/**
  The refresh-token use case with every repository statement one step: many calls run at once, any of
  them may stop anywhere, and their statements come in any order.
 */
module RefreshInterleaving {
  import opened Outcomes
  import opened RefreshTokens
  import opened RefreshFamilies

  /** How far a call has come. */
  datatype Frame =
    | Rotating(raw: string)      // about to look its token up
    | Condemning(family: nat)    // the token was revoked: the family is next
    | Holding(stored: Token)     // the token passed both checks: its revocation is next
    | Issuing(stored: Token)     // the token is revoked: the insert is next
    | LoggingOut(raw: string)
    | Leaving(id: nat)
    | Finished

  datatype State = State(rows: seq<Token>, created: seq<Token>, calls: map<nat, Frame>)

  datatype Step =
    | Begin(pid: nat, frame: Frame)
    | Look(pid: nat, now: int, up: bool)
    | Write(pid: nat, now: int, up: bool)
    | Issue(pid: nat, draw: Draw, now: int, duration: int, w: Weather)
    | Stop(pid: nat)
    | GenerateToken(user: nat, family: nat, draw: Draw, now: int, duration: int, w: Weather)
    | LogoutUser(user: nat, now: int, up: bool)
    | SweepExpired(now: int)

  function NewState(): State {
    State([], [], map[])
  }

  predicate Enabled(s: State, step: Step) {
    match step
    case Begin(pid, frame) => pid !in s.calls && (frame.Rotating? || frame.LoggingOut?)
    case Look(pid, _, _) => pid in s.calls && (s.calls[pid].Rotating? || s.calls[pid].LoggingOut?)
    case Write(pid, _, _) =>
      pid in s.calls && (s.calls[pid].Condemning? || s.calls[pid].Holding? || s.calls[pid].Leaving?)
    case Issue(pid, draw, _, _, _) => pid in s.calls && s.calls[pid].Issuing? && NeverUsed(s.created, draw)
    case Stop(pid) => pid in s.calls
    case GenerateToken(_, family, draw, _, _, _) =>
      NeverUsed(s.created, draw) && forall c :: c in s.created ==> c.family != family
    case LogoutUser(_, _, _) => true
    case SweepExpired(_) => true
  }

  /** Where a lookup leads: Rotate's checks on what it found, at once. */
  function AfterLook(rows: seq<Token>, frame: Frame, now: int, up: bool): Frame
    requires frame.Rotating? || frame.LoggingOut?
  {
    var found := FindByHash(rows, Digest(frame.raw));
    if !up || found.None? then Finished
    else if frame.LoggingOut? then Leaving(found.value.id)
    else if found.value.IsRevoked() then Condemning(found.value.family)
    else if found.value.IsExpired(now) then Finished
    else Holding(found.value)
  }

  function TargetOf(frame: Frame): Target
    requires frame.Condemning? || frame.Holding? || frame.Leaving?
  {
    match frame
    case Condemning(family) => ByFamily(family)
    case Holding(stored) => ById(stored.id)
    case Leaving(id) => ById(id)
  }

  function Next(s: State, step: Step): State
    requires Enabled(s, step)
  {
    match step
    case Begin(pid, frame) => s.(calls := s.calls[pid := frame])
    case Look(pid, now, up) => s.(calls := s.calls[pid := AfterLook(s.rows, s.calls[pid], now, up)])
    case Write(pid, now, up) =>
      var frame := s.calls[pid];
      s.(rows := if up then Revoked(s.rows, TargetOf(frame), now) else s.rows,
         calls := s.calls[pid := if up && frame.Holding? then Issuing(frame.stored) else Finished])
    case Issue(pid, draw, now, duration, w) =>
      var stored := s.calls[pid].stored;
      var (rows, r) := Reissue(s.rows, stored, draw, now, duration, w);
      State(rows, if r.Ok? then s.created + [r.value] else s.created, s.calls[pid := Finished])
    case Stop(pid) => s.(calls := s.calls[pid := Finished])
    case GenerateToken(user, family, draw, now, duration, w) =>
      var (rows, r) := Generate(s.rows, user, family, draw, now, duration, w);
      s.(rows := rows, created := if r.Ok? then s.created + [r.value] else s.created)
    case LogoutUser(user, now, up) => s.(rows := if up then Revoked(s.rows, ByUser(user), now) else s.rows)
    case SweepExpired(now) => s.(rows := Swept(s.rows, now))
  }

  predicate LegalRun(s: State, run: seq<Step>)
    decreases |run|
  {
    run == [] || (Enabled(s, run[0]) && LegalRun(Next(s, run[0]), run[1..]))
  }

  function Run(s: State, run: seq<Step>): State
    requires LegalRun(s, run)
    decreases |run|
  {
    if run == [] then s else Run(Next(s, run[0]), run[1..])
  }

  // ----- What survives any interleaving -----

  ghost predicate Base(s: State) {
    && RowsOk(s.rows, s.created) && CreatedOk(s.created)
    && forall pid :: pid in s.calls && (s.calls[pid].Holding? || s.calls[pid].Issuing?) ==>
      s.calls[pid].stored in s.created
  }

  lemma RevokedRowsOk(rows: seq<Token>, created: seq<Token>, target: Target, now: int)
    requires RowsOk(rows, created)
    ensures RowsOk(Revoked(rows, target, now), created)
  {
    var after := Revoked(rows, target, now);
    RevokedRows(rows, target, now);
    assert forall i: nat :: i < |after| ==> after[i].Unrevoked() == rows[i].Unrevoked();
  }

  lemma InsertedRowsOk(rows: seq<Token>, created: seq<Token>, token: Token)
    requires RowsOk(rows, created) && CreatedOk(created) && !token.IsRevoked()
    requires forall c :: c in created ==>
      c.id != token.id && c.hash != token.hash && (c.family == token.family ==> c.user == token.user)
    ensures RowsOk(rows + [token], created + [token]) && CreatedOk(created + [token])
  {
    forall r | r in rows ensures r.id != token.id && r.hash != token.hash {
      assert r.Unrevoked() in created;
    }
  }

  lemma StepKeepsBase(s: State, step: Step)
    requires Base(s) && Enabled(s, step)
    ensures Base(Next(s, step))
  {
    hide RowsOk, CreatedOk;
    match step
    case Begin(_, _) =>
    case Look(pid, now, up) =>
      HeldWasCreated(s, s.calls[pid], now, up);
    case Write(pid, now, up) => RevokedRowsOk(s.rows, s.created, TargetOf(s.calls[pid]), now);
    case Issue(pid, draw, now, duration, w) =>
      var stored := s.calls[pid].stored;
      OneUser(s.created, stored);
      if Next(s, step).created != s.created {
        InsertedRowsOk(s.rows, s.created, NewToken(draw, stored.user, stored.family, now, duration));
      }
    case Stop(_) =>
    case GenerateToken(user, family, draw, now, duration, w) =>
      InsertedRowsOk(s.rows, s.created, NewToken(draw, user, family, now, duration));
    case LogoutUser(user, now, up) => RevokedRowsOk(s.rows, s.created, ByUser(user), now);
    case SweepExpired(now) => SweptRowsOk(s.rows, s.created, now);
  }

  lemma OneUser(created: seq<Token>, stored: Token)
    requires CreatedOk(created) && stored in created
    ensures forall c :: c in created && c.family == stored.family ==> c.user == stored.user
  {
  }

  lemma SweptRowsOk(rows: seq<Token>, created: seq<Token>, now: int)
    requires RowsOk(rows, created)
    ensures RowsOk(Swept(rows, now), created)
  {
    SweptStaysDistinct(rows, now);
  }

  lemma HeldWasCreated(s: State, frame: Frame, now: int, up: bool)
    requires Base(s) && (frame.Rotating? || frame.LoggingOut?)
    ensures var after := AfterLook(s.rows, frame, now, up);
      && !after.Issuing?
      && (after.Holding? ==> after.stored in s.created && after.stored in s.rows && !after.stored.IsRevoked())
  {
  }

  /** Rows with one id, before and after: the same row, or the same but for a first revocation. */
  ghost predicate Kept(before: seq<Token>, after: seq<Token>) {
    forall x, y :: x in before && y in after && x.id == y.id ==> SameOrRevoked(x, y)
  }

  predicate SameOrRevoked(x: Token, y: Token) {
    y == x || (!x.IsRevoked() && y.IsRevoked() && y.Unrevoked() == x)
  }

  lemma RevokedKeepsRows(rows: seq<Token>, target: Target, now: int)
    requires Distinct(rows)
    ensures Kept(rows, Revoked(rows, target, now)) && Kept(rows, rows)
  {
  }

  lemma SameRows(rows: seq<Token>)
    requires Distinct(rows)
    ensures Kept(rows, rows)
  {
  }

  lemma InsertedKeepsRows(rows: seq<Token>, created: seq<Token>, token: Token)
    requires RowsOk(rows, created) && forall c :: c in created ==> c.id != token.id
    ensures Kept(rows, rows + [token])
  {
  }

  lemma StepKeepsRows(s: State, step: Step)
    requires Base(s) && Enabled(s, step)
    ensures Kept(s.rows, Next(s, step).rows)
  {
    hide Kept, SameOrRevoked;
    SameRows(s.rows);
    match step
    case Begin(_, _) =>
    case Look(_, _, _) =>
    case Write(pid, now, up) => RevokedKeepsRows(s.rows, TargetOf(s.calls[pid]), now);
    case Issue(pid, draw, now, duration, w) =>
      var stored := s.calls[pid].stored;
      InsertedKeepsRows(s.rows, s.created, NewToken(draw, stored.user, stored.family, now, duration));
    case Stop(_) =>
    case GenerateToken(user, family, draw, now, duration, w) =>
      InsertedKeepsRows(s.rows, s.created, NewToken(draw, user, family, now, duration));
    case LogoutUser(user, now, up) => RevokedKeepsRows(s.rows, ByUser(user), now);
    case SweepExpired(now) => FewerRowsKept(s.rows, Swept(s.rows, now));
  }

  lemma FewerRowsKept(rows: seq<Token>, fewer: seq<Token>)
    requires Kept(rows, rows) && forall r :: r in fewer ==> r in rows
    ensures Kept(rows, fewer)
  {
  }

  /** An id once used and no longer stored does not come back. */
  ghost predicate Gone(s: State, id: nat) {
    (exists c :: c in s.created && c.id == id) && forall r :: r in s.rows ==> r.id != id
  }

  lemma GoneStaysGone(s: State, step: Step, id: nat)
    requires Base(s) && Enabled(s, step) && Gone(s, id)
    ensures Gone(Next(s, step), id)
  {
  }

  lemma {:induction false} RunKeepsGone(s: State, run: seq<Step>, id: nat)
    requires Base(s) && LegalRun(s, run) && Gone(s, id)
    ensures Gone(Run(s, run), id)
    decreases |run|
  {
    if run != [] {
      StepKeepsBase(s, run[0]);
      GoneStaysGone(s, run[0], id);
      RunKeepsGone(Next(s, run[0]), run[1..], id);
    }
  }

  /**
    From any state on: a stored row's revoked_at is set at most once and never changed or cleared, nor is
    anything else in it.
   */
  lemma {:induction false} RunKeepsRows(s: State, run: seq<Step>)
    requires Base(s) && LegalRun(s, run)
    ensures Base(Run(s, run)) && Kept(s.rows, Run(s, run).rows)
    decreases |run|
  {
    hide Base;
    if run == [] {
      RowsKeptNow(s);
    } else {
      var next := Next(s, run[0]);
      StepKeepsBase(s, run[0]);
      StepKeepsRows(s, run[0]);
      RunKeepsRows(next, run[1..]);
      forall x, y | x in s.rows && y in Run(s, run).rows && x.id == y.id ensures SameOrRevoked(x, y) {
        if z :| z in next.rows && z.id == x.id {
          assert SameOrRevoked(x, z) && SameOrRevoked(z, y);
        } else {
          RowIsGone(s, run[0], x);
          RunKeepsGone(next, run[1..], x.id);
          assert false;
        }
      }
    }
  }

  lemma RowsKeptNow(s: State)
    requires Base(s)
    ensures Kept(s.rows, s.rows)
  {
  }

  lemma RowIsGone(s: State, step: Step, x: Token)
    requires Base(s) && Enabled(s, step) && x in s.rows
    requires forall z :: z in Next(s, step).rows ==> z.id != x.id
    ensures Gone(Next(s, step), x.id)
  {
  }

  /**
    Over every interleaved run: digests and ids stay unique, and all tokens ever created in one family
    have one user.
   */
  lemma EveryInterleavingIsOrderly(run: seq<Step>)
    requires LegalRun(NewState(), run)
    ensures var s := Run(NewState(), run);
      && Distinct(s.rows) && Distinct(s.created)
      && (forall r :: r in s.rows ==> r.Unrevoked() in s.created)
      && (forall a, b :: a in s.created && b in s.created && a.family == b.family ==> a.user == b.user)
  {
    RunKeepsRows(NewState(), run);
  }

  /** A sweep takes exactly the rows that expired, or were revoked more than seven days ago. */
  lemma SweepTakes(s: State, now: int)
    ensures var t := Next(s, SweepExpired(now));
      && t.created == s.created && t.calls == s.calls
      && forall r :: (r in t.rows <==>
           r in s.rows && r.expiresAt >= now && (r.revokedAt.None? || r.revokedAt.value >= now - 604_800_000_000))
  {
  }

  /** A call that stops has done what it did, and does nothing more. */
  lemma StoppedForGood(s: State, pid: nat, step: Step)
    requires pid in s.calls
    ensures var t := Next(s, Stop(pid));
      && t.rows == s.rows && t.created == s.created
      && (step.Look? || step.Write? || step.Issue? || step.Begin? ==> Enabled(t, step) ==> step.pid != pid)
  {
  }

  // ----- What an issued token was issued for -----

  lemma {:induction false} RunUpTo(s: State, run: seq<Step>, k: nat)
    requires LegalRun(s, run) && k < |run|
    ensures LegalRun(s, run[..k]) && Enabled(Run(s, run[..k]), run[k])
    ensures LegalRun(s, run[..k + 1]) && Run(s, run[..k + 1]) == Next(Run(s, run[..k]), run[k])
    decreases |run|
  {
    if k == 0 {
      assert run[..1][1..] == [] && run[..1][0] == run[0];
    } else {
      RunUpTo(Next(s, run[0]), run[1..], k - 1);
      assert run[..k][1..] == run[1..][..k - 1] && run[..k + 1][1..] == run[1..][..k];
    }
  }

  /** At step j of a run the process looked the token up: stored, unrevoked and unexpired at that time. */
  ghost predicate ReadAt(run: seq<Step>, j: nat, pid: nat, stored: Token)
    requires LegalRun(NewState(), run) && j < |run|
  {
    LegalRun(NewState(), run[..j]) &&
    var s := Run(NewState(), run[..j]);
    && run[j].Look? && run[j].pid == pid && run[j].up
    && pid in s.calls && s.calls[pid].Rotating? && Good(s.rows, stored, s.calls[pid].raw, run[j].now)
  }

  /** A process that holds a token, or is about to issue one for it, has read it at some step before. */
  lemma {:induction false} HeldWasRead(run: seq<Step>, k: nat, pid: nat)
    requires LegalRun(NewState(), run) && k <= |run| && LegalRun(NewState(), run[..k])
    ensures var calls := Run(NewState(), run[..k]).calls;
      pid in calls && (calls[pid].Holding? || calls[pid].Issuing?) ==>
        exists j: nat :: j < k && ReadAt(run, j, pid, calls[pid].stored)
    decreases k
  {
    if k > 0 {
      RunUpTo(NewState(), run, k - 1);
      HeldWasRead(run, k - 1, pid);
      var s, step := Run(NewState(), run[..k - 1]), run[k - 1];
      hide Run, LegalRun;
      if step.Look? && step.pid == pid {
        assert AfterLook(s.rows, s.calls[pid], step.now, step.up).Holding? ==>
          ReadAt(run, k - 1, pid, AfterLook(s.rows, s.calls[pid], step.now, step.up).stored);
      }
    }
  }

  /**
    In every interleaved run each token issued by a rotation goes back to a lookup of the same process that
    found a stored, unrevoked and unexpired token of the same user and family; it is good until the duration
    is over, counted from the insert.
   */
  lemma EveryIssueWasGood(run: seq<Step>, k: nat)
    requires LegalRun(NewState(), run) && k < |run| && run[k].Issue?
    requires LegalRun(NewState(), run[..k]) && LegalRun(NewState(), run[..k + 1])
    ensures var s, t, step := Run(NewState(), run[..k]), Run(NewState(), run[..k + 1]), run[k];
      t.created != s.created ==>
        exists j: nat, stored, token ::
          && j < k && ReadAt(run, j, step.pid, stored)
          && MadeNow(token, stored.user, stored.family, step.draw, step.now, step.duration)
          && t.created == s.created + [token] && t.rows == s.rows + [token]
  {
    var s, step := Run(NewState(), run[..k]), run[k];
    RunUpTo(NewState(), run, k);
    HeldWasRead(run, k, step.pid);
    hide Run, LegalRun, ReadAt;
    var stored := s.calls[step.pid].stored;
    var token := NewToken(step.draw, stored.user, stored.family, step.now, step.duration);
    var j: nat :| j < k && ReadAt(run, j, step.pid, stored);
    assert MadeNow(token, stored.user, stored.family, step.draw, step.now, step.duration);
  }

  // ----- At most one unrevoked token: when it survives -----

  /** A rotation that has read an unrevoked token of the family and has not finished. */
  predicate Busy(s: State, pid: nat, f: nat) {
    pid in s.calls && (s.calls[pid].Holding? || s.calls[pid].Issuing?) && s.calls[pid].stored.family == f
  }

  predicate LiveIn(r: Token, rows: seq<Token>) {
    r in rows && !r.IsRevoked()
  }

  ghost predicate TwoLive(rows: seq<Token>) {
    exists a, b :: LiveIn(a, rows) && LiveIn(b, rows) && a != b && a.family == b.family
  }

  /** One rotation at a time in each family, and nothing unrevoked beside the token it holds. */
  ghost predicate Tidy(s: State) {
    && !TwoLive(s.rows)
    && (forall p, q, f :: Busy(s, p, f) && Busy(s, q, f) ==> p == q)
    && (forall p, r :: LiveIn(r, s.rows) && Busy(s, p, r.family) ==>
        s.calls[p].Holding? && s.calls[p].stored.id == r.id)
  }

  /** A rotation that passes the checks finds no other one under way in the family. */
  predicate Separate(s: State, step: Step)
    requires Enabled(s, step)
  {
    step.Look? ==>
      var after := AfterLook(s.rows, s.calls[step.pid], step.now, step.up);
      after.Holding? ==> forall p :: p in s.calls ==> !Busy(s, p, after.stored.family)
  }

  lemma LookKeepsTidy(s: State, step: Step)
    requires Base(s) && Tidy(s) && Enabled(s, step) && Separate(s, step) && step.Look?
    ensures Tidy(Next(s, step))
  {
    var t := Next(s, step);
    HeldWasCreated(s, s.calls[step.pid], step.now, step.up);
    forall p, f | Busy(t, p, f) && p != step.pid ensures Busy(s, p, f) {
    }
    forall p, r | LiveIn(r, t.rows) && Busy(t, p, r.family)
      ensures t.calls[p].Holding? && t.calls[p].stored.id == r.id
    {
      if p == step.pid {
        assert LiveIn(t.calls[p].stored, s.rows);
      } else {
        assert Busy(s, p, r.family);
      }
    }
  }

  lemma WriteKeepsTidy(s: State, step: Step)
    requires Base(s) && Tidy(s) && Enabled(s, step) && step.Write?
    ensures Tidy(Next(s, step))
  {
    var t, frame := Next(s, step), s.calls[step.pid];
    RevokedRows(s.rows, TargetOf(frame), step.now);
    forall r | LiveIn(r, t.rows) ensures LiveIn(r, s.rows) && (step.up ==> !Hits(TargetOf(frame), r)) {
    }
    forall p, f | Busy(t, p, f) ensures Busy(s, p, f) {
    }
  }

  lemma IssueKeepsTidy(s: State, step: Step)
    requires Base(s) && Tidy(s) && Enabled(s, step) && step.Issue?
    ensures Tidy(Next(s, step))
  {
    var t, stored := Next(s, step), s.calls[step.pid].stored;
    assert Busy(s, step.pid, stored.family);
    forall p, f | Busy(t, p, f) ensures Busy(s, p, f) && p != step.pid {
    }
    forall r | LiveIn(r, t.rows) ensures LiveIn(r, s.rows) || r.family == stored.family {
    }
    forall a, b | LiveIn(a, t.rows) && LiveIn(b, t.rows) && a.family == b.family ensures a == b {
      assert LiveIn(a, s.rows) ==> a.family != stored.family;
      assert LiveIn(b, s.rows) ==> b.family != stored.family;
    }
  }

  lemma FreshFamilyKeepsTidy(s: State, step: Step)
    requires Base(s) && Tidy(s) && Enabled(s, step) && step.GenerateToken?
    ensures Tidy(Next(s, step))
  {
    var t := Next(s, step);
    forall p, f | Busy(t, p, f) ensures Busy(s, p, f) && f != step.family {
      assert s.calls[p].stored in s.created;
    }
    forall r | r in s.rows ensures r.family != step.family {
      assert r.Unrevoked() in s.created;
    }
    forall a, b | LiveIn(a, t.rows) && LiveIn(b, t.rows) && a.family == b.family ensures a == b {
      assert a.family != step.family ==> LiveIn(a, s.rows) && LiveIn(b, s.rows);
    }
  }

  /** Fewer unrevoked rows and fewer busy calls. */
  lemma LessKeepsTidy(s: State, t: State)
    requires Tidy(s)
    requires forall r :: LiveIn(r, t.rows) ==> LiveIn(r, s.rows)
    requires forall p, f :: Busy(t, p, f) ==> Busy(s, p, f) && t.calls[p] == s.calls[p]
    ensures Tidy(t)
  {
  }

  lemma StepKeepsTidy(s: State, step: Step)
    requires Base(s) && Tidy(s) && Enabled(s, step) && Separate(s, step)
    ensures Tidy(Next(s, step))
  {
    hide Tidy, Base;
    match step
    case Begin(_, _) => LessKeepsTidy(s, Next(s, step));
    case Look(_, _, _) => LookKeepsTidy(s, step);
    case Write(_, _, _) => WriteKeepsTidy(s, step);
    case Issue(_, _, _, _, _) => IssueKeepsTidy(s, step);
    case Stop(_) => LessKeepsTidy(s, Next(s, step));
    case GenerateToken(_, _, _, _, _, _) => FreshFamilyKeepsTidy(s, step);
    case LogoutUser(user, now, up) =>
      RevokedRows(s.rows, ByUser(user), now);
      LessKeepsTidy(s, Next(s, step));
    case SweepExpired(now) => LessKeepsTidy(s, Next(s, step));
  }

  predicate SeparateRun(s: State, run: seq<Step>)
    requires LegalRun(s, run)
    decreases |run|
  {
    run == [] || (Separate(s, run[0]) && SeparateRun(Next(s, run[0]), run[1..]))
  }

  lemma {:induction false} RunKeepsTidy(s: State, run: seq<Step>)
    requires Base(s) && Tidy(s) && LegalRun(s, run) && SeparateRun(s, run)
    ensures Tidy(Run(s, run))
    decreases |run|
  {
    hide Tidy, Base;
    if run != [] {
      StepKeepsBase(s, run[0]);
      StepKeepsTidy(s, run[0]);
      RunKeepsTidy(Next(s, run[0]), run[1..]);
    }
  }

  /** If rotations of one family do not overlap, it never has two unrevoked tokens, whatever else interleaves. */
  lemma SeparateRotationsLeaveOneLive(run: seq<Step>)
    requires LegalRun(NewState(), run) && SeparateRun(NewState(), run)
    ensures !TwoLive(Run(NewState(), run).rows)
  {
    RunKeepsTidy(NewState(), run);
  }

  predicate NoLook(run: seq<Step>) {
    forall step :: step in run ==> !step.Look?
  }

  lemma {:induction false} NoLookIsSeparate(s: State, run: seq<Step>)
    requires LegalRun(s, run) && NoLook(run)
    ensures SeparateRun(s, run)
    decreases |run|
  {
    if run != [] {
      assert run[0] in run;
      NoLookIsSeparate(Next(s, run[0]), run[1..]);
    }
  }

  lemma {:induction false} RunFurther(s: State, run: seq<Step>, more: seq<Step>)
    requires LegalRun(s, run) && LegalRun(Run(s, run), more)
    ensures LegalRun(s, run + more) && Run(s, run + more) == Run(Run(s, run), more)
    decreases |run|
  {
    if run == [] {
      assert run + more == more;
    } else {
      RunFurther(Next(s, run[0]), run[1..], more);
      assert (run + more)[1..] == run[1..] + more;
    }
  }

  lemma OneStep(s: State, step: Step)
    requires Enabled(s, step)
    ensures LegalRun(s, [step]) && Run(s, [step]) == Next(s, step)
  {
  }

  /** A busy call can go on to the point where only its insert is left. */
  lemma ReachInsert(s: State, p: nat, f: nat) returns (run: seq<Step>)
    requires Busy(s, p, f)
    ensures LegalRun(s, run) && NoLook(run)
    ensures var t := Run(s, run);
      t.created == s.created && t.calls == s.calls[p := Issuing(s.calls[p].stored)]
  {
    if s.calls[p].Holding? {
      run := [Write(p, 0, true)];
      OneStep(s, run[0]);
    } else {
      run := [];
    }
  }

  /** Two rotations under way in one family can both finish, and leave it two unrevoked tokens. */
  lemma OverlapSplits(s: State, p: nat, q: nat, f: nat, first: Draw, second: Draw) returns (run: seq<Step>)
    requires Base(s) && Busy(s, p, f) && Busy(s, q, f) && p != q
    requires NeverUsed(s.created, first) && NeverUsed(s.created, second)
    requires first.id != second.id && first.raw != second.raw
    ensures LegalRun(s, run) && NoLook(run) && TwoLive(Run(s, run).rows)
  {
    var run1 := ReachInsert(s, p, f);
    var s1 := Run(s, run1);
    var run2 := ReachInsert(s1, q, f);
    RunFurther(s, run1, run2);
    var s2 := Run(s, run1 + run2);
    RunKeepsRows(s, run1 + run2);
    var run3 := BothInsert(s2, p, q, f, first, second);
    RunFurther(s, run1 + run2, run3);
    run := run1 + run2 + run3;
  }

  lemma BothInsert(s: State, p: nat, q: nat, f: nat, first: Draw, second: Draw) returns (run: seq<Step>)
    requires Base(s) && Busy(s, p, f) && Busy(s, q, f) && p != q && s.calls[p].Issuing? && s.calls[q].Issuing?
    requires NeverUsed(s.created, first) && NeverUsed(s.created, second)
    requires first.id != second.id && first.raw != second.raw
    ensures LegalRun(s, run) && NoLook(run) && TwoLive(Run(s, run).rows)
  {
    var one, two := Issue(p, first, 0, 0, FINE), Issue(q, second, 0, 0, FINE);
    var a := NewToken(first, s.calls[p].stored.user, f, 0, 0);
    var b := NewToken(second, s.calls[q].stored.user, f, 0, 0);
    UnusedIsInsertable(s, a);
    UnusedIsInsertable(s, b);
    var t := Next(s, one);
    assert t.rows == s.rows + [a] && t.created == s.created + [a];
    var u := Next(t, two);
    assert u.rows == s.rows + [a] + [b];
    assert LiveIn(a, u.rows) && LiveIn(b, u.rows) && a.id != b.id;
    OneStep(s, one);
    OneStep(t, two);
    RunFurther(s, [one], [two]);
    run := [one] + [two];
  }

  lemma UnusedIsInsertable(s: State, token: Token)
    requires Base(s) && forall c :: c in s.created ==> c.id != token.id && c.hash != token.hash
    ensures Insertable(s.rows, token)
  {
  }

  /**
    From an orderly state, a lookup makes a double token possible, without any further lookup, exactly
    when it passes the checks while another rotation of the family is under way: Rotate never looks at
    how many rows its revocation changed.
   */
  lemma OverlapExactly(s: State, look: Step, first: Draw, second: Draw)
    requires Base(s) && Tidy(s) && Enabled(s, look) && look.Look?
    requires NeverUsed(s.created, first) && NeverUsed(s.created, second)
    requires first.id != second.id && first.raw != second.raw
    ensures (exists run :: LegalRun(Next(s, look), run) && NoLook(run) && TwoLive(Run(Next(s, look), run).rows))
      <==> !Separate(s, look)
  {
    var t := Next(s, look);
    StepKeepsBase(s, look);
    if Separate(s, look) {
      StepKeepsTidy(s, look);
      forall run | LegalRun(t, run) && NoLook(run) ensures !TwoLive(Run(t, run).rows) {
        NoLookIsSeparate(t, run);
        RunKeepsTidy(t, run);
      }
    } else {
      var f := AfterLook(s.rows, s.calls[look.pid], look.now, look.up).stored.family;
      var p :| p in s.calls && Busy(s, p, f);
      var run := OverlapSplits(t, p, look.pid, f, first, second);
    }
  }

  /**
    A run from the start that ends with two: one sign-in, then two rotations that both look the token up
    before either revokes it.
   */
  lemma TwoLiveIsReachable() returns (run: seq<Step>)
    ensures LegalRun(NewState(), run) && TwoLive(Run(NewState(), run).rows)
  {
    var signIn := GenerateToken(7, 5, Draw("a", 1, "", ""), 0, 100, FINE);
    var s1 := Next(NewState(), signIn);
    assert s1.rows == [NewToken(Draw("a", 1, "", ""), 7, 5, 0, 100)];
    OneStep(NewState(), signIn);
    run := [signIn];
    run := StepFurther(NewState(), run, Begin(0, Rotating("a")));
    run := StepFurther(NewState(), run, Begin(1, Rotating("a")));
    run := StepFurther(NewState(), run, Look(0, 1, true));
    run := StepFurther(NewState(), run, Look(1, 1, true));
    RunKeepsRows(NewState(), run);
    var rest := OverlapSplits(Run(NewState(), run), 0, 1, 5, Draw("b", 2, "", ""), Draw("c", 3, "", ""));
    RunFurther(NewState(), run, rest);
    run := run + rest;
  }

  // ----- Family death: when it survives -----

  /** The family was started and none of its rows is unrevoked. */
  ghost predicate DeadIn(s: State, f: nat) {
    && (exists c :: c in s.created && c.family == f)
    && forall r :: LiveIn(r, s.rows) ==> r.family != f
  }

  ghost predicate Idle(s: State, f: nat) {
    forall p :: !Busy(s, p, f)
  }

  lemma StepKeepsIdleDead(s: State, step: Step, f: nat)
    requires Base(s) && Enabled(s, step) && DeadIn(s, f) && Idle(s, f)
    ensures DeadIn(Next(s, step), f) && Idle(Next(s, step), f)
  {
    hide RowsOk, CreatedOk;
    var t := Next(s, step);
    var c :| c in s.created && c.family == f;
    assert c in t.created;
    match step
    case Look(pid, now, up) =>
      HeldWasCreated(s, s.calls[pid], now, up);
      forall p ensures !Busy(t, p, f) {
        assert !Busy(s, p, f);
        assert p == pid && t.calls[p].Holding? ==> LiveIn(t.calls[p].stored, s.rows);
      }
    case Write(pid, now, up) =>
      RevokedRows(s.rows, TargetOf(s.calls[pid]), now);
      forall p ensures !Busy(t, p, f) {
        assert !Busy(s, p, f);
      }
    case Issue(pid, _, _, _, _) =>
      assert !Busy(s, pid, f);
      assert forall p :: Busy(t, p, f) ==> Busy(s, p, f);
    case LogoutUser(user, now, up) =>
      RevokedRows(s.rows, ByUser(user), now);
      assert forall p :: Busy(t, p, f) ==> Busy(s, p, f);
    case _ =>
      assert forall p :: Busy(t, p, f) ==> Busy(s, p, f);
  }

  lemma {:induction false} RunKeepsIdleDead(s: State, run: seq<Step>, f: nat)
    requires Base(s) && LegalRun(s, run) && DeadIn(s, f) && Idle(s, f)
    ensures DeadIn(Run(s, run), f)
    decreases |run|
  {
    hide Base, DeadIn, Idle;
    if run != [] {
      StepKeepsBase(s, run[0]);
      StepKeepsIdleDead(s, run[0], f);
      RunKeepsIdleDead(Next(s, run[0]), run[1..], f);
    }
  }

  /** A rotation that passed its checks can still issue an unrevoked token of the family. */
  lemma BusyRevives(s: State, p: nat, f: nat, draw: Draw) returns (run: seq<Step>)
    requires Base(s) && Busy(s, p, f) && NeverUsed(s.created, draw)
    ensures LegalRun(s, run) && NoLook(run)
    ensures exists r :: LiveIn(r, Run(s, run).rows) && r.family == f
  {
    run := ReachInsert(s, p, f);
    RunKeepsRows(s, run);
    var t, insert := Run(s, run), Issue(p, draw, 0, 0, FINE);
    var token := NewToken(draw, t.calls[p].stored.user, f, 0, 0);
    UnusedIsInsertable(t, token);
    assert LiveIn(token, Next(t, insert).rows);
    OneStep(t, insert);
    RunFurther(s, run, [insert]);
    run := run + [insert];
  }

  /** Under interleaving a dead family stays dead over every run exactly when no rotation of it is under way. */
  lemma FamilyDeathExactly(s: State, f: nat, draw: Draw)
    requires Base(s) && DeadIn(s, f) && NeverUsed(s.created, draw)
    ensures (forall run :: LegalRun(s, run) ==> DeadIn(Run(s, run), f)) <==> Idle(s, f)
  {
    if Idle(s, f) {
      forall run | LegalRun(s, run) ensures DeadIn(Run(s, run), f) {
        RunKeepsIdleDead(s, run, f);
      }
    } else {
      var p :| Busy(s, p, f);
      var run := BusyRevives(s, p, f, draw);
    }
  }

  /** A statement that revokes all unrevoked rows of a started family: for its user, or after a replay. */
  ghost predicate Kills(s: State, step: Step, f: nat)
    requires Enabled(s, step)
  {
    match step
    case LogoutUser(user, _, up) => up && exists c :: c in s.created && c.family == f && c.user == user
    case Write(pid, _, up) => up && s.calls[pid] == Condemning(f) && exists c :: c in s.created && c.family == f
    case _ => false
  }

  lemma KillsFamily(s: State, step: Step, f: nat)
    requires Base(s) && Enabled(s, step) && Kills(s, step, f)
    ensures DeadIn(Next(s, step), f) && Next(s, step).created == s.created
    ensures Idle(Next(s, step), f) <==> Idle(s, f)
  {
    var t := Next(s, step);
    RevokedRows(s.rows, if step.LogoutUser? then ByUser(step.user) else ByFamily(f), step.now);
    if step.LogoutUser? {
      var c :| c in s.created && c.family == f && c.user == step.user;
      forall r | LiveIn(r, t.rows) && r.family == f ensures r.user == step.user {
        assert r.Unrevoked() in s.created;
      }
    }
    assert forall p :: Busy(t, p, f) <==> Busy(s, p, f);
  }

  /**
    A logout everywhere, or the revocation after a replay, lasts exactly when no rotation of the family is
    under way.
   */
  lemma RevocationLastsExactly(s: State, step: Step, f: nat, draw: Draw)
    requires Base(s) && Enabled(s, step) && Kills(s, step, f) && NeverUsed(s.created, draw)
    ensures DeadIn(Next(s, step), f)
    ensures (forall run :: LegalRun(Next(s, step), run) ==> DeadIn(Run(Next(s, step), run), f)) <==> Idle(s, f)
  {
    StepKeepsBase(s, step);
    KillsFamily(s, step, f);
    FamilyDeathExactly(Next(s, step), f, draw);
  }

  /** The shortest way: a rotation about to insert issues an unrevoked token after all the user's rows were revoked. */
  lemma RevocationIsOutrun(s: State, p: nat, draw: Draw, user: nat, now: int)
    requires Base(s) && p in s.calls && s.calls[p].Issuing? && s.calls[p].stored.user == user
    requires NeverUsed(s.created, draw)
    ensures var out := Next(s, LogoutUser(user, now, true));
      var t := Next(out, Issue(p, draw, now, 0, FINE));
      && (forall r :: r in out.rows && r.user == user ==> r.IsRevoked())
      && LiveIn(NewToken(draw, user, s.calls[p].stored.family, now, 0), t.rows)
  {
    var out := Next(s, LogoutUser(user, now, true));
    RevokedRows(s.rows, ByUser(user), now);
    StepKeepsBase(s, LogoutUser(user, now, true));
    UnusedIsInsertable(out, NewToken(draw, user, s.calls[p].stored.family, now, 0));
  }

  /** A run from the start: one sign-in, a rotation up to its insert, a logout everywhere, and then the insert. */
  lemma OutrunIsReachable() returns (run: seq<Step>)
    ensures LegalRun(NewState(), run) && |run| > 1 && run[|run| - 2] == LogoutUser(7, 3, true)
    ensures exists r :: LiveIn(r, Run(NewState(), run).rows) && r.user == 7
  {
    var first := Draw("a", 1, "", "");
    var signIn := GenerateToken(7, 5, first, 0, 100, FINE);
    var s1 := Next(NewState(), signIn);
    assert s1.rows == [NewToken(first, 7, 5, 0, 100)] && s1.created == s1.rows;
    run := [signIn];
    OneStep(NewState(), signIn);
    run := StepFurther(NewState(), run, Begin(0, Rotating("a")));
    run := StepFurther(NewState(), run, Look(0, 1, true));
    run := StepFurther(NewState(), run, Write(0, 2, true));
    var s := Run(NewState(), run);
    assert s.calls[0] == Issuing(s1.rows[0]);
    RunKeepsRows(NewState(), run);
    RevocationIsOutrun(s, 0, Draw("b", 2, "", ""), 7, 3);
    run := StepFurther(NewState(), run, LogoutUser(7, 3, true));
    run := StepFurther(NewState(), run, Issue(0, Draw("b", 2, "", ""), 3, 0, FINE));
  }

  lemma StepFurther(s: State, run: seq<Step>, step: Step) returns (longer: seq<Step>)
    requires LegalRun(s, run) && Enabled(Run(s, run), step)
    ensures longer == run + [step] && LegalRun(s, longer) && Run(s, longer) == Next(Run(s, run), step)
  {
    longer := run + [step];
    OneStep(Run(s, run), step);
    RunFurther(s, run, [step]);
  }

  // ----- A call that runs alone -----

  /** The statements of one rotation, run without a break, do exactly what the call in one piece does. */
  lemma RotateAlone(s: State, pid: nat, raw: string, draw: Draw, now: int, duration: int, w: Weather)
    returns (run: seq<Step>)
    requires pid !in s.calls && NeverUsed(s.created, draw)
    ensures LegalRun(s, run) && Run(s, run).rows == Rotate(s.rows, raw, draw, now, duration, w).0
    ensures pid in Run(s, run).calls && Run(s, run).calls[pid].Finished?
  {
    OneStep(s, Begin(pid, Rotating(raw)));
    run := [Begin(pid, Rotating(raw))];
    run := StepFurther(s, run, Look(pid, now, w.lookup));
    var looked := Run(s, run).calls[pid];
    if looked.Condemning? || looked.Holding? {
      run := StepFurther(s, run, Write(pid, now, w.write));
      if Run(s, run).calls[pid].Issuing? {
        run := StepFurther(s, run, Issue(pid, draw, now, duration, w));
      }
    }
  }
}
