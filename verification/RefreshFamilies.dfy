/**
  Runs of the refresh-token use case with each call in one piece: rotation with replay detection as in
  section 10.4 of RFC 6749.  Any database statement may fail, and expired rows may be swept at any time.
 */
module RefreshFamilies {
  import opened Outcomes
  import opened RefreshTokens

  /** A successful rotation: which token was presented and which was issued for it. */
  datatype Acceptance = Acceptance(family: nat, presented: Digest, issued: Digest)

  /** The table, every token ever created, and every successful rotation, in order. */
  datatype World = World(rows: seq<Token>, created: seq<Token>, accepted: seq<Acceptance>)

  datatype Call =
    | CallGenerate(user: nat, family: nat, draw: Draw, now: int, duration: int, w: Weather)
    | CallRotate(raw: string, draw: Draw, now: int, duration: int, w: Weather)
    | CallLogout(raw: string, now: int, w: Weather)
    | CallLogoutAll(user: nat, now: int, w: Weather)
    | Sweep(now: int)

  const FINE := Weather(true, true, true, true, true)

  function NewWorld(): World {
    World([], [], [])
  }

  function Next(s: World, call: Call): World {
    match call
    case CallGenerate(user, family, draw, now, duration, w) =>
      var (rows, r) := Generate(s.rows, user, family, draw, now, duration, w);
      if r.Ok? then World(rows, s.created + [r.value], s.accepted) else s.(rows := rows)
    case CallRotate(raw, draw, now, duration, w) =>
      var (rows, r) := Rotate(s.rows, raw, draw, now, duration, w);
      if r.Err? then s.(rows := rows)
      else
        var acceptance := Acceptance(r.value.family, Digest(raw), r.value.hash);
        World(rows, s.created + [r.value], s.accepted + [acceptance])
    case CallLogout(raw, now, w) => s.(rows := Logout(s.rows, raw, now, w).0)
    case CallLogoutAll(user, now, w) => s.(rows := LogoutAll(s.rows, user, now, w).0)
    case Sweep(now) => s.(rows := Swept(s.rows, now))
  }

  /** Random ids, raw tokens and family ids were never used before. */
  predicate Fresh(s: World, call: Call) {
    match call
    case CallGenerate(_, family, draw, _, _, _) =>
      NeverUsed(s.created, draw) && forall c :: c in s.created ==> c.family != family
    case CallRotate(_, draw, _, _, _) => NeverUsed(s.created, draw)
    case _ => true
  }

  predicate NeverUsed(created: seq<Token>, draw: Draw) {
    forall c :: c in created ==> c.id != draw.id && c.hash != Digest(draw.raw)
  }

  predicate LegalRun(s: World, run: seq<Call>)
    decreases |run|
  {
    run == [] || (Fresh(s, run[0]) && LegalRun(Next(s, run[0]), run[1..]))
  }

  function Run(s: World, run: seq<Call>): World
    decreases |run|
  {
    if run == [] then s else Run(Next(s, run[0]), run[1..])
  }

  // ----- The invariant -----

  /** The tokens of one family, in the order they were created. */
  function FamilyTokens(created: seq<Token>, f: nat): (tokens: seq<Token>)
    ensures forall c :: c in tokens <==> c in created && c.family == f
  {
    if created == [] then []
    else if created[0].family == f then [created[0]] + FamilyTokens(created[1..], f)
    else FamilyTokens(created[1..], f)
  }

  function FamilyAcceptances(accepted: seq<Acceptance>, f: nat): seq<Acceptance> {
    if accepted == [] then []
    else if accepted[0].family == f then [accepted[0]] + FamilyAcceptances(accepted[1..], f)
    else FamilyAcceptances(accepted[1..], f)
  }

  /** Every row is a token that was created, unchanged but for its revocation, and stored once. */
  ghost predicate RowsOk(rows: seq<Token>, created: seq<Token>) {
    && (forall r :: r in rows ==> r.Unrevoked() in created)
    && Distinct(rows)
  }

  ghost predicate CreatedOk(created: seq<Token>) {
    && Distinct(created)
    && (forall a, b :: a in created && b in created && a.family == b.family ==> a.user == b.user)
  }

  /** An unrevoked row is the last token created in its family. */
  ghost predicate LiveIsLast(s: World) {
    forall r :: r in s.rows && !r.IsRevoked() ==> IsLast(s.created, r)
  }

  predicate IsLast(created: seq<Token>, r: Token) {
    var tokens := FamilyTokens(created, r.family);
    tokens != [] && tokens[|tokens| - 1] == r
  }

  /**
    The k-th acceptance of a family presents its k-th token and issues the next one, and no token is
    created otherwise.
   */
  ghost predicate Chain(s: World, f: nat) {
    var tokens, steps := FamilyTokens(s.created, f), FamilyAcceptances(s.accepted, f);
    && |steps| == (if tokens == [] then 0 else |tokens| - 1)
    && forall k: nat :: k < |steps| ==> steps[k].presented == tokens[k].hash && steps[k].issued == tokens[k + 1].hash
  }

  ghost predicate Sound(s: World) {
    RowsOk(s.rows, s.created) && CreatedOk(s.created) && LiveIsLast(s) && forall f: nat :: Chain(s, f)
  }

  // ----- What the statements keep -----

  lemma RevokedRows(rows: seq<Token>, target: Target, now: int)
    ensures forall r :: r in Revoked(rows, target, now) ==>
      exists o :: o in rows && o.Unrevoked() == r.Unrevoked() && (!r.IsRevoked() ==> o == r && !Hits(target, r))
  {
    var after := Revoked(rows, target, now);
    forall r | r in after
      ensures exists o :: o in rows && o.Unrevoked() == r.Unrevoked() && (!r.IsRevoked() ==> o == r && !Hits(target, r))
    {
      var i: nat :| i < |after| && after[i] == r;
      assert rows[i] in rows;
    }
  }

  lemma RevokeKeeps(s: World, target: Target, now: int)
    requires Sound(s)
    ensures Sound(s.(rows := Revoked(s.rows, target, now)))
  {
    var t := s.(rows := Revoked(s.rows, target, now));
    RevokedRows(s.rows, target, now);
    hide IsLast, FamilyTokens, FamilyAcceptances;
    assert forall i: nat :: i < |t.rows| ==> t.rows[i].Unrevoked() == s.rows[i].Unrevoked();
    forall f: nat ensures Chain(t, f) {
      assert Chain(s, f);
    }
  }

  lemma SweepKeeps(s: World, now: int)
    requires Sound(s)
    ensures Sound(s.(rows := Swept(s.rows, now)))
  {
    SweptStaysDistinct(s.rows, now);
    hide IsLast;
    forall f: nat ensures Chain(s.(rows := Swept(s.rows, now)), f) {
      assert Chain(s, f);
    }
  }

  lemma {:induction false} FamilyTokensGrow(created: seq<Token>, token: Token, f: nat)
    ensures FamilyTokens(created + [token], f) == FamilyTokens(created, f) + if token.family == f then [token] else []
  {
    if created == [] {
      assert created + [token] == [token];
    } else {
      assert (created + [token])[1..] == created[1..] + [token];
      FamilyTokensGrow(created[1..], token, f);
    }
  }

  lemma {:induction false} FamilyAcceptancesGrow(accepted: seq<Acceptance>, a: Acceptance, f: nat)
    ensures FamilyAcceptances(accepted + [a], f) == FamilyAcceptances(accepted, f) + if a.family == f then [a] else []
  {
    if accepted == [] {
      assert accepted + [a] == [a];
    } else {
      assert (accepted + [a])[1..] == accepted[1..] + [a];
      FamilyAcceptancesGrow(accepted[1..], a, f);
    }
  }

  /** An unused token may be stored as a family's last one when the family has no unrevoked row. */
  lemma CreateKeepsRows(s: World, token: Token, accepted: seq<Acceptance>)
    requires RowsOk(s.rows, s.created) && CreatedOk(s.created) && LiveIsLast(s)
    requires forall c :: c in s.created ==>
      c.id != token.id && c.hash != token.hash && (c.family == token.family ==> c.user == token.user)
    requires forall r :: r in s.rows && r.family == token.family ==> r.IsRevoked()
    requires !token.IsRevoked()
    ensures var t := World(s.rows + [token], s.created + [token], accepted);
      RowsOk(t.rows, t.created) && CreatedOk(t.created) && LiveIsLast(t)
  {
    forall r | r in s.rows ensures r.id != token.id && r.hash != token.hash {
      assert r.Unrevoked() in s.created;
    }
    forall r | r in s.rows + [token] && !r.IsRevoked() ensures IsLast(s.created + [token], r) {
      FamilyTokensGrow(s.created, token, r.family);
      assert r in s.rows ==> IsLast(s.created, r);
    }
  }

  lemma GenerateKeeps(s: World, call: Call)
    requires Sound(s) && Fresh(s, call) && call.CallGenerate?
    ensures Sound(Next(s, call))
  {
    var t := Next(s, call);
    if t != s {
      var token := NewToken(call.draw, call.user, call.family, call.now, call.duration);
      forall r | r in s.rows ensures r.family != token.family {
        assert r.Unrevoked() in s.created;
      }
      CreateKeepsRows(s, token, s.accepted);
      hide FamilyTokens, FamilyAcceptances, IsLast;
      forall f: nat ensures Chain(t, f) {
        assert Chain(s, f);
        ChainStarts(s, t, token, f);
      }
    }
  }

  lemma ChainStarts(s: World, t: World, token: Token, f: nat)
    requires Chain(s, f) && forall c :: c in s.created ==> c.family != token.family
    requires t.created == s.created + [token] && t.accepted == s.accepted
    ensures Chain(t, f)
  {
    var tokens := FamilyTokens(s.created, f);
    FamilyTokensGrow(s.created, token, f);
    assert tokens != [] ==> tokens[0] in tokens;
  }

  /** What an accepted rotation found and did. */
  lemma RotateAccepts(s: World, call: Call)
    requires Sound(s) && call.CallRotate? && Rotate(s.rows, call.raw, call.draw, call.now, call.duration, call.w).1.Ok?
    ensures var r := FindByHash(s.rows, Digest(call.raw));
      && r.Some? && !r.value.IsRevoked() && IsLast(s.created, r.value)
      && r.value.hash == Digest(call.raw)
      && var revoked := Revoked(s.rows, ById(r.value.id), call.now);
         var token := NewToken(call.draw, r.value.user, r.value.family, call.now, call.duration);
      && Next(s, call) == World(revoked + [token], s.created + [token],
                                s.accepted + [Acceptance(token.family, Digest(call.raw), token.hash)])
      && forall o :: o in revoked && o.family == r.value.family ==> o.IsRevoked()
  {
  }

  lemma RotateKeeps(s: World, call: Call)
    requires Sound(s) && Fresh(s, call) && call.CallRotate?
    ensures Sound(Next(s, call))
  {
    var (rows, reply) := Rotate(s.rows, call.raw, call.draw, call.now, call.duration, call.w);
    var found := FindByHash(s.rows, Digest(call.raw));
    if reply.Ok? {
      RotateAccepts(s, call);
      var stored := found.value;
      var token := NewToken(call.draw, stored.user, stored.family, call.now, call.duration);
      var mid := s.(rows := Revoked(s.rows, ById(stored.id), call.now));
      var acceptance := Acceptance(token.family, Digest(call.raw), token.hash);
      RevokeKeeps(s, ById(stored.id), call.now);
      hide IsLast, FamilyTokens, FamilyAcceptances, Revoked;
      assert stored.Unrevoked() in s.created;
      CreateKeepsRows(mid, token, s.accepted + [acceptance]);
      forall f: nat ensures Chain(Next(s, call), f) {
        assert Chain(s, f);
        ChainGrows(s, Next(s, call), stored, token, acceptance, f);
      }
    } else if found.Some? {
      RevokeKeeps(s, ByFamily(found.value.family), call.now);
      RevokeKeeps(s, ById(found.value.id), call.now);
      assert s.(rows := s.rows) == s;
    }
  }

  lemma ChainGrows(s: World, t: World, stored: Token, token: Token, a: Acceptance, f: nat)
    requires Chain(s, f) && IsLast(s.created, stored) && token.family == stored.family
    requires a == Acceptance(stored.family, stored.hash, token.hash)
    requires t.created == s.created + [token] && t.accepted == s.accepted + [a]
    ensures Chain(t, f)
  {
    FamilyTokensGrow(s.created, token, f);
    FamilyAcceptancesGrow(s.accepted, a, f);
    hide FamilyTokens, FamilyAcceptances;
    if token.family == f {
      var tokens, steps := FamilyTokens(t.created, f), FamilyAcceptances(t.accepted, f);
      forall k: nat | k < |steps|
        ensures steps[k].presented == tokens[k].hash && steps[k].issued == tokens[k + 1].hash
      {
        if k < |steps| - 1 {
          assert tokens[k + 1] == FamilyTokens(s.created, f)[k + 1];
        }
      }
    }
  }

  lemma StepKeeps(s: World, call: Call)
    requires Sound(s) && Fresh(s, call)
    ensures Sound(Next(s, call))
  {
    assert s.(rows := s.rows) == s;
    match call
    case CallGenerate(_, _, _, _, _, _) => GenerateKeeps(s, call);
    case CallRotate(_, _, _, _, _) => RotateKeeps(s, call);
    case CallLogout(raw, now, w) =>
      var found := FindByHash(s.rows, Digest(raw));
      if found.Some? {
        RevokeKeeps(s, ById(found.value.id), now);
      }
    case CallLogoutAll(user, now, w) => RevokeKeeps(s, ByUser(user), now);
    case Sweep(now) => SweepKeeps(s, now);
  }

  lemma {:induction false} RunKeeps(s: World, run: seq<Call>)
    requires Sound(s) && LegalRun(s, run)
    ensures Sound(Run(s, run))
    decreases |run|
  {
    if run != [] {
      StepKeeps(s, run[0]);
      RunKeeps(Next(s, run[0]), run[1..]);
    }
  }

  /**
    Every reachable table has at most one unrevoked token per family, it is the last one created in the
    family, and the family's successful rotations form one chain: the k-th presents the k-th token ever
    created in the family and issues the next.
   */
  lemma EveryRunRotatesInChains(run: seq<Call>)
    requires LegalRun(NewWorld(), run)
    ensures var s := Run(NewWorld(), run);
      && (forall i: nat, j: nat :: i < j < |s.rows| && s.rows[i].family == s.rows[j].family ==>
          s.rows[i].IsRevoked() || s.rows[j].IsRevoked())
      && LiveIsLast(s)
      && (forall f: nat :: Chain(s, f))
  {
    RunKeeps(NewWorld(), run);
    var s := Run(NewWorld(), run);
    forall i: nat, j: nat | i < j < |s.rows| && s.rows[i].family == s.rows[j].family
      ensures s.rows[i].IsRevoked() || s.rows[j].IsRevoked()
    {
      assert s.rows[i].hash != s.rows[j].hash;
      assert !s.rows[i].IsRevoked() ==> IsLast(s.created, s.rows[i]);
      assert !s.rows[j].IsRevoked() ==> IsLast(s.created, s.rows[j]);
    }
  }

  // ----- What an accepted token was like -----

  /** A stored token that may be rotated at this time. */
  predicate Good(rows: seq<Token>, stored: Token, raw: string, now: int) {
    stored in rows && stored.hash == Digest(raw) && stored.revokedAt.None? && now <= stored.expiresAt
  }

  lemma {:induction false} RunUpTo(s: World, run: seq<Call>, k: nat)
    requires LegalRun(s, run) && k < |run|
    ensures LegalRun(s, run[..k]) && Fresh(Run(s, run[..k]), run[k])
    ensures Run(s, run[..k + 1]) == Next(Run(s, run[..k]), run[k])
    decreases |run|
  {
    if k == 0 {
      assert run[..1][1..] == [] && run[..1][0] == run[0];
    } else {
      RunUpTo(Next(s, run[0]), run[1..], k - 1);
      assert run[..k][1..] == run[1..][..k - 1] && run[..k + 1][1..] == run[1..][..k];
    }
  }

  /**
    In every run, each call that adds an acceptance is a rotation that presented a stored, unrevoked and
    unexpired token; it revoked that token and issued one for the same user and family, good until the
    duration is over.
   */
  lemma EveryAcceptanceWasGood(run: seq<Call>, k: nat)
    requires LegalRun(NewWorld(), run) && k < |run|
    ensures var s, t, call := Run(NewWorld(), run[..k]), Run(NewWorld(), run[..k + 1]), run[k];
      t.accepted != s.accepted ==>
        call.CallRotate? && exists stored, token ::
          && Good(s.rows, stored, call.raw, call.now)
          && MadeNow(token, stored.user, stored.family, call.draw, call.now, call.duration)
          && t.created == s.created + [token] && token in t.rows
          && t.accepted == s.accepted + [Acceptance(stored.family, Digest(call.raw), token.hash)]
          && forall r :: r in t.rows && r.id == stored.id ==> r.revokedAt == Some(call.now)
  {
    var s, call := Run(NewWorld(), run[..k]), run[k];
    RunUpTo(NewWorld(), run, k);
    RunKeeps(NewWorld(), run[..k]);
    hide LegalRun, Run;
    if Next(s, call).accepted != s.accepted {
      AcceptanceWasGood(s, call);
    }
  }

  lemma AcceptanceWasGood(s: World, call: Call)
    requires Sound(s) && Fresh(s, call) && Next(s, call).accepted != s.accepted
    ensures call.CallRotate?
    ensures exists stored, token ::
      && Good(s.rows, stored, call.raw, call.now)
      && MadeNow(token, stored.user, stored.family, call.draw, call.now, call.duration)
      && Next(s, call).created == s.created + [token] && token in Next(s, call).rows
      && Next(s, call).accepted == s.accepted + [Acceptance(stored.family, Digest(call.raw), token.hash)]
      && forall r :: r in Next(s, call).rows && r.id == stored.id ==> r.revokedAt == Some(call.now)
  {
    var stored := FindByHash(s.rows, Digest(call.raw)).value;
    RotateValid(s.rows, call.raw, call.draw, call.now, call.duration, call.w, stored);
    var token := Rotate(s.rows, call.raw, call.draw, call.now, call.duration, call.w).1.value;
    assert Good(s.rows, stored, call.raw, call.now);
    assert token.id != stored.id by { assert stored.Unrevoked() in s.created; }
    hide Sound, Good, MadeNow;
    OnlyOneRow(s.rows, Next(s, call).rows, token, stored, call.now);
  }

  lemma OnlyOneRow(rows: seq<Token>, after: seq<Token>, token: Token, stored: Token, now: int)
    requires Distinct(rows) && stored in rows && stored.revokedAt.None? && token.id != stored.id
    requires after == Revoked(rows, ById(stored.id), now) + [token]
    ensures forall r :: r in after && r.id == stored.id ==> r.revokedAt == Some(now)
  {
    forall r | r in after && r.id == stored.id ensures r.revokedAt == Some(now) {
      var i: nat :| i < |after| && after[i] == r;
      var j: nat :| j < |rows| && rows[j] == stored;
      assert rows[i].id == stored.id;
    }
  }

  /** A sweep takes exactly the rows that expired, or were revoked more than seven days ago; nothing else happens. */
  lemma SweepTakes(s: World, now: int)
    ensures var t := Next(s, Sweep(now));
      && t.created == s.created && t.accepted == s.accepted
      && forall r :: (r in t.rows <==>
           r in s.rows && r.expiresAt >= now && (r.revokedAt.None? || r.revokedAt.value >= now - 604_800_000_000))
  {
  }

  // ----- Death of a family -----

  /** The family was started and none of its rows is unrevoked. */
  ghost predicate Dead(s: World, f: nat) {
    FamilyTokens(s.created, f) != [] && forall r :: r in s.rows && r.family == f ==> r.IsRevoked()
  }

  /** Presenting a stored revoked token kills its family. */
  lemma ReplayKills(s: World, call: Call)
    requires Sound(s) && call.CallRotate? && call.w.lookup && call.w.write
    requires var found := FindByHash(s.rows, Digest(call.raw)); found.Some? && found.value.IsRevoked()
    ensures var f := FindByHash(s.rows, Digest(call.raw)).value.family;
      Dead(Next(s, call), f) && Next(s, call).accepted == s.accepted
  {
    var stored := FindByHash(s.rows, Digest(call.raw)).value;
    RevokedRows(s.rows, ByFamily(stored.family), call.now);
    assert stored.Unrevoked() in s.created;
    assert stored.Unrevoked() in FamilyTokens(s.created, stored.family);
  }

  /**
    A logout kills the family exactly when no other token of the family is unrevoked: an old token's
    logout does not.
   */
  lemma LogoutKillsExactly(s: World, call: Call)
    requires Sound(s) && call.CallLogout? && call.w.lookup && call.w.write
    requires FindByHash(s.rows, Digest(call.raw)).Some?
    ensures var stored := FindByHash(s.rows, Digest(call.raw)).value;
      Dead(Next(s, call), stored.family) <==>
      (forall r :: r in s.rows && r.family == stored.family && r.hash != Digest(call.raw) ==> r.IsRevoked())
  {
    var stored := FindByHash(s.rows, Digest(call.raw)).value;
    var after := Revoked(s.rows, ById(stored.id), call.now);
    RevokedRows(s.rows, ById(stored.id), call.now);
    assert stored.Unrevoked() in s.created;
    assert stored.Unrevoked() in FamilyTokens(s.created, stored.family);
    if r :| r in s.rows && r.family == stored.family && r.hash != Digest(call.raw) && !r.IsRevoked() {
      var i: nat :| i < |s.rows| && s.rows[i] == r;
      var j: nat :| j < |s.rows| && s.rows[j] == stored;
      assert s.rows[i].id != s.rows[j].id;
      assert after[i] == r && after[i] in after;
    } else {
      forall o | o in after && o.family == stored.family ensures o.IsRevoked() {
        assert !o.IsRevoked() ==> o in s.rows && o.id != stored.id;
      }
    }
  }

  /** A run from the start: sign in, rotate, log out with the old token, and the new one is still good. */
  lemma OldTokenLogoutIsReachable() returns (run: seq<Call>)
    ensures LegalRun(NewWorld(), run) && |run| == 3 && run[2] == CallLogout("a", 2, FINE)
    ensures Logout(Run(NewWorld(), run[..2]).rows, "a", 2, FINE).1.Ok?
    ensures exists r :: r in Run(NewWorld(), run).rows && !r.IsRevoked()
  {
    var signIn := CallGenerate(7, 5, Draw("a", 1, "", ""), 0, 100, FINE);
    var rotate := CallRotate("a", Draw("b", 2, "", ""), 1, 100, FINE);
    var s1 := SignedIn();
    var s2 := Rotated(s1);
    OneCall(NewWorld(), signIn);
    run := CallFurther(NewWorld(), [signIn], rotate);
    assert run[..2] == run;
    run := CallFurther(NewWorld(), run, CallLogout("a", 2, FINE));
    assert run[..2] == [signIn, rotate];
    assert FindByHash(s2.rows, Digest("a")) == Some(s2.rows[0]);
    var last := Run(NewWorld(), run).rows;
    assert last == Revoked(s2.rows, ById(1), 2);
    assert last[1] == s2.rows[1] && last[1] in last;
  }

  lemma OneCall(s: World, call: Call)
    requires Fresh(s, call)
    ensures LegalRun(s, [call]) && Run(s, [call]) == Next(s, call)
  {
    assert [call][1..] == [];
  }

  lemma {:induction false} CallFurther(s: World, run: seq<Call>, call: Call) returns (longer: seq<Call>)
    requires LegalRun(s, run) && Fresh(Run(s, run), call)
    ensures longer == run + [call] && LegalRun(s, longer) && Run(s, longer) == Next(Run(s, run), call)
    decreases |run|
  {
    longer := run + [call];
    if run == [] {
      OneCall(s, call);
      assert longer == [call];
    } else {
      var rest := CallFurther(Next(s, run[0]), run[1..], call);
      assert longer[1..] == rest;
    }
  }

  function FirstToken(): Token {
    NewToken(Draw("a", 1, "", ""), 7, 5, 0, 100)
  }

  lemma SignedIn() returns (s: World)
    ensures s == Next(NewWorld(), CallGenerate(7, 5, Draw("a", 1, "", ""), 0, 100, FINE))
    ensures s == World([FirstToken()], [FirstToken()], [])
    ensures Fresh(NewWorld(), CallGenerate(7, 5, Draw("a", 1, "", ""), 0, 100, FINE))
  {
    s := Next(NewWorld(), CallGenerate(7, 5, Draw("a", 1, "", ""), 0, 100, FINE));
  }

  lemma Rotated(s: World) returns (t: World)
    requires s == World([FirstToken()], [FirstToken()], [])
    ensures Fresh(s, CallRotate("a", Draw("b", 2, "", ""), 1, 100, FINE))
    ensures t == Next(s, CallRotate("a", Draw("b", 2, "", ""), 1, 100, FINE))
    ensures t.rows == [s.rows[0].(revokedAt := Some(1)), NewToken(Draw("b", 2, "", ""), 7, 5, 1, 100)]
  {
    t := Next(s, CallRotate("a", Draw("b", 2, "", ""), 1, 100, FINE));
    assert FindByHash(s.rows, Digest("a")) == Some(s.rows[0]);
    assert Revoked(s.rows, ById(1), 1) == [s.rows[0].(revokedAt := Some(1))];
  }

  /** A logout everywhere kills every family the user ever started. */
  lemma LogoutAllKills(s: World, call: Call, f: nat)
    requires Sound(s) && call.CallLogoutAll? && call.w.write
    requires exists c :: c in s.created && c.family == f && c.user == call.user
    ensures Dead(Next(s, call), f)
  {
  }

  /** In a dead family nothing is accepted or created, and it stays dead. */
  lemma StepKeepsDead(s: World, call: Call, f: nat)
    requires Sound(s) && Fresh(s, call) && Dead(s, f)
    ensures Dead(Next(s, call), f)
    ensures FamilyAcceptances(Next(s, call).accepted, f) == FamilyAcceptances(s.accepted, f)
    ensures FamilyTokens(Next(s, call).created, f) == FamilyTokens(s.created, f)
  {
    match call
    case CallGenerate(user, family, draw, now, duration, w) =>
      var token := NewToken(draw, user, family, now, duration);
      FamilyTokensGrow(s.created, token, f);
      assert FamilyTokens(s.created, f)[0] in FamilyTokens(s.created, f);
    case CallRotate(raw, draw, now, duration, w) =>
      var found := FindByHash(s.rows, Digest(raw));
      if found.Some? {
        var stored := found.value;
        var token := NewToken(draw, stored.user, stored.family, now, duration);
        RevokedRows(s.rows, ById(stored.id), now);
        RevokedRows(s.rows, ByFamily(stored.family), now);
        FamilyTokensGrow(s.created, token, f);
        FamilyAcceptancesGrow(s.accepted, Acceptance(stored.family, Digest(raw), token.hash), f);
      }
    case CallLogout(raw, now, w) =>
      var found := FindByHash(s.rows, Digest(raw));
      if found.Some? {
        RevokedRows(s.rows, ById(found.value.id), now);
      }
    case CallLogoutAll(user, now, w) => RevokedRows(s.rows, ByUser(user), now);
    case Sweep(now) =>
  }

  /** Death is permanent: no later run, with sweeps anywhere, makes a rotation in the family succeed. */
  lemma {:induction false} DeathIsPermanent(s: World, run: seq<Call>, f: nat)
    requires Sound(s) && LegalRun(s, run) && Dead(s, f)
    ensures Dead(Run(s, run), f)
    ensures FamilyAcceptances(Run(s, run).accepted, f) == FamilyAcceptances(s.accepted, f)
    decreases |run|
  {
    if run != [] {
      StepKeeps(s, run[0]);
      StepKeepsDead(s, run[0], f);
      DeathIsPermanent(Next(s, run[0]), run[1..], f);
    }
  }
}
