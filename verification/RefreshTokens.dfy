/**
  The refresh-token table and the use case on it (internal/application/iam/usecase/refresh_token_usecase.go,
  internal/infrastructure/postgres/iam/refresh_token_repository.go, internal/domain/iam/model/refresh_token.go).
  Instants are microseconds.  A digest stands for the SHA-256 of a raw token; different tokens have
  different digests.
 */
module RefreshTokens {
  import opened Ordering
  import opened Outcomes

  datatype Digest = Digest(raw: string)

  datatype Token = Token(
    id: nat, user: nat, hash: Digest, family: nat, expiresAt: int, revokedAt: Option<int>, createdAt: int,
    ip: string, agent: string)
  {
    predicate IsRevoked() { revokedAt.Some? }

    predicate IsExpired(now: int) { now > expiresAt }

    /** The token as it was created. */
    function Unrevoked(): Token { this.(revokedAt := None) }
  }

  const SEVEN_DAYS := 7 * 24 * 3600 * 1000000

  // ----- One statement each -----

  /** Which rows an UPDATE names. */
  datatype Target = ById(id: nat) | ByUser(user: nat) | ByFamily(family: nat)

  predicate Hits(target: Target, token: Token) {
    match target
    case ById(id) => token.id == id
    case ByUser(user) => token.user == user
    case ByFamily(family) => token.family == family
  }

  /** SET revoked_at = now WHERE the row is named AND revoked_at IS NULL. */
  function Revoked(rows: seq<Token>, target: Target, now: int): (after: seq<Token>)
    ensures |after| == |rows|
  {
    seq(|rows|, i requires 0 <= i < |rows| =>
      if Hits(target, rows[i]) && !rows[i].IsRevoked() then rows[i].(revokedAt := Some(now)) else rows[i])
  }

  function FindByHash(rows: seq<Token>, hash: Digest): (found: Option<Token>)
    ensures found.Some? ==> found.value in rows && found.value.hash == hash
    ensures found.None? ==> forall r :: r in rows ==> r.hash != hash
  {
    if rows == [] then None else if rows[0].hash == hash then Some(rows[0]) else FindByHash(rows[1..], hash)
  }

  /** The primary key and the unique digest let the row in, or nothing changes. */
  predicate Insertable(rows: seq<Token>, token: Token) {
    forall r :: r in rows ==> r.id != token.id && r.hash != token.hash
  }

  predicate Outlived(token: Token, now: int) {
    token.expiresAt < now || (token.revokedAt.Some? && token.revokedAt.value < now - SEVEN_DAYS)
  }

  /** DELETE of the expired rows and of those revoked over a week ago. */
  function Swept(rows: seq<Token>, now: int): (kept: seq<Token>)
    ensures forall r :: r in kept <==> r in rows && !Outlived(r, now)
  {
    if rows == [] then []
    else if Outlived(rows[0], now) then Swept(rows[1..], now)
    else [rows[0]] + Swept(rows[1..], now)
  }

  predicate IsActive(token: Token, user: nat, now: int) {
    token.user == user && !token.IsRevoked() && token.expiresAt > now
  }

  function Active(rows: seq<Token>, user: nat, now: int): (active: seq<Token>)
    ensures forall r :: r in active <==> r in rows && IsActive(r, user, now)
  {
    if rows == [] then []
    else if IsActive(rows[0], user, now) then [rows[0]] + Active(rows[1..], user, now)
    else Active(rows[1..], user, now)
  }

  predicate CreatedAfter(a: Token, b: Token) {
    a.createdAt > b.createdAt
  }

  /** SELECT of the user's active tokens, newest first. */
  function ActiveNewestFirst(rows: seq<Token>, user: nat, now: int): seq<Token> {
    Sorted(Active(rows, user, now), CreatedAfter)
  }

  // ----- What the statements mean -----

  /** The primary key and the unique digest. */
  ghost predicate Distinct(tokens: seq<Token>) {
    forall i: nat, j: nat :: i < j < |tokens| ==> tokens[i].hash != tokens[j].hash && tokens[i].id != tokens[j].id
  }

  lemma {:induction false} SweptStaysDistinct(rows: seq<Token>, now: int)
    requires Distinct(rows)
    ensures Distinct(Swept(rows, now))
  {
    if rows != [] {
      SweptStaysDistinct(rows[1..], now);
      var kept, rest := Swept(rows, now), Swept(rows[1..], now);
      forall j: nat | j < |rest| ensures rest[j].hash != rows[0].hash && rest[j].id != rows[0].id {
        assert rest[j] in rest;
        var k: nat :| k < |rows[1..]| && rows[1..][k] == rest[j];
        assert rows[k + 1] == rest[j];
      }
      assert kept == rest || kept == [rows[0]] + rest;
    }
  }

  /** A digest is on one row at most, so a lookup is determined by the row it returns. */
  lemma FoundIs(rows: seq<Token>, hash: Digest, found: Option<Token>)
    requires Distinct(rows)
    requires found.Some? ==> found.value in rows && found.value.hash == hash
    requires found.None? ==> forall r :: r in rows ==> r.hash != hash
    ensures found == FindByHash(rows, hash)
  {
    var other := FindByHash(rows, hash);
    if found.Some? && other.Some? {
      var i: nat :| i < |rows| && rows[i] == found.value;
      var j: nat :| j < |rows| && rows[j] == other.value;
      assert i == j;
    }
  }

  /** What an UPDATE does to one row: revoked now if it is named and was not, else as it was. */
  predicate RevokedRow(before: Token, after: Token, target: Target, now: int) {
    var named :=
      match target
      case ById(id) => before.id == id
      case ByUser(user) => before.user == user
      case ByFamily(family) => before.family == family;
    after == if named && before.revokedAt.None? then before.(revokedAt := Some(now)) else before
  }

  // ----- The use case, each call in one piece -----

  /** What a new token is made of. */
  datatype Draw = Draw(raw: string, id: nat, ip: string, agent: string)

  /** Which of a call's steps work: the lookup, the revoking update, the user lookup, making tokens, the insert. */
  datatype Weather = Weather(lookup: bool, write: bool, user: bool, tokens: bool, create: bool)

  datatype RefreshError = InvalidToken | TokenRevoked | TokenExpired | UserNotFound | Internal

  function NewToken(draw: Draw, user: nat, family: nat, now: int, duration: int): Token {
    Token(draw.id, user, Digest(draw.raw), family, now + duration, None, now, draw.ip, draw.agent)
  }

  function Generate(rows: seq<Token>, user: nat, family: nat, draw: Draw, now: int, duration: int, w: Weather)
    : (seq<Token>, Result<Token, RefreshError>)
  {
    var token := NewToken(draw, user, family, now, duration);
    if w.tokens && w.create && Insertable(rows, token) then (rows + [token], Ok(token)) else (rows, Err(Internal))
  }

  function Rotate(rows: seq<Token>, raw: string, draw: Draw, now: int, duration: int, w: Weather)
    : (seq<Token>, Result<Token, RefreshError>)
  {
    var found := FindByHash(rows, Digest(raw));
    if !w.lookup || found.None? then (rows, Err(InvalidToken))
    else if found.value.IsRevoked() then
      (if w.write then Revoked(rows, ByFamily(found.value.family), now) else rows, Err(TokenRevoked))
    else if found.value.IsExpired(now) then (rows, Err(TokenExpired))
    else if !w.write then (rows, Err(Internal))
    else Reissue(Revoked(rows, ById(found.value.id), now), found.value, draw, now, duration, w)
  }

  /** The second half of a rotation, once the presented token is revoked. */
  function Reissue(rows: seq<Token>, stored: Token, draw: Draw, now: int, duration: int, w: Weather)
    : (seq<Token>, Result<Token, RefreshError>)
  {
    var token := NewToken(draw, stored.user, stored.family, now, duration);
    if !w.user then (rows, Err(UserNotFound))
    else if !w.tokens || !w.create || !Insertable(rows, token) then (rows, Err(Internal))
    else (rows + [token], Ok(token))
  }

  /** A failed lookup counts as already logged out. */
  function Logout(rows: seq<Token>, raw: string, now: int, w: Weather): (seq<Token>, Result<(), RefreshError>) {
    var found := FindByHash(rows, Digest(raw));
    if !w.lookup || found.None? then (rows, Ok(()))
    else if w.write then (Revoked(rows, ById(found.value.id), now), Ok(()))
    else (rows, Err(Internal))
  }

  function LogoutAll(rows: seq<Token>, user: nat, now: int, w: Weather): (seq<Token>, Result<(), RefreshError>) {
    if w.write then (Revoked(rows, ByUser(user), now), Ok(())) else (rows, Err(Internal))
  }

  // ----- The calls in plain comparisons -----

  /** The rows a test names are revoked now unless they were revoked before; every other row is as it was. */
  ghost predicate NewlyRevoked(rows: seq<Token>, after: seq<Token>, now: int, named: Token -> bool) {
    && |after| == |rows|
    && forall i: nat :: i < |rows| ==>
      after[i] == if named(rows[i]) && rows[i].revokedAt.None? then rows[i].(revokedAt := Some(now)) else rows[i]
  }

  /** A new token of a user and family, made now. */
  predicate MadeNow(token: Token, user: nat, family: nat, draw: Draw, now: int, duration: int) {
    && token.id == draw.id && token.hash == Digest(draw.raw) && token.user == user && token.family == family
    && token.createdAt == now && token.expiresAt == now + duration && token.revokedAt.None?
    && token.ip == draw.ip && token.agent == draw.agent
  }

  predicate Unused(rows: seq<Token>, draw: Draw) {
    forall r :: r in rows ==> r.id != draw.id && r.hash != Digest(draw.raw)
  }

  lemma GenerateMakes(rows: seq<Token>, user: nat, family: nat, draw: Draw, now: int, duration: int, w: Weather)
    ensures var (after, r) := Generate(rows, user, family, draw, now, duration, w);
      if w.tokens && w.create && Unused(rows, draw)
      then r.Ok? && MadeNow(r.value, user, family, draw, now, duration) && after == rows + [r.value]
      else r == Err(Internal) && after == rows
  {
  }

  /** A text that no row has, or a lookup that fails: refused, and nothing changes. */
  lemma RotateUnknown(rows: seq<Token>, raw: string, draw: Draw, now: int, duration: int, w: Weather)
    requires !w.lookup || forall r :: r in rows ==> r.hash != Digest(raw)
    ensures Rotate(rows, raw, draw, now, duration, w) == (rows, Err(InvalidToken))
  {
  }

  /** A revoked token is refused, and revokes what is left of its family and of no other. */
  lemma RotateRevoked(rows: seq<Token>, raw: string, draw: Draw, now: int, duration: int, w: Weather, stored: Token)
    requires Distinct(rows) && stored in rows && stored.hash == Digest(raw) && w.lookup
    requires stored.revokedAt.Some?
    ensures var (after, r) := Rotate(rows, raw, draw, now, duration, w);
      && r == Err(TokenRevoked)
      && NewlyRevoked(rows, after, now, (t: Token) => w.write && t.family == stored.family)
  {
    FoundIs(rows, Digest(raw), Some(stored));
  }

  /** An expired token is refused, and no row changes. */
  lemma RotateExpired(rows: seq<Token>, raw: string, draw: Draw, now: int, duration: int, w: Weather, stored: Token)
    requires Distinct(rows) && stored in rows && stored.hash == Digest(raw) && w.lookup
    requires stored.revokedAt.None? && now > stored.expiresAt
    ensures Rotate(rows, raw, draw, now, duration, w) == (rows, Err(TokenExpired))
  {
    FoundIs(rows, Digest(raw), Some(stored));
  }

  /**
    An unrevoked, unexpired token: exactly its row is revoked once the update works; the new token is stored
    behind the others when everything else works too, and otherwise the call is an error.
   */
  lemma RotateValid(rows: seq<Token>, raw: string, draw: Draw, now: int, duration: int, w: Weather, stored: Token)
    requires Distinct(rows) && stored in rows && stored.hash == Digest(raw) && w.lookup
    requires stored.revokedAt.None? && now <= stored.expiresAt
    ensures var (after, r) := Rotate(rows, raw, draw, now, duration, w);
      var revoked := if r.Ok? then after[..|rows|] else after;
      && (r.Ok? <==> w.write && w.user && w.tokens && w.create && Unused(rows, draw))
      && (r.Ok? ==> |after| == |rows| + 1 && after == revoked + [r.value]
                    && MadeNow(r.value, stored.user, stored.family, draw, now, duration))
      && NewlyRevoked(rows, revoked, now, (t: Token) => w.write && t.id == stored.id)
      && (r.Err? ==> r.error == if w.write && !w.user then UserNotFound else Internal)
  {
    FoundIs(rows, Digest(raw), Some(stored));
    var revoked := Revoked(rows, ById(stored.id), now);
    assert forall i: nat :: i < |rows| ==> revoked[i].id == rows[i].id && revoked[i].hash == rows[i].hash;
    assert Unused(revoked, draw) <==> Unused(rows, draw) by {
      assert forall i: nat :: i < |rows| ==> rows[i] in rows && revoked[i] in revoked;
    }
    assert (revoked + [NewToken(draw, stored.user, stored.family, now, duration)])[..|rows|] == revoked;
  }

  /** A logout revokes the presented token and no other. */
  lemma LogoutRevokes(rows: seq<Token>, raw: string, now: int, w: Weather)
    requires Distinct(rows)
    ensures var (after, r) := Logout(rows, raw, now, w);
      && NewlyRevoked(rows, after, now, (t: Token) => w.lookup && w.write && t.hash == Digest(raw))
      && (r.Err? <==> w.lookup && !w.write && exists t :: t in rows && t.hash == Digest(raw))
  {
    var found := FindByHash(rows, Digest(raw));
    if found.Some? {
      forall i: nat | i < |rows| ensures rows[i].id == found.value.id <==> rows[i].hash == Digest(raw) {
        var j: nat :| j < |rows| && rows[j] == found.value;
      }
    }
  }

  /** A logout everywhere revokes the user's tokens and nobody else's. */
  lemma LogoutAllRevokes(rows: seq<Token>, user: nat, now: int, w: Weather)
    ensures var (after, r) := LogoutAll(rows, user, now, w);
      NewlyRevoked(rows, after, now, (t: Token) => w.write && t.user == user) && (r.Ok? <==> w.write)
  {
  }

  // ----- The repository -----

  class RefreshTokenRepo {
    var rows: seq<Token>

    ghost predicate Valid()
      reads this
    {
      Distinct(rows)
    }

    constructor ()
      ensures rows == [] && Valid()
    {
      rows := [];
    }

    /** The row is added unless its id or digest is taken. */
    method Create(token: Token, up: bool) returns (ok: bool)
      requires Valid()
      modifies this`rows
      ensures ok <==> up && forall r :: r in old(rows) ==> r.id != token.id && r.hash != token.hash
      ensures rows == if ok then old(rows) + [token] else old(rows)
      ensures Valid()
    {
      ok := up && Insertable(rows, token);
      if ok {
        rows := rows + [token];
      }
    }

    /** The stored token of the digest; none when no row has it, or the database does not answer. */
    method GetByTokenHash(hash: Digest, up: bool) returns (found: Option<Token>)
      requires Valid()
      ensures found.Some? ==> up && found.value in rows && found.value.hash == hash
      ensures found.None? && up ==> forall r :: r in rows ==> r.hash != hash
    {
      found := if up then FindByHash(rows, hash) else None;
    }

    /** Revoke, RevokeAllByUserID and RevokeFamily differ in the rows they name; a revocation is never overwritten. */
    method Update(target: Target, now: int, up: bool) returns (ok: bool)
      requires Valid()
      modifies this`rows
      ensures ok == up && |rows| == |old(rows)|
      ensures forall i: nat :: i < |rows| ==>
        if up then RevokedRow(old(rows)[i], rows[i], target, now) else rows[i] == old(rows)[i]
      ensures Valid()
    {
      ok := up;
      if up {
        rows := Revoked(rows, target, now);
      }
    }

    /**
      Active tokens of the user, newest first.  The rows arrive one by one; a read that breaks off ends the
      list without an error.
     */
    method ListActiveByUserID(user: nat, now: int, up: bool, arriving: nat) returns (tokens: Option<seq<Token>>)
      requires Valid()
      ensures tokens.Some? == up
      ensures up ==> NewestActive(rows, tokens.value, user, now)
      ensures up ==> forall t :: t in tokens.value ==> t.user == user && t.revokedAt.None? && t.expiresAt > now
      ensures up ==> |tokens.value| <= arriving
      ensures up && |tokens.value| < arriving ==>
        forall r :: r in rows && r.user == user && r.revokedAt.None? && r.expiresAt > now ==> r in tokens.value
    {
      if !up {
        return None;
      }
      ActiveListed(rows, user, now, arriving);
      tokens := Some(FirstOf(ActiveNewestFirst(rows, user, now), arriving));
    }

    method DeleteExpired(now: int, up: bool) returns (deleted: Option<nat>)
      requires Valid()
      modifies this`rows
      ensures rows == if up then Swept(old(rows), now) else old(rows)
      ensures forall r :: (r in rows <==>
        && r in old(rows)
        && (up ==> r.expiresAt >= now && (r.revokedAt.Some? ==> r.revokedAt.value >= now - 604_800_000_000)))
      ensures deleted == if up then Some(|old(rows)| - |rows|) else None
      ensures Valid()
    {
      if !up {
        return None;
      }
      SweptShrinks(rows, now);
      SweptStaysDistinct(rows, now);
      var kept := Swept(rows, now);
      deleted := Some(|rows| - |kept|);
      rows := kept;
    }
  }

  /**
    Active tokens of the user, none more often than stored, none before a newer one, and none left out
    that is newer.
   */
  ghost predicate NewestActive(rows: seq<Token>, listed: seq<Token>, user: nat, now: int) {
    && (forall r :: r in listed ==> IsActive(r, user, now))
    && multiset(listed) <= multiset(rows)
    && (forall i: nat, j: nat :: i < j < |listed| ==> listed[i].createdAt >= listed[j].createdAt)
    && (forall l, r :: l in listed && r in rows && IsActive(r, user, now) && r !in listed ==>
        l.createdAt >= r.createdAt)
  }

  lemma {:induction false} ActiveWithin(rows: seq<Token>, user: nat, now: int)
    ensures multiset(Active(rows, user, now)) <= multiset(rows)
  {
    if rows != [] {
      ActiveWithin(rows[1..], user, now);
      assert rows == [rows[0]] + rows[1..];
    }
  }

  lemma AllListed(rows: seq<Token>, user: nat, now: int)
    ensures var all := ActiveNewestFirst(rows, user, now);
      && NewestActive(rows, all, user, now)
      && (forall r :: r in rows && IsActive(r, user, now) ==> r in all)
  {
    var active, all := Active(rows, user, now), ActiveNewestFirst(rows, user, now);
    ListingIsActiveTokens(rows, user, now);
    ActiveWithin(rows, user, now);
    forall r ensures r in all <==> r in active {
      assert r in multiset(all) <==> r in multiset(active);
    }
    hide ActiveNewestFirst;
    assert forall i: nat, j: nat :: i < j < |all| ==> !CreatedAfter(all[j], all[i]);
  }

  lemma ActiveListed(rows: seq<Token>, user: nat, now: int, arriving: nat)
    ensures var listed := FirstOf(ActiveNewestFirst(rows, user, now), arriving);
      && NewestActive(rows, listed, user, now)
      && |listed| <= arriving
      && (|listed| < arriving ==> forall r :: r in rows && IsActive(r, user, now) ==> r in listed)
  {
    hide ActiveNewestFirst;
    var all := ActiveNewestFirst(rows, user, now);
    AllListed(rows, user, now);
    var listed := FirstOf(all, arriving);
    var rest := all[|listed|..];
    assert all == listed + rest;
    forall l, r | l in listed && r in rest ensures l.createdAt >= r.createdAt {
      var i: nat :| i < |listed| && listed[i] == l;
      var j: nat :| j < |rest| && rest[j] == r;
      assert all[i] == l && all[|listed| + j] == r;
    }
  }

  function FirstOf<T>(rows: seq<T>, n: nat): seq<T> {
    if n <= |rows| then rows[..n] else rows
  }

  lemma {:induction false} SweptShrinks(rows: seq<Token>, now: int)
    ensures |Swept(rows, now)| <= |rows|
  {
    if rows != [] {
      SweptShrinks(rows[1..], now);
    }
  }

  // ----- The use case as it runs -----

  datatype SessionInfo = SessionInfo(id: nat, createdAt: int, ip: string, agent: string)

  /** What a session entry shows of a token; its user, digest and family are not shown. */
  predicate Shows(info: SessionInfo, t: Token) {
    info.id == t.id && info.createdAt == t.createdAt && info.ip == t.ip && info.agent == t.agent
  }

  class RefreshTokenUseCase {
    const repo: RefreshTokenRepo
    const duration: int

    constructor (repo: RefreshTokenRepo, duration: int)
      ensures this.repo == repo && this.duration == duration
    {
      this.repo, this.duration := repo, duration;
    }

    method GenerateRefreshToken(user: nat, family: nat, draw: Draw, now: int, w: Weather)
      returns (r: Result<Token, RefreshError>)
      requires repo.Valid()
      modifies repo`rows
      ensures repo.Valid()
      ensures (repo.rows, r) == Generate(old(repo.rows), user, family, draw, now, duration, w)
    {
      if !w.tokens {
        return Err(Internal);
      }
      var token := NewToken(draw, user, family, now, duration);
      var ok := repo.Create(token, w.create);
      r := if ok then Ok(token) else Err(Internal);
    }

    method RotateToken(raw: string, draw: Draw, now: int, w: Weather) returns (r: Result<Token, RefreshError>)
      requires repo.Valid()
      modifies repo`rows
      ensures repo.Valid()
      ensures (repo.rows, r) == Rotate(old(repo.rows), raw, draw, now, duration, w)
    {
      var found := repo.GetByTokenHash(Digest(raw), w.lookup);
      if w.lookup {
        FoundIs(repo.rows, Digest(raw), found);
      }
      if found.None? {
        return Err(InvalidToken);
      }
      var stored := found.value;
      if stored.IsRevoked() {
        var _ := repo.Update(ByFamily(stored.family), now, w.write);
        assert w.write ==> repo.rows == Revoked(old(repo.rows), ByFamily(stored.family), now);
        assert !w.write ==> repo.rows == old(repo.rows);
        return Err(TokenRevoked);
      }
      if stored.IsExpired(now) {
        return Err(TokenExpired);
      }
      var ok := repo.Update(ById(stored.id), now, w.write);
      assert ok ==> repo.rows == Revoked(old(repo.rows), ById(stored.id), now);
      assert !ok ==> repo.rows == old(repo.rows);
      if !ok {
        return Err(Internal);
      }
      if !w.user {
        return Err(UserNotFound);
      }
      if !w.tokens {
        return Err(Internal);
      }
      var token := NewToken(draw, stored.user, stored.family, now, duration);
      ok := repo.Create(token, w.create);
      r := if ok then Ok(token) else Err(Internal);
    }

    method LogoutToken(raw: string, now: int, w: Weather) returns (r: Result<(), RefreshError>)
      requires repo.Valid()
      modifies repo`rows
      ensures repo.Valid()
      ensures (repo.rows, r) == Logout(old(repo.rows), raw, now, w)
    {
      var found := repo.GetByTokenHash(Digest(raw), w.lookup);
      if w.lookup {
        FoundIs(repo.rows, Digest(raw), found);
      }
      if found.None? {
        return Ok(());
      }
      var ok := repo.Update(ById(found.value.id), now, w.write);
      assert ok ==> repo.rows == Revoked(old(repo.rows), ById(found.value.id), now);
      assert !ok ==> repo.rows == old(repo.rows);
      r := if ok then Ok(()) else Err(Internal);
    }

    method LogoutEverywhere(user: nat, now: int, w: Weather) returns (r: Result<(), RefreshError>)
      requires repo.Valid()
      modifies repo`rows
      ensures repo.Valid()
      ensures (repo.rows, r) == LogoutAll(old(repo.rows), user, now, w)
    {
      var ok := repo.Update(ByUser(user), now, w.write);
      assert ok ==> repo.rows == Revoked(old(repo.rows), ByUser(user), now);
      assert !ok ==> repo.rows == old(repo.rows);
      r := if ok then Ok(()) else Err(Internal);
    }

    /** One entry per listed token: active ones of the user, newest first, all of them unless the read broke off. */
    method ListSessions(user: nat, now: int, up: bool, arriving: nat)
      returns (sessions: Option<seq<SessionInfo>>, ghost listed: seq<Token>)
      requires repo.Valid()
      ensures sessions.Some? == up
      ensures up ==> |sessions.value| == |listed| && NewestActive(repo.rows, listed, user, now)
      ensures up ==> forall t :: t in listed ==> t.user == user && t.revokedAt.None? && t.expiresAt > now
      ensures up ==> forall i: nat :: i < |listed| ==> Shows(sessions.value[i], listed[i])
      ensures up ==> |listed| <= arriving
      ensures up && |listed| < arriving ==>
        forall r :: r in repo.rows && r.user == user && r.revokedAt.None? && r.expiresAt > now ==>
          exists info :: info in sessions.value && Shows(info, r)
    {
      var tokens := repo.ListActiveByUserID(user, now, up, arriving);
      listed := [];
      if tokens.None? {
        return None, [];
      }
      var infos: seq<SessionInfo> := [];
      var k := 0;
      while k < |tokens.value|
        invariant k == |infos| <= |tokens.value|
        invariant forall i: nat :: i < k ==> Shows(infos[i], tokens.value[i])
      {
        var t := tokens.value[k];
        infos := infos + [SessionInfo(t.id, t.createdAt, t.ip, t.agent)];
        k := k + 1;
      }
      listed := tokens.value;
      forall r | r in listed ensures exists info :: info in infos && Shows(info, r) {
        var i: nat :| i < |listed| && listed[i] == r;
        assert infos[i] in infos && Shows(infos[i], r);
      }
      sessions := Some(infos);
    }
  }

  /** A complete listing holds the user's unrevoked, unexpired tokens, each as often as stored, newest first. */
  lemma ListingIsActiveTokens(rows: seq<Token>, user: nat, now: int)
    ensures multiset(ActiveNewestFirst(rows, user, now)) == multiset(Active(rows, user, now))
    ensures InOrder(ActiveNewestFirst(rows, user, now), CreatedAfter)
  {
    SortedSorts(Active(rows, user, now), CreatedAfter);
  }

  /** A logout that reports success leaves the presented token unrevoked exactly when the lookup broke. */
  lemma LogoutHonesty(rows: seq<Token>, raw: string, now: int, w: Weather)
    requires FindByHash(rows, Digest(raw)).Some? && !FindByHash(rows, Digest(raw)).value.IsRevoked()
    requires Logout(rows, raw, now, w).1.Ok?
    ensures FindByHash(rows, Digest(raw)).value in Logout(rows, raw, now, w).0 <==> !w.lookup
  {
  }
}
