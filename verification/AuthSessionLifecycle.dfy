/** The session service as it runs: refresh, logout and login call the repository several
    times, and between two calls other requests have their way with the tables. Each method
    answers what the interleaving model answers, and says when it gives which answer. */
module AuthSessionLifecycle {
  import opened UserModel
  import opened Wrappers
  import opened AuthTransactions
  import opened AuthProtocol
  import opened AuthAnswers
  import opened AuthEffects
  import R = AuthRepository

  /** What others make, by the next call of a request, of the tables that its i-th call left. */
  type World = (nat, Db) -> Db

  ghost predicate Keeps(world: World) {
    forall i, d :: R.Indexed(world(i, d))
  }

  /** How many calls a request can still make. */
  function Rank(p: Proc): nat {
    match p
    case Refresh(_, _) => 5
    case RotateRead(_, _) => 4
    case RotateSwap(_, _, _, _) => 3
    case ReuseLookup(_, _, _) => 3
    case ReuseRevoke(_, _) => 2
    case Logout(_, _) => 3
    case LogoutRevoke(_, _) => 2
    case Login(_, _, _, _) => 4
    case LoginCreate(_, _, _, _) => 3
    case LoginToken(_, _) => 2
    case Done(_) => 0
    case _ => 1
  }

  lemma RankFalls(db: Db, p: Proc)
    requires !p.Done?
    ensures Rank(Progress(db, p).1) < Rank(p)
  {
    hide Judge, StatusOf, Revoke, RevokeById, ResetPassword, ChangePassword, SetStatus, Finalize, IssueReset,
      AttachPushToken, DetachPushToken,
      CreateUser, RevokeForDevice;
  }

  /** The steps of one request from its k-th on, which finds the tables `d`: the tables it
      leaves and its answer. */
  function Answered(world: World, k: nat, d: Db, p: Proc): (Db, Outcome)
    requires !p.Done?
    decreases Rank(p)
  {
    RankFalls(d, p);
    var (e, q) := Progress(d, p);
    if q.Done? then (e, q.outcome) else Answered(world, k + 1, world(k, e), q)
  }

  lemma AnsweredNext(world: World, k: nat, d: Db, p: Proc, e: Db, q: Proc)
    requires !p.Done? && !q.Done? && Progress(d, p) == (e, q)
    ensures Answered(world, k, d, p) == Answered(world, k + 1, world(k, e), q)
  {
    hide Progress;
  }

  lemma AnsweredLast(world: World, k: nat, d: Db, p: Proc, e: Db, outcome: Outcome)
    requires !p.Done? && Progress(d, p) == (e, Done(outcome))
    ensures Answered(world, k, d, p) == (e, outcome)
  {
    hide Progress;
  }

  // ----- What the answers mean -----

  lemma RevokeAnswers(world: World, k: nat, d: Db, sid: nat, now: int)
    ensures Answered(world, k, d, ReuseRevoke(sid, now)) == (RevokeSession(d, sid, now), Reused(sid))
  {
    hide RevokeSession;
    AnsweredLast(world, k, d, ReuseRevoke(sid, now), RevokeSession(d, sid, now), Reused(sid));
  }

  /** How a refresh ends that found its token used: the session of the hash is looked up
      again and revoked. */
  lemma LookupAnswers(world: World, k: nat, d: Db, hash: nat, sid: nat, now: int)
    ensures Answered(world, k, d, ReuseLookup(hash, sid, now)) ==
      if hash in d.tokens
      then (RevokeSession(world(k, d), d.tokens[hash].sessionId, now), Reused(d.tokens[hash].sessionId))
      else (d, Reused(sid))
  {
    hide RevokeSession;
    if hash in d.tokens {
      var owner := d.tokens[hash].sessionId;
      AnsweredNext(world, k, d, ReuseLookup(hash, sid, now), d, ReuseRevoke(owner, now));
      RevokeAnswers(world, k + 1, world(k, d), owner, now);
    } else {
      AnsweredLast(world, k, d, ReuseLookup(hash, sid, now), d, Reused(sid));
    }
  }

  /** How a rotation ends once its transaction was tried. */
  lemma SwapAnswers(world: World, k: nat, d: Db, hash: nat, sid: nat, expiresAt: int, now: int)
    ensures var (e, r) := Swap(d, hash, sid, expiresAt, now);
      Answered(world, k, d, RotateSwap(hash, sid, expiresAt, now)) ==
        match r
        case Swapped(n) => (e, Rotated(hash, sid, n))
        case SessionGone => (e, Failed)
        case AlreadyUsed => (RevokeSession(world(k, e), sid, now), Reused(sid))
  {
    hide RevokeSession, Swap;
    var p := RotateSwap(hash, sid, expiresAt, now);
    var (e, r) := Swap(d, hash, sid, expiresAt, now);
    match r
    case Swapped(n) => AnsweredLast(world, k, d, p, e, Rotated(hash, sid, n));
    case SessionGone => AnsweredLast(world, k, d, p, e, Failed);
    case AlreadyUsed =>
      AnsweredNext(world, k, d, p, e, ReuseRevoke(sid, now));
      RevokeAnswers(world, k + 1, world(k, e), sid, now);
  }

  /** When a rotation is answered how, and what it leaves: `b` are the tables at its read. */
  lemma RotationAnswers(world: World, k: nat, b: Db, hash: nat, now: int)
    requires Keeps(world)
    ensures var (d, o) := Answered(world, k, b, RotateRead(hash, now)); var c := world(k, b);
      && RotationAnswered(b, c, hash, now, o)
      && (o.Rotated? ==> Succeeds(c, d, hash, o.sid, o.successor, b.tokens[hash].expiresAt, now))
      && (o.Reused? ==> Shuts(if Consumed(b, hash) then c else world(k + 1, c), d, o.sid, now))
      && (!o.Rotated? && !o.Reused? ==> d == if o.Failed? then c else b)
  {
    hide Progress, RevokeSession, Swap, R.Indexed, Shuts, Succeeds, RotateReadStep;
    var c, q := world(k, b), RotateReadStep(b, hash, now);
    SecondRead(b, hash, now);
    assert Progress(b, RotateRead(hash, now)) == (b, q) by { RotateReadProgress(b, hash, now); }
    if q.Done? {
      AnsweredLast(world, k, b, RotateRead(hash, now), b, q.outcome);
    } else {
      AnsweredNext(world, k, b, RotateRead(hash, now), b, q);
      if q.ReuseRevoke? {
        assert q == ReuseRevoke(q.sid, now);
        RevokeAnswers(world, k + 1, c, q.sid, now);
        RevokeShuts(c, q.sid, now);
      } else {
        assert q == RotateSwap(hash, q.sid, q.expiresAt, now);
        SwapAnswers(world, k + 1, c, hash, q.sid, q.expiresAt, now);
        assert R.Indexed(c);
        TokensBelow(c);
        SwapSucceeds(c, hash, q.sid, q.expiresAt, now);
        RevokeShuts(world(k + 1, c), q.sid, now);
        var r := Swap(c, hash, q.sid, q.expiresAt, now).1;
        assert r.Swapped? || r.SessionGone? || r.AlreadyUsed?;
      }
    }
  }

  lemma TokensBelow(c: Db)
    requires R.Indexed(c)
    ensures forall t :: t in c.tokens ==> t < c.next
  {
  }

  lemma RotateReadProgress(b: Db, hash: nat, now: int)
    ensures Progress(b, RotateRead(hash, now)) == (b, RotateReadStep(b, hash, now))
  {
    hide RotateReadStep;
  }

  /** One answer for every case. */
  predicate RotationAnswered(b: Db, c: Db, hash: nat, now: int, o: Outcome) {
    && (o.InvalidToken? <==> !Known(b, hash))
    && (o.SessionRevoked? <==> OnRevokedSession(b, hash))
    && (o.TokenExpired? <==> RotationIsExpired(b, hash, now))
    && (o.Reused? <==> RotationIsReuse(b, c, hash, now))
    && (o.Rotated? <==> RotationSucceeds(b, c, hash, now))
    && (o.Failed? <==> RotationFails(b, c, hash, now))
    && (o.Rotated? ==> o.hash == hash && o.sid == b.tokens[hash].sessionId)
    && (o.Reused? ==> o.sid == b.tokens[hash].sessionId)
  }

  predicate RefreshAnswered(a: Db, b: Db, c: Db, hash: nat, now: int, o: Outcome) {
    && (o.InvalidToken? <==> IsInvalid(a, b, hash, now))
    && (o.UserSuspended? <==> IsSuspended(a, hash))
    && (o.SessionRevoked? <==> IsRevoked(a, b, hash, now))
    && (o.TokenExpired? <==> IsExpired(a, b, hash, now))
    && (o.Reused? <==> IsReuse(a, b, c, hash, now))
    && (o.Rotated? <==> IsRotated(a, b, c, hash, now))
    && (o.Failed? <==> IsFailed(a, b, c, hash, now))
    && (o.Rotated? ==> o.hash == hash && o.sid == b.tokens[hash].sessionId)
    && (o.Reused? ==> o.sid == if hash in b.tokens then b.tokens[hash].sessionId else a.tokens[hash].sessionId)
  }

  /** The tables a refresh leaves: those of a committed rotation, those of a revocation, or
      those it found. */
  ghost predicate RefreshLeaves(world: World, a: Db, hash: nat, now: int, o: Outcome, d: Db) {
    var b := world(0, a);
    var c := world(1, b);
    if o.Rotated? then hash in b.tokens && Succeeds(c, d, hash, o.sid, o.successor, b.tokens[hash].expiresAt, now)
    else if o.Reused? && hash !in b.tokens then d == b
    else if o.Reused? then Shuts(if Consumed(a, hash) || Consumed(b, hash) then c else world(2, c), d, o.sid, now)
    else d == if !Admits(a, hash, now) then a else if o.Failed? then c else b
  }

  /** When a refresh is answered how, and what it leaves. */
  lemma RefreshAnswers(world: World, a: Db, hash: nat, now: int)
    requires Keeps(world)
    ensures var (d, o) := Answered(world, 0, a, Refresh(hash, now)); var b := world(0, a);
      RefreshAnswered(a, b, world(1, b), hash, now, o) && RefreshLeaves(world, a, hash, now, o, d)
  {
    hide Progress, RevokeSession, R.Indexed, Shuts, Succeeds, RefreshStep;
    var b, q := world(0, a), RefreshStep(a, hash, now);
    FirstRead(a, hash, now);
    assert Progress(a, Refresh(hash, now)) == (a, q) by { RefreshProgress(a, hash, now); }
    if q.Done? {
      AnsweredLast(world, 0, a, Refresh(hash, now), a, q.outcome);
    } else {
      AnsweredNext(world, 0, a, Refresh(hash, now), a, q);
      if q.ReuseLookup? {
        assert q == ReuseLookup(hash, q.sid, now);
        LookupAnswers(world, 1, b, hash, q.sid, now);
        RevokeShuts(world(1, b), if hash in b.tokens then b.tokens[hash].sessionId else 0, now);
      } else {
        RotationAnswers(world, 1, b, hash, now);
      }
    }
  }

  lemma RefreshProgress(a: Db, hash: nat, now: int)
    ensures Progress(a, Refresh(hash, now)) == (a, RefreshStep(a, hash, now))
  {
    hide RefreshStep;
  }

  /** A refresh up to its second call. */
  lemma RefreshFirst(world: World, a: Db, hash: nat, now: int)
    ensures var q := RefreshStep(a, hash, now);
      Answered(world, 0, a, Refresh(hash, now)) ==
        if q.Done? then (a, q.outcome) else Answered(world, 1, world(0, a), q)
  {
    hide RefreshStep, Progress;
    var q := RefreshStep(a, hash, now);
    assert Progress(a, Refresh(hash, now)) == (a, q) by { RefreshProgress(a, hash, now); }
    if q.Done? {
      AnsweredLast(world, 0, a, Refresh(hash, now), a, q.outcome);
    } else {
      AnsweredNext(world, 0, a, Refresh(hash, now), a, q);
    }
  }

  /** The same, row by row. */
  lemma RefreshReads(world: World, a: Db, hash: nat, now: int)
    ensures var o := Answered(world, 0, a, Refresh(hash, now));
      if hash !in a.tokens || a.tokens[hash].sessionId !in a.sessions then o == (a, InvalidToken)
      else
        var token := a.tokens[hash];
        var session := a.sessions[token.sessionId];
        if session.userId !in a.users || a.users[session.userId] == DELETED then o == (a, InvalidToken)
        else if a.users[session.userId] == SUSPENDED then o == (a, UserSuspended)
        else if session.revokedAt != None then o == (a, SessionRevoked)
        else if token.expiresAt <= now || session.expiresAt <= now then o == (a, TokenExpired)
        else if token.revokedAt != None || token.replacedById != None
        then o == Answered(world, 1, world(0, a), ReuseLookup(hash, token.sessionId, now))
        else o == Answered(world, 1, world(0, a), RotateRead(hash, now))
  {
    hide Answered;
    RefreshFirst(world, a, hash, now);
  }

  lemma RotateFirst(world: World, k: nat, b: Db, hash: nat, now: int)
    ensures var q := RotateReadStep(b, hash, now);
      Answered(world, k, b, RotateRead(hash, now)) ==
        if q.Done? then (b, q.outcome) else Answered(world, k + 1, world(k, b), q)
  {
    hide RotateReadStep, Progress;
    var q := RotateReadStep(b, hash, now);
    assert Progress(b, RotateRead(hash, now)) == (b, q) by { RotateReadProgress(b, hash, now); }
    if q.Done? {
      AnsweredLast(world, k, b, RotateRead(hash, now), b, q.outcome);
    } else {
      AnsweredNext(world, k, b, RotateRead(hash, now), b, q);
    }
  }

  lemma RotateReads(world: World, k: nat, b: Db, hash: nat, now: int)
    ensures var o := Answered(world, k, b, RotateRead(hash, now));
      if hash !in b.tokens || b.tokens[hash].sessionId !in b.sessions then o == (b, InvalidToken)
      else
        var token := b.tokens[hash];
        var sid := token.sessionId;
        if b.sessions[sid].revokedAt != None then o == (b, SessionRevoked)
        else if token.expiresAt <= now || b.sessions[sid].expiresAt <= now then o == (b, TokenExpired)
        else if token.revokedAt != None || token.replacedById != None
        then o == Answered(world, k + 1, world(k, b), ReuseRevoke(sid, now))
        else o == Answered(world, k + 1, world(k, b), RotateSwap(hash, sid, token.expiresAt, now))
  {
    hide Answered;
    RotateFirst(world, k, b, hash, now);
  }

  // ----- Logout and login -----

  lemma LogoutAnswers(world: World, a: Db, hash: nat, now: int)
    ensures Answered(world, 0, a, Logout(hash, now)) ==
      if hash !in a.tokens then (a, InvalidToken)
      else (RevokeSession(world(0, a), a.tokens[hash].sessionId, now), LoggedOut(a.tokens[hash].sessionId))
  {
    hide RevokeSession;
    if hash !in a.tokens {
      AnsweredLast(world, 0, a, Logout(hash, now), a, InvalidToken);
    } else {
      var sid := a.tokens[hash].sessionId;
      var b := world(0, a);
      AnsweredNext(world, 0, a, Logout(hash, now), a, LogoutRevoke(sid, now));
      AnsweredLast(world, 1, b, LogoutRevoke(sid, now), RevokeSession(b, sid, now), LoggedOut(sid));
    }
  }

  /** The tables after the device's other session was revoked. */
  function DeviceFreed(a: Db, user: UserId, deviceId: string, now: int): Db {
    if deviceId == "" then a else RevokeForDevice(a, user, user + ":" + deviceId, now)
  }

  lemma FreedByKey(a: Db, user: UserId, deviceId: string, now: int)
    ensures var key := ActiveKey(user, deviceId);
      DeviceFreed(a, user, deviceId, now) == if key.Some? then RevokeForDevice(a, user, key.value, now) else a
  {
    hide RevokeForDevice;
  }

  /** A login, call by call. */
  lemma LoginFrees(world: World, a: Db, user: UserId, deviceId: string, now: int, ttl: int)
    ensures Answered(world, 0, a, Login(user, deviceId, now, ttl)) ==
      Answered(world, 1, world(0, DeviceFreed(a, user, deviceId, now)), LoginCreate(user, deviceId, now, ttl))
  {
    hide RevokeForDevice;
    AnsweredNext(world, 0, a, Login(user, deviceId, now, ttl), DeviceFreed(a, user, deviceId, now),
      LoginCreate(user, deviceId, now, ttl));
  }

  lemma LoginInserts(world: World, b: Db, user: UserId, deviceId: string, key: Option<string>, now: int, ttl: int,
      expiresAt: int)
    requires key == ActiveKey(user, deviceId) && expiresAt == now + ttl * 1000
    ensures var r := CreateSession(b, user, deviceId, key, now, expiresAt);
      var done := Answered(world, 1, b, LoginCreate(user, deviceId, now, ttl));
      && (r.Ok? ==> done == Answered(world, 2, world(1, r.value.0), LoginToken(r.value.1, expiresAt)))
      && (r == Err(UniqueViolation) ==> done == (b, ActiveKeyConflict(user, key.GetOr(""))))
      && (r == Err(ForeignKeyViolation) ==> done == (b, Failed))
  {
    hide CreateSession;
    var create := LoginCreate(user, deviceId, now, ttl);
    match CreateSession(b, user, deviceId, key, now, expiresAt)
    case Err(UniqueViolation) => AnsweredLast(world, 1, b, create, b, ActiveKeyConflict(user, key.GetOr("")));
    case Err(ForeignKeyViolation) => AnsweredLast(world, 1, b, create, b, Failed);
    case Ok(created) => AnsweredNext(world, 1, b, create, created.0, LoginToken(created.1, expiresAt));
  }

  lemma LoginIssues(world: World, c: Db, sid: nat, expiresAt: int)
    ensures var r := CreateRefreshToken(c, sid, expiresAt);
      Answered(world, 2, c, LoginToken(sid, expiresAt)) ==
        if r.Err? then (c, Failed) else (r.value.0, LoggedIn(sid, r.value.1))
  {
    hide CreateRefreshToken;
    var issue, r := LoginToken(sid, expiresAt), CreateRefreshToken(c, sid, expiresAt);
    if r.Err? {
      AnsweredLast(world, 2, c, issue, c, Failed);
    } else {
      AnsweredLast(world, 2, c, issue, r.value.0, LoggedIn(sid, r.value.1));
    }
  }

  /** The session row a login inserts, when the user exists and nobody holds its key. */
  function Opened(b: Db, user: UserId, deviceId: string, now: int, ttl: int): Db {
    var key := if deviceId == "" then None else Some(user + ":" + deviceId);
    b.(next := b.next + 1,
       sessions := b.sessions[b.next := Session(user, deviceId, key, now + ttl * 1000, None, now, None)])
  }

  predicate DeviceTaken(b: Db, user: UserId, deviceId: string) {
    deviceId != "" && exists s :: s in b.sessions && b.sessions[s].activeKey == Some(user + ":" + deviceId)
  }

  /** `b` are the tables at the session insert. */
  predicate LoginAnswered(world: World, b: Db, user: UserId, deviceId: string, now: int, ttl: int, d: Db, o: Outcome) {
    var c := world(1, Opened(b, user, deviceId, now, ttl));
    if user !in b.users then o == Failed && d == b
    else if DeviceTaken(b, user, deviceId) then o == ActiveKeyConflict(user, user + ":" + deviceId) && d == b
    else if b.next !in c.sessions then o == Failed && d == c
    else
      && o == LoggedIn(b.next, c.next)
      && d == c.(next := c.next + 1, tokens := c.tokens[c.next := RefreshToken(b.next, now + ttl * 1000, None, None)])
  }

  /** When a login is answered how, and what it leaves. */
  lemma LoginMeans(world: World, a: Db, user: UserId, deviceId: string, now: int, ttl: int)
    ensures var (d, o) := Answered(world, 0, a, Login(user, deviceId, now, ttl));
      LoginAnswered(world, world(0, DeviceFreed(a, user, deviceId, now)), user, deviceId, now, ttl, d, o)
  {
    hide Answered, DeviceFreed;
    LoginFrees(world, a, user, deviceId, now, ttl);
    var b := world(0, DeviceFreed(a, user, deviceId, now));
    LoginInserts(world, b, user, deviceId, ActiveKey(user, deviceId), now, ttl, now + ttl * 1000);
    LoginIssues(world, world(1, Opened(b, user, deviceId, now, ttl)), b.next, now + ttl * 1000);
  }

  /** Freeing a device shuts the user's open session on it and leaves every other alone. */
  lemma FreeingShuts(a: Db, user: UserId, deviceId: string, now: int, sid: nat)
    requires sid in a.sessions
    ensures var d := DeviceFreed(a, user, deviceId, now); var row := a.sessions[sid];
      && sid in d.sessions
      && d.sessions[sid] ==
           if deviceId != "" && row.userId == user && row.revokedAt.None?
             && row.activeKey == Some(user + ":" + deviceId)
           then row.(revokedAt := Some(now), activeKey := None, pushToken := None) else row
  {
    hide SweepTokens;
  }

  // ----- The service -----

  class AuthSessionLifecycleService {
    const repo: R.AuthRepository

    constructor (repo: R.AuthRepository)
      ensures this.repo == repo
    {
      this.repo := repo;
    }

    method Refresh(hash: nat, now: int, world: World) returns (outcome: Outcome)
      requires repo.Valid() && Keeps(world)
      modifies repo
      ensures (repo.State(), outcome) == Answered(world, 0, old(repo.State()), AuthProtocol.Refresh(hash, now))
      ensures var a := old(repo.State()); var b := world(0, a);
        && RefreshAnswered(a, b, world(1, b), hash, now, outcome)
        && RefreshLeaves(world, a, hash, now, outcome, repo.State())
    {
      ghost var a := repo.State();
      RefreshAnswers(world, a, hash, now);
      RefreshReads(world, a, hash, now);
      hide *;
      // findRefreshTokenWithSession
      if hash !in repo.tokens || repo.tokens[hash].sessionId !in repo.sessions { return InvalidToken; }
      var token := repo.tokens[hash];
      var session := repo.sessions[token.sessionId];
      if session.userId !in repo.users { return InvalidToken; }
      var status := repo.users[session.userId];
      if status == DELETED { return InvalidToken; }
      if status == SUSPENDED { return UserSuspended; }
      if session.revokedAt != None { return SessionRevoked; }
      if token.expiresAt <= now || session.expiresAt <= now { return TokenExpired; }
      var tables := world(0, repo.State());
      repo.Meanwhile(tables);
      if token.revokedAt != None || token.replacedById != None {
        LookupAnswers(world, 1, tables, hash, token.sessionId, now);
        var sid := if hash in repo.tokens then repo.tokens[hash].sessionId else token.sessionId;
        var found := repo.RevokeSessionByRefreshTokenHash(hash, now, world(1, tables));
        return Reused(sid);
      }
      outcome := RotateRefreshToken(hash, now, world, 1);
    }

    method RotateRefreshToken(hash: nat, now: int, world: World, k: nat) returns (outcome: Outcome)
      requires repo.Valid() && Keeps(world)
      modifies repo
      ensures (repo.State(), outcome) == Answered(world, k, old(repo.State()), RotateRead(hash, now))
      ensures var b := old(repo.State()); RotationAnswered(b, world(k, b), hash, now, outcome)
    {
      ghost var b := repo.State();
      RotationAnswers(world, k, b, hash, now);
      RotateReads(world, k, b, hash, now);
      hide *;
      if hash !in repo.tokens || repo.tokens[hash].sessionId !in repo.sessions { return InvalidToken; }
      var existing := repo.tokens[hash];
      var session := repo.sessions[existing.sessionId];
      if session.revokedAt != None { return SessionRevoked; }
      if existing.expiresAt <= now || session.expiresAt <= now { return TokenExpired; }
      repo.Meanwhile(world(k, repo.State()));
      if existing.revokedAt != None || existing.replacedById != None {
        RevokeAnswers(world, k + 1, repo.State(), existing.sessionId, now);
        repo.RevokeSessionAndTokens(existing.sessionId, now);
        return Reused(existing.sessionId);
      }
      SwapAnswers(world, k + 1, repo.State(), hash, existing.sessionId, existing.expiresAt, now);
      var swap := repo.RotationTransaction(hash, existing.sessionId, existing.expiresAt, now);
      match swap
      case Swapped(successor) => return Rotated(hash, existing.sessionId, successor);
      case SessionGone => return Failed;
      case AlreadyUsed =>
        repo.Meanwhile(world(k + 1, repo.State()));
        repo.RevokeSessionAndTokens(existing.sessionId, now);
        return Reused(existing.sessionId);
    }

    method Logout(hash: nat, now: int, world: World) returns (outcome: Outcome)
      requires repo.Valid() && Keeps(world)
      modifies repo
      ensures (repo.State(), outcome) == Answered(world, 0, old(repo.State()), AuthProtocol.Logout(hash, now))
      ensures outcome == if hash in old(repo.tokens) then LoggedOut(old(repo.tokens)[hash].sessionId) else InvalidToken
      ensures outcome.LoggedOut? ==> Shuts(world(0, old(repo.State())), repo.State(), outcome.sid, now)
      ensures !outcome.LoggedOut? ==> repo.State() == old(repo.State())
    {
      LogoutAnswers(world, repo.State(), hash, now);
      hide Answered, Progress, R.Indexed, RevokeSession, Shuts;
      var sid := if hash in repo.tokens then repo.tokens[hash].sessionId else 0;
      var tables := world(0, repo.State());
      RevokeShuts(tables, sid, now);
      var ok := repo.RevokeSessionByRefreshTokenHash(hash, now, tables);
      return if ok then LoggedOut(sid) else InvalidToken;
    }

    method CreateSessionAndTokens(user: UserId, deviceId: string, now: int, ttl: int, world: World)
      returns (outcome: Outcome)
      requires repo.Valid() && Keeps(world)
      modifies repo
      ensures (repo.State(), outcome) == Answered(world, 0, old(repo.State()), Login(user, deviceId, now, ttl))
      ensures LoginAnswered(world, world(0, DeviceFreed(old(repo.State()), user, deviceId, now)), user, deviceId, now,
        ttl, repo.State(), outcome)
    {
      ghost var a := repo.State();
      LoginMeans(world, a, user, deviceId, now, ttl);
      LoginFrees(world, a, user, deviceId, now, ttl);
      var activeKey := ActiveKey(user, deviceId);
      FreedByKey(a, user, deviceId, now);
      hide *;
      if activeKey.Some? { repo.RevokeActiveSessionForDevice(user, activeKey.value, now); }
      var expiresAt := now + ttl * 1000;
      repo.Meanwhile(world(0, repo.State()));
      ghost var b := repo.State();
      LoginInserts(world, b, user, deviceId, activeKey, now, ttl, expiresAt);
      var session := repo.Create(user, deviceId, activeKey, now, expiresAt);
      match session
      case Err(UniqueViolation) => return ActiveKeyConflict(user, activeKey.GetOr(""));
      case Err(ForeignKeyViolation) => return Failed;
      case Ok(sid) =>
        ghost var inserted := repo.State();
        assert Answered(world, 0, a, Login(user, deviceId, now, ttl)) ==
          Answered(world, 2, world(1, inserted), LoginToken(sid, expiresAt));
        repo.Meanwhile(world(1, repo.State()));
        var token := repo.CreateToken(sid, expiresAt);
        LoginIssues(world, world(1, inserted), sid, expiresAt);
        if token.Err? { return Failed; }
        return LoggedIn(sid, token.value);
    }
  }
}
