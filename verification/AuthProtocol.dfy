/** The session and refresh-token protocol: any number of requests, each a
    sequence of atomic steps against the tables, interleaved in any order.
    A bare read and a transaction are one step each; a request that needs several
    (refresh, logout, login) keeps what it read in between. */
module AuthProtocol {
  import opened UserModel
  import opened Wrappers
  import opened AuthTransactions

  datatype Outcome =
    | Rotated(hash: nat, sid: nat, successor: nat)
    | Reused(sid: nat)
    | InvalidToken
    | UserSuspended
    | SessionRevoked
    | TokenExpired
    | LoggedOut(sid: nat)
    | LoggedIn(sid: nat, token: nat)
    | ActiveKeyConflict(user: UserId, key: string)
    | PasswordWasReset(hash: nat, user: UserId)
    | Finished
    | Failed

  /** A request: its arguments, and how far it has come. The `now` of a request is
      read once when it starts, from a clock nothing is assumed about. */
  datatype Proc =
    // refresh
    | Refresh(hash: nat, now: int)
    | RotateRead(hash: nat, now: int)
    | RotateSwap(hash: nat, sid: nat, expiresAt: int, now: int)
    | ReuseLookup(hash: nat, sid: nat, now: int)
    | ReuseRevoke(sid: nat, now: int)
    // logout
    | Logout(hash: nat, now: int)
    | LogoutRevoke(sid: nat, now: int)
    // login
    | Login(user: UserId, deviceId: string, now: int, ttl: int)
    | LoginCreate(user: UserId, deviceId: string, now: int, ttl: int)
    | LoginToken(sid: nat, expiresAt: int)
    // requests that are one transaction
    | RevokeOne(user: UserId, sid: nat, now: int)
    | Reset(hash: nat, password: nat, now: int)
    | Change(user: UserId, sid: nat, expected: nat, password: nat, now: int)
    | Administer(user: UserId, suspend: bool, now: int)
    | Delete(user: UserId)
    | SendReset(user: UserId, expiresAt: int)
    | AttachPush(user: UserId, sid: nat, token: string, now: int)
    | DropPush(user: UserId, sid: nat)
    | Register(user: UserId, password: nat)
    // answered
    | Done(outcome: Outcome)

  predicate Initial(p: Proc) {
    !(p.RotateRead? || p.RotateSwap? || p.ReuseLookup? || p.ReuseRevoke? || p.LogoutRevoke?
      || p.LoginCreate? || p.LoginToken? || p.Done?)
  }

  /** What both reads of a refresh decide from a token and its session. */
  datatype Judgement = Missing | Revoked | Expired | Used | Good

  function Judge(db: Db, hash: nat, now: int): Judgement {
    if hash !in db.tokens || db.tokens[hash].sessionId !in db.sessions then Missing
    else
      var t := db.tokens[hash];
      var s := db.sessions[t.sessionId];
      if s.revokedAt.Some? then Revoked
      else if t.expiresAt <= now || s.expiresAt <= now then Expired
      else if t.revokedAt.Some? || t.replacedById.Some? then Used
      else Good
  }

  function StatusOf(db: Db, hash: nat): Option<Status> {
    if hash !in db.tokens || db.tokens[hash].sessionId !in db.sessions then None
    else
      var user := db.sessions[db.tokens[hash].sessionId].userId;
      if user in db.users then Some(db.users[user]) else None
  }

  /** The first read: `findRefreshTokenWithSession` and the checks of `refresh`. */
  function RefreshStep(db: Db, hash: nat, now: int): Proc {
    match StatusOf(db, hash)
    case None => Done(InvalidToken)
    case Some(DELETED) => Done(InvalidToken)
    case Some(SUSPENDED) => Done(UserSuspended)
    case Some(ACTIVE) =>
      match Judge(db, hash, now)
      case Missing => Done(InvalidToken)
      case Revoked => Done(SessionRevoked)
      case Expired => Done(TokenExpired)
      case Used => ReuseLookup(hash, db.tokens[hash].sessionId, now)
      case Good => RotateRead(hash, now)
  }

  /** The second read, inside `rotateRefreshToken` but outside its transaction. */
  function RotateReadStep(db: Db, hash: nat, now: int): Proc {
    match Judge(db, hash, now)
    case Missing => Done(InvalidToken)
    case Revoked => Done(SessionRevoked)
    case Expired => Done(TokenExpired)
    case Used => ReuseRevoke(db.tokens[hash].sessionId, now)
    case Good => RotateSwap(hash, db.tokens[hash].sessionId, db.tokens[hash].expiresAt, now)
  }

  function RotateSwapStep(db: Db, hash: nat, sid: nat, expiresAt: int, now: int): (Db, Proc) {
    var (d, r) := Swap(db, hash, sid, expiresAt, now);
    match r
    case Swapped(n) => (d, Done(Rotated(hash, sid, n)))
    case AlreadyUsed => (d, ReuseRevoke(sid, now))
    case SessionGone => (d, Done(Failed))
  }

  function LoginStep(db: Db, p: Proc): (Db, Proc)
    requires p.Login? || p.LoginCreate? || p.LoginToken?
  {
    match p
    case Login(user, deviceId, now, ttl) =>
      var key := ActiveKey(user, deviceId);
      (if key.Some? then RevokeForDevice(db, user, key.value, now) else db, LoginCreate(user, deviceId, now, ttl))
    case LoginCreate(user, deviceId, now, ttl) =>
      var expiresAt := now + ttl * 1000;
      (match CreateSession(db, user, deviceId, ActiveKey(user, deviceId), now, expiresAt)
       case Ok((d, sid)) => (d, LoginToken(sid, expiresAt))
       case Err(UniqueViolation) => (db, Done(ActiveKeyConflict(user, ActiveKey(user, deviceId).GetOr(""))))
       case Err(ForeignKeyViolation) => (db, Done(Failed)))
    case LoginToken(sid, expiresAt) =>
      match CreateRefreshToken(db, sid, expiresAt)
      case Ok((d, token)) => (d, Done(LoggedIn(sid, token)))
      case Err(_) => (db, Done(Failed))
  }

  /** One atomic step of one request. */
  function Progress(db: Db, p: Proc): (Db, Proc) {
    match p
    case Refresh(hash, now) => (db, RefreshStep(db, hash, now))
    case RotateRead(hash, now) => (db, RotateReadStep(db, hash, now))
    case RotateSwap(hash, sid, expiresAt, now) => RotateSwapStep(db, hash, sid, expiresAt, now)
    case ReuseLookup(hash, sid, now) =>
      (db, if hash in db.tokens then ReuseRevoke(db.tokens[hash].sessionId, now) else Done(Reused(sid)))
    case ReuseRevoke(sid, now) => (RevokeSession(db, sid, now), Done(Reused(sid)))
    case Logout(hash, now) =>
      (db, if hash in db.tokens then LogoutRevoke(db.tokens[hash].sessionId, now) else Done(InvalidToken))
    case LogoutRevoke(sid, now) => (RevokeSession(db, sid, now), Done(LoggedOut(sid)))
    case Login(_, _, _, _) => LoginStep(db, p)
    case LoginCreate(_, _, _, _) => LoginStep(db, p)
    case LoginToken(_, _) => LoginStep(db, p)
    case RevokeOne(user, sid, now) => (RevokeById(db, user, sid, now).0, Done(Finished))
    case Reset(hash, password, now) =>
      var (d, r) := ResetPassword(db, hash, password, now);
      (d, if r.ResetOk? then Done(PasswordWasReset(hash, r.userId)) else Done(InvalidToken))
    case Change(user, sid, expected, password, now) =>
      (ChangePassword(db, user, sid, expected, password, now).0, Done(Finished))
    case Administer(user, suspend, now) => (SetStatus(db, user, suspend, now), Done(Finished))
    case Delete(user) => (Finalize(db, user), Done(Finished))
    case SendReset(user, expiresAt) => (IssueReset(db, user, expiresAt).0, Done(Finished))
    case AttachPush(user, sid, token, now) => (AttachPushToken(db, user, sid, token, now).0, Done(Finished))
    case DropPush(user, sid) => (DetachPushToken(db, user, sid), Done(Finished))
    case Register(user, password) => (CreateUser(db, user, password), Done(Finished))
    case Done(_) => (db, p)
  }

  datatype State = State(db: Db, procs: seq<Proc>)

  datatype Action = Spawn(request: Proc) | Advance(pid: nat)

  const INIT := State(Db(0, map[], map[], map[], map[], map[]), [])

  function Step(s: State, a: Action): State {
    match a
    case Spawn(p) => if Initial(p) then s.(procs := s.procs + [p]) else s
    case Advance(i) =>
      if i < |s.procs| then
        var (d, p) := Progress(s.db, s.procs[i]);
        State(d, s.procs[i := p])
      else s
  }

  /** Every run is some sequence of actions; an action that is not enabled does nothing. */
  function Run(s: State, actions: seq<Action>): State
    decreases |actions|
  {
    if actions == [] then s else Run(Step(s, actions[0]), actions[1..])
  }

  // ----- What holds of the tables in every reachable state -----

  predicate OwnsTokens(db: Db, sid: nat) {
    exists t :: t in db.tokens && db.tokens[t].sessionId == sid
  }

  predicate Keyed(s: Session) {
    s.activeKey == if s.revokedAt.Some? then None else ActiveKey(s.userId, s.deviceId)
  }

  predicate SessionOk(db: Db, s: nat)
    requires s in db.sessions
  {
    s < db.next && db.sessions[s].userId in db.users && Keyed(db.sessions[s])
  }

  /** A token belongs to a session and carries that session's expiry. */
  predicate TokenOk(db: Db, t: nat)
    requires t in db.tokens
  {
    var sid := db.tokens[t].sessionId;
    t < db.next && sid in db.sessions && db.tokens[t].expiresAt == db.sessions[sid].expiresAt
  }

  ghost predicate Tables(db: Db) {
    && (forall s :: s in db.sessions ==> SessionOk(db, s))
    && (forall t :: t in db.tokens ==> TokenOk(db, t))
    && (forall r :: r in db.resets ==> r < db.next)
  }

  predicate SameKey(s: Session, t: Session) {
    (s.activeKey.Some? && s.activeKey == t.activeKey) || (s.pushToken.Some? && s.pushToken == t.pushToken)
  }

  /** The unique indexes on `activeKey` and `pushToken`. */
  ghost predicate Unique(db: Db) {
    forall a, b :: a in db.sessions && b in db.sessions && a != b ==> !SameKey(db.sessions[a], db.sessions[b])
  }

  /** Token `c[i]` was rotated into token `c[i + 1]`. */
  predicate Linked(tokens: map<nat, RefreshToken>, c: seq<nat>, i: int) {
    && 0 <= i < |c| - 1 && c[i] in tokens
    && tokens[c[i]].replacedById == Some(c[i + 1]) && tokens[c[i]].revokedAt.Some?
  }

  /** The rotation history of one session, oldest token first. */
  ghost predicate Chain(tokens: map<nat, RefreshToken>, sid: nat, c: seq<nat>) {
    && (forall t :: t in c <==> t in tokens && tokens[t].sessionId == sid)
    && (forall i, j :: 0 <= i < j < |c| ==> c[i] != c[j])
    && (forall i {:trigger Linked(tokens, c, i)} :: 0 <= i < |c| - 1 ==> Linked(tokens, c, i))
    && (c != [] ==> tokens[c[|c| - 1]].replacedById.None?)
  }

  ghost predicate HasChain(tokens: map<nat, RefreshToken>, sid: nat) {
    exists c :: Chain(tokens, sid, c)
  }

  ghost predicate Chained(db: Db) {
    forall sid :: sid in db.sessions ==> HasChain(db.tokens, sid)
  }

  predicate Orphan(db: Db, t: nat)
    requires t in db.tokens
  {
    var sid := db.tokens[t].sessionId;
    db.tokens[t].revokedAt.None? && sid in db.sessions && db.sessions[sid].revokedAt.Some?
  }

  predicate Sole(db: Db, t: nat)
    requires t in db.tokens
  {
    forall u :: u in db.tokens && u != t ==> db.tokens[u].sessionId != db.tokens[t].sessionId
  }

  /** A live token of a revoked session can only be the first token of a login that
      was still under way when the session was revoked: its session has no other. */
  ghost predicate OnlyLateTokensLive(db: Db) {
    forall t :: t in db.tokens && Orphan(db, t) ==> Sole(db, t)
  }

  ghost predicate DbInv(db: Db) {
    Tables(db) && Unique(db) && Chained(db) && OnlyLateTokensLive(db)
  }

  // ----- What one step may do to the tables -----

  predicate Kept(before: Option<int>, after: Option<int>) {
    before.Some? ==> after == before
  }

  predicate TokenEvolved(t: RefreshToken, u: RefreshToken) {
    && u.sessionId == t.sessionId
    && u.expiresAt == t.expiresAt
    && Kept(t.revokedAt, u.revokedAt)
    && (t.replacedById.Some? ==> u.replacedById == t.replacedById)
  }

  predicate SessionEvolved(s: Session, t: Session) {
    s.userId == t.userId && s.deviceId == t.deviceId && s.expiresAt == t.expiresAt && Kept(s.revokedAt, t.revokedAt)
  }

  predicate ResetEvolved(r: ResetToken, q: ResetToken) {
    r.userId == q.userId && Kept(r.usedAt, q.usedAt) && Kept(r.revokedAt, q.revokedAt)
  }

  /** Rows keep their identity, timestamps are written at most once, deleted ids
      never return, and only the sessions in `opening` may get their first token. */
  ghost predicate TokensEvolve(a: Db, b: Db, opening: set<nat>) {
    && (forall t :: t in b.tokens ==>
          if t in a.tokens then TokenEvolved(a.tokens[t], b.tokens[t])
          else t >= a.next && (b.tokens[t].sessionId in opening || OwnsTokens(a, b.tokens[t].sessionId)))
    && (forall t :: t in a.tokens && t !in b.tokens ==> a.tokens[t].sessionId !in b.sessions)
  }

  ghost predicate SessionsEvolve(a: Db, b: Db) {
    forall s :: s in b.sessions ==> if s in a.sessions then SessionEvolved(a.sessions[s], b.sessions[s])
      else s >= a.next
  }

  ghost predicate ResetsEvolve(a: Db, b: Db) {
    forall r :: r in b.resets ==> if r in a.resets then ResetEvolved(a.resets[r], b.resets[r]) else r >= a.next
  }

  /** Between `a` and `b` somebody revoked session `sid`. */
  predicate Revokes(a: Db, b: Db, sid: nat) {
    sid in a.sessions && sid in b.sessions && a.sessions[sid].revokedAt.None? && b.sessions[sid].revokedAt.Some?
  }

  /** Whoever revokes a session revokes, in the same step, every token it has. */
  ghost predicate RevocationSweeps(a: Db, b: Db) {
    forall t :: t in a.tokens && t in b.tokens && Revokes(a, b, a.tokens[t].sessionId) ==> b.tokens[t].revokedAt.Some?
  }

  ghost predicate Evolves(a: Db, b: Db, opening: set<nat>) {
    a.next <= b.next && TokensEvolve(a, b, opening) && SessionsEvolve(a, b) && RevocationSweeps(a, b) &&
      ResetsEvolve(a, b)
  }

  // ----- What holds of a request between its steps -----

  ghost predicate Tracks(db: Db, hash: nat, sid: nat) {
    && hash < db.next && sid < db.next
    && (hash in db.tokens ==> db.tokens[hash].sessionId == sid)
    && (hash !in db.tokens ==> sid !in db.sessions)
  }

  /** No longer usable: revoked, or deleted for good. */
  ghost predicate Closed(db: Db, sid: nat) {
    sid < db.next && (sid in db.sessions ==> db.sessions[sid].revokedAt.Some?)
  }

  ghost predicate ProcInv(db: Db, p: Proc) {
    match p
    case RotateSwap(hash, sid, expiresAt, now) =>
      && Tracks(db, hash, sid)
      && now < expiresAt
      && (hash in db.tokens ==> db.tokens[hash].expiresAt == expiresAt)
      // the heart of it: revokedAt was checked outside the transaction, but
      // whatever revoked the session since has also revoked this token
      && (hash in db.tokens && Live(db.tokens[hash]) && sid in db.sessions ==> db.sessions[sid].revokedAt.None?)
    case ReuseLookup(hash, sid, _) => Tracks(db, hash, sid)
    case ReuseRevoke(sid, _) => sid < db.next
    case LogoutRevoke(sid, _) => sid < db.next
    case LoginToken(sid, expiresAt) =>
      && sid < db.next && !OwnsTokens(db, sid)
      && (sid in db.sessions ==> db.sessions[sid].expiresAt == expiresAt)
    case Done(Rotated(hash, sid, successor)) =>
      && Tracks(db, hash, sid) && successor < db.next
      && (hash in db.tokens ==> db.tokens[hash].replacedById == Some(successor))
    case Done(Reused(sid)) => Closed(db, sid)
    case Done(LoggedOut(sid)) => Closed(db, sid)
    case Done(PasswordWasReset(hash, _)) =>
      hash < db.next && (hash in db.resets ==> db.resets[hash].usedAt.Some?)
    case _ => true
  }

  /** Two requests that cannot both be there. */
  predicate Clash(p: Proc, q: Proc) {
    || (p.LoginToken? && q.LoginToken? && p.sid == q.sid)
    || (p.Done? && q.Done? && p.outcome.Rotated? && q.outcome.Rotated? && p.outcome.hash == q.outcome.hash)
    || (p.Done? && q.Done? && p.outcome.PasswordWasReset? && q.outcome.PasswordWasReset? &&
         p.outcome.hash == q.outcome.hash)
  }

  ghost predicate Inv(s: State) {
    && DbInv(s.db)
    && (forall i :: 0 <= i < |s.procs| ==> ProcInv(s.db, s.procs[i]))
    && (forall i, j :: 0 <= i < j < |s.procs| ==> !Clash(s.procs[i], s.procs[j]))
  }
}
