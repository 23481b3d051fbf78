/** When a refresh is answered how, in terms of the rows it finds: `a` are the tables at its
    first read, `b` at the second, and `c` at its transaction. */
module AuthAnswers {
  import opened UserModel
  import opened Wrappers
  import opened AuthEffects
  import opened AuthTransactions
  import opened AuthProtocol

  /** The token is there, and so is its session. */
  predicate Known(db: Db, hash: nat) {
    hash in db.tokens && db.tokens[hash].sessionId in db.sessions
  }

  predicate OwnerIs(db: Db, hash: nat, status: Status) {
    Known(db, hash) &&
    var user := db.sessions[db.tokens[hash].sessionId].userId;
    user in db.users && db.users[user] == status
  }

  predicate OnRevokedSession(db: Db, hash: nat) {
    Known(db, hash) && db.sessions[db.tokens[hash].sessionId].revokedAt.Some?
  }

  predicate Lapsed(db: Db, hash: nat, now: int) {
    Known(db, hash) && (db.tokens[hash].expiresAt <= now || db.sessions[db.tokens[hash].sessionId].expiresAt <= now)
  }

  /** Its session is open and neither has expired. */
  predicate Valid(db: Db, hash: nat, now: int) {
    Known(db, hash) && !OnRevokedSession(db, hash) && !Lapsed(db, hash, now)
  }

  predicate Usable(db: Db, hash: nat, now: int) {
    Valid(db, hash, now) && !Consumed(db, hash)
  }

  /** The first read lets the request go on to rotate. */
  predicate Admits(a: Db, hash: nat, now: int) {
    OwnerIs(a, hash, ACTIVE) && Usable(a, hash, now)
  }

  // ----- The second read and the transaction -----

  predicate RotationIsInvalid(b: Db, hash: nat) {
    !Known(b, hash)
  }

  predicate RotationIsRevoked(b: Db, hash: nat) {
    OnRevokedSession(b, hash)
  }

  predicate RotationIsExpired(b: Db, hash: nat, now: int) {
    Known(b, hash) && !OnRevokedSession(b, hash) && Lapsed(b, hash, now)
  }

  predicate SessionStays(b: Db, c: Db, hash: nat) {
    Known(b, hash) && b.tokens[hash].sessionId in c.sessions
  }

  predicate RotationSucceeds(b: Db, c: Db, hash: nat, now: int) {
    Usable(b, hash, now) && SessionStays(b, c, hash) && hash in c.tokens && !Consumed(c, hash)
  }

  /** The token was consumed before the second read, or by another between it and the
      transaction. */
  predicate RotationIsReuse(b: Db, c: Db, hash: nat, now: int) {
    Valid(b, hash, now) &&
    (Consumed(b, hash) || (SessionStays(b, c, hash) && (hash in c.tokens ==> Consumed(c, hash))))
  }

  predicate RotationFails(b: Db, c: Db, hash: nat, now: int) {
    Usable(b, hash, now) && !SessionStays(b, c, hash)
  }

  // ----- The whole refresh -----

  predicate IsRotated(a: Db, b: Db, c: Db, hash: nat, now: int) {
    Admits(a, hash, now) && RotationSucceeds(b, c, hash, now)
  }

  predicate IsInvalid(a: Db, b: Db, hash: nat, now: int) {
    || (!OwnerIs(a, hash, ACTIVE) && !OwnerIs(a, hash, SUSPENDED))
    || (Admits(a, hash, now) && RotationIsInvalid(b, hash))
  }

  predicate IsSuspended(a: Db, hash: nat) {
    OwnerIs(a, hash, SUSPENDED)
  }

  predicate IsRevoked(a: Db, b: Db, hash: nat, now: int) {
    || (OwnerIs(a, hash, ACTIVE) && OnRevokedSession(a, hash))
    || (Admits(a, hash, now) && RotationIsRevoked(b, hash))
  }

  predicate IsExpired(a: Db, b: Db, hash: nat, now: int) {
    || (OwnerIs(a, hash, ACTIVE) && !OnRevokedSession(a, hash) && Lapsed(a, hash, now))
    || (Admits(a, hash, now) && RotationIsExpired(b, hash, now))
  }

  predicate IsReuse(a: Db, b: Db, c: Db, hash: nat, now: int) {
    || (OwnerIs(a, hash, ACTIVE) && Valid(a, hash, now) && Consumed(a, hash))
    || (Admits(a, hash, now) && RotationIsReuse(b, c, hash, now))
  }

  predicate IsFailed(a: Db, b: Db, c: Db, hash: nat, now: int) {
    Admits(a, hash, now) && RotationFails(b, c, hash, now)
  }

  /** What the first read decides. */
  lemma FirstRead(a: Db, hash: nat, now: int)
    ensures var q := RefreshStep(a, hash, now);
      && (q == Done(InvalidToken) <==> !OwnerIs(a, hash, ACTIVE) && !OwnerIs(a, hash, SUSPENDED))
      && (q == Done(UserSuspended) <==> OwnerIs(a, hash, SUSPENDED))
      && (q == Done(SessionRevoked) <==> OwnerIs(a, hash, ACTIVE) && OnRevokedSession(a, hash))
      && (q == Done(TokenExpired) <==> OwnerIs(a, hash, ACTIVE) && !OnRevokedSession(a, hash) && Lapsed(a, hash, now))
      && (q.ReuseLookup? <==> OwnerIs(a, hash, ACTIVE) && Valid(a, hash, now) && Consumed(a, hash))
      && (q.ReuseLookup? ==> q == ReuseLookup(hash, a.tokens[hash].sessionId, now))
      && (q == RotateRead(hash, now) <==> Admits(a, hash, now))
      && (q.Done? || q.ReuseLookup? || q == RotateRead(hash, now))
      && (q.Done? ==> q.outcome.InvalidToken? || q.outcome.UserSuspended? || q.outcome.SessionRevoked?
                      || q.outcome.TokenExpired?)
  {
  }

  /** What the second read decides. */
  lemma SecondRead(b: Db, hash: nat, now: int)
    ensures var q := RotateReadStep(b, hash, now);
      && (q == Done(InvalidToken) <==> !Known(b, hash))
      && (q == Done(SessionRevoked) <==> OnRevokedSession(b, hash))
      && (q == Done(TokenExpired) <==> RotationIsExpired(b, hash, now))
      && (q.ReuseRevoke? <==> Valid(b, hash, now) && Consumed(b, hash))
      && (q.ReuseRevoke? ==> q == ReuseRevoke(b.tokens[hash].sessionId, now))
      && (q.RotateSwap? <==> Usable(b, hash, now))
      && (q.RotateSwap? ==> q == RotateSwap(hash, b.tokens[hash].sessionId, b.tokens[hash].expiresAt, now))
      && (q.Done? || q.ReuseRevoke? || q.RotateSwap?)
      && (q.Done? ==> q.outcome.InvalidToken? || q.outcome.SessionRevoked? || q.outcome.TokenExpired?)
  {
  }

  // ----- Requests of one transaction -----

  /** What such a request leaves and answers. */
  ghost predicate Transacts(a: Db, p: Proc, b: Db, q: Proc) {
    match p
    case RevokeOne(user, sid, now) => ShutsOwn(a, b, user, sid, now, OwnedSession(a, user, sid)) && q == Done(Finished)
    case Reset(hash, password, now) => exists r :: Resets(a, b, hash, password, now, r) && q == AfterReset(hash, r)
    case Change(user, sid, expected, password, now) =>
      q == Done(Finished) && exists r :: Changes(a, b, user, sid, expected, password, now, r)
    case Administer(user, suspend, now) => SetsStatus(a, b, user, suspend, now) && q == Done(Finished)
    case Delete(user) => Deletes(a, b, user) && q == Done(Finished)
    case SendReset(user, expiresAt) => SendsReset(a, b, user, expiresAt) && q == Done(Finished)
    case AttachPush(user, sid, token, now) =>
      q == Done(Finished) && exists ok :: MovesPush(a, b, user, sid, token, now, ok)
    case DropPush(user, sid) => DropsPush(a, b, user, sid) && q == Done(Finished)
    case Register(user, password) => Registers(a, b, user, password) && q == Done(Finished)
    case _ => true
  }

  function AfterReset(hash: nat, r: ResetResult): Proc {
    match r case ResetOk(user) => Done(PasswordWasReset(hash, user)) case _ => Done(InvalidToken)
  }

  predicate OwnedSession(db: Db, user: UserId, sid: nat) {
    sid in db.sessions && db.sessions[sid].userId == user
  }

  lemma TransactionMeans(db: Db, p: Proc)
    ensures var (d, q) := Progress(db, p); Transacts(db, p, d, q)
  {
    hide Resets, Changes, SetsStatus, Deletes, MovesPush, DropsPush, Shuts;
    hide ResetPassword, ChangePassword, SetStatus, Finalize, AttachPushToken, DetachPushToken, RevokeById;
    match p
    case RevokeOne(user, sid, now) => RevokeByIdMeans(db, user, sid, now);
    case Reset(hash, password, now) =>
      ResetMeans(db, hash, password, now);
      var (d, r) := ResetPassword(db, hash, password, now);
      assert Resets(db, d, hash, password, now, r);
    case Change(user, sid, expected, password, now) =>
      ChangeMeans(db, user, sid, expected, password, now);
      var (d, r) := ChangePassword(db, user, sid, expected, password, now);
      assert Changes(db, d, user, sid, expected, password, now, r);
    case Administer(user, suspend, now) => SetStatusMeans(db, user, suspend, now);
    case Delete(user) => FinalizeMeans(db, user);
    case AttachPush(user, sid, token, now) =>
      AttachPushMeans(db, user, sid, token, now);
      var (d, ok) := AttachPushToken(db, user, sid, token, now);
      assert MovesPush(db, d, user, sid, token, now, ok);
    case DropPush(user, sid) => DetachPushMeans(db, user, sid);
    case _ =>
  }
}
