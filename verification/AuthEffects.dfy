/** What each transaction of the authentication repository does to the rows, and when it
    refuses. */
module AuthEffects {
  import opened UserModel
  import opened Wrappers
  import opened AuthTransactions

  /** The token was rotated or revoked. */
  predicate Consumed(db: Db, hash: nat) {
    hash in db.tokens && (db.tokens[hash].revokedAt.Some? || db.tokens[hash].replacedById.Some?)
  }

  /** The row of a session that was closed at `now`, unless it was already. */
  function ClosedRow(s: Session, now: int, dropPush: bool): Session {
    Session(s.userId, s.deviceId, None, s.expiresAt, if s.revokedAt.Some? then s.revokedAt else Some(now), s.lastSeenAt,
      if dropPush then None else s.pushToken)
  }

  /** These sessions are closed, the tokens of the sessions in `swept` are revoked, and no other
      session or token changes. */
  ghost predicate Closes(a: Db, b: Db, closed: set<nat>, swept: set<nat>, now: int, dropPush: bool) {
    && b.next == a.next && b.sessions.Keys == a.sessions.Keys && b.tokens.Keys == a.tokens.Keys
    && (forall s :: s in a.sessions ==>
          b.sessions[s] == if s in closed then ClosedRow(a.sessions[s], now, dropPush) else a.sessions[s])
    && (forall t :: t in a.tokens ==>
          b.tokens[t] == if a.tokens[t].sessionId in swept && a.tokens[t].revokedAt.None?
          then a.tokens[t].(revokedAt := Some(now)) else a.tokens[t])
  }

  lemma RevokeCloses(db: Db, hit: set<nat>, swept: set<nat>, now: int, dropPush: bool)
    ensures Closes(db, Revoke(db, hit, swept, now, dropPush), hit, swept, now, dropPush)
  {
  }

  // ----- One session -----

  /** The session, if it is still there, is closed, and all its tokens are revoked; nothing
      else changes. */
  ghost predicate Shuts(a: Db, b: Db, sid: nat, now: int) {
    Closes(a, b, {sid}, {sid}, now, true) && b.users == a.users && b.passwords == a.passwords && b.resets == a.resets
  }

  lemma RevokeShuts(c: Db, sid: nat, now: int)
    ensures Shuts(c, RevokeSession(c, sid, now), sid, now)
  {
    RevokeCloses(c, {sid}, {sid}, now, true);
  }

  ghost predicate ShutsOwn(a: Db, b: Db, user: UserId, sid: nat, now: int, ok: bool) {
    && (ok <==> sid in a.sessions && a.sessions[sid].userId == user)
    && if ok then Shuts(a, b, sid, now) else b == a
  }

  lemma RevokeByIdMeans(db: Db, user: UserId, sid: nat, now: int)
    ensures var (d, ok) := RevokeById(db, user, sid, now); ShutsOwn(db, d, user, sid, now, ok)
  {
    hide Shuts;
    RevokeShuts(db, sid, now);
  }

  /** The user's open session on the device is closed with its tokens. */
  ghost predicate FreesDevice(a: Db, b: Db, user: UserId, key: string, now: int) {
    var holders := set s | s in a.sessions && a.sessions[s].activeKey == Some(key) && a.sessions[s].userId == user
                           && a.sessions[s].revokedAt.None?;
    Closes(a, b, holders, holders, now, true) && b.users == a.users && b.passwords == a.passwords &&
      b.resets == a.resets
  }

  lemma RevokeForDeviceMeans(db: Db, user: UserId, key: string, now: int)
    ensures FreesDevice(db, RevokeForDevice(db, user, key, now), user, key, now)
  {
    hide Closes;
    var hit := HoldersOf(db, user, key);
    RevokeCloses(db, hit, hit, now, true);
  }

  // ----- Rotation -----

  /** The token is consumed, its successor is issued, and nothing else but the session's
      lastSeenAt changes. */
  ghost predicate Succeeds(c: Db, d: Db, hash: nat, sid: nat, successor: nat, expiresAt: int, now: int) {
    && hash in c.tokens && sid in c.sessions && successor !in c.tokens
    && d.tokens.Keys == c.tokens.Keys + {successor}
    && d.tokens[successor] == RefreshToken(sid, expiresAt, None, None)
    && d.tokens[hash] == RefreshToken(c.tokens[hash].sessionId, c.tokens[hash].expiresAt, Some(now), Some(successor))
    && (forall t :: t in c.tokens && t != hash ==> d.tokens[t] == c.tokens[t])
    && d.sessions.Keys == c.sessions.Keys
    && (forall s :: s in c.sessions && s != sid ==> d.sessions[s] == c.sessions[s])
    && d.sessions[sid] == c.sessions[sid].(lastSeenAt := now)
    && d.users == c.users && d.passwords == c.passwords && d.resets == c.resets
  }

  /** The rotation commits exactly when its session is there and the token not consumed. */
  ghost predicate Swaps(a: Db, b: Db, hash: nat, sid: nat, expiresAt: int, now: int, r: SwapResult) {
    && (r.SessionGone? <==> sid !in a.sessions)
    && (r.Swapped? <==> sid in a.sessions && hash in a.tokens && !Consumed(a, hash))
    && (r.Swapped? ==> r.next == a.next && Succeeds(a, b, hash, sid, a.next, expiresAt, now))
    && (!r.Swapped? ==> b == a)
  }

  lemma SwapSucceeds(c: Db, hash: nat, sid: nat, expiresAt: int, now: int)
    requires forall t :: t in c.tokens ==> t < c.next
    ensures var (d, r) := Swap(c, hash, sid, expiresAt, now); Swaps(c, d, hash, sid, expiresAt, now, r)
  {
  }

  // ----- Passwords -----

  predicate Unspent(r: ResetToken) {
    r.usedAt.None? && r.revokedAt.None?
  }

  /** A spent, revoked or expired reset token is refused. Any other sets the password, is spent,
      and ends every session and every other open reset token of its user. */
  ghost predicate Resets(a: Db, b: Db, hash: nat, password: nat, now: int, r: ResetResult) {
    && (r.ResetInvalid? <==> hash !in a.resets || a.resets[hash].usedAt.Some? || a.resets[hash].revokedAt.Some?)
    && (r.ResetExpired? <==> !r.ResetInvalid? && a.resets[hash].expiresAt <= now)
    && (!r.ResetOk? ==> b == a)
    && (r.ResetOk? ==>
          && r.userId == a.resets[hash].userId
          && ClosesOf(a, b, r.userId, now, true) && b.users == a.users
          && b.passwords == a.passwords[r.userId := password]
          && b.resets.Keys == a.resets.Keys && b.resets[hash] == a.resets[hash].(usedAt := Some(now))
          && forall t :: t in a.resets && t != hash ==>
               b.resets[t] == if a.resets[t].userId == r.userId && Unspent(a.resets[t])
               then a.resets[t].(revokedAt := Some(now)) else a.resets[t])
  }

  /** Every open session of the user is closed and every token of theirs revoked. */
  ghost predicate ClosesOf(a: Db, b: Db, user: UserId, now: int, dropPush: bool) {
    var all := set s | s in a.sessions && a.sessions[s].userId == user;
    var open := set s | s in a.sessions && a.sessions[s].userId == user && a.sessions[s].revokedAt.None?;
    Closes(a, b, open, all, now, dropPush)
  }

  lemma RevokeClosesOf(db: Db, user: UserId, now: int, dropPush: bool)
    ensures ClosesOf(db, Revoke(db, OpenSessionsOf(db, user), SessionsOf(db, user), now, dropPush), user, now, dropPush)
  {
    hide Closes, Revoke;
    RevokeCloses(db, OpenSessionsOf(db, user), SessionsOf(db, user), now, dropPush);
  }

  lemma SameTables(a: Db, b: Db, c: Db, user: UserId, now: int, dropPush: bool)
    requires ClosesOf(a, b, user, now, dropPush) && c.next == b.next && c.sessions == b.sessions && c.tokens == b.tokens
    ensures ClosesOf(a, c, user, now, dropPush)
  {
  }

  lemma ResetMeans(db: Db, hash: nat, password: nat, now: int)
    ensures var (d, r) := ResetPassword(db, hash, password, now); Resets(db, d, hash, password, now, r)
  {
    if hash in db.resets {
      var user := db.resets[hash].userId;
      RevokeClosesOf(db, user, now, true);
      var (d, r) := ResetPassword(db, hash, password, now);
      if r.ResetOk? {
        SameTables(db, Revoke(db, OpenSessionsOf(db, user), SessionsOf(db, user), now, true), d, user, now, true);
      }
      hide Revoke, ClosesOf, OpenSessionsOf, SessionsOf;
    }
  }

  /** With the expected password, the new one is stored and every other open session of the user
      is closed; otherwise nothing changes. */
  ghost predicate Changes(a: Db, b: Db, user: UserId, keep: nat, expected: nat, password: nat, now: int,
      r: ChangeResult)
  {
    && (r.UserNotFound? <==> user !in a.users)
    && (r.PasswordNotSet? <==> user in a.users && user !in a.passwords)
    && (r.CurrentPasswordMismatch? <==> user in a.users && user in a.passwords && a.passwords[user] != expected)
    && (!r.ChangeOk? ==> b == a)
    && (r.ChangeOk? ==>
          var others := set s | s in a.sessions && s != keep && a.sessions[s].userId == user
                                && a.sessions[s].revokedAt.None?;
          && Closes(a, b, others, others, now, true)
          && b.users == a.users && b.resets == a.resets && b.passwords == a.passwords[user := password])
  }

  lemma ChangeMeans(db: Db, user: UserId, keep: nat, expected: nat, password: nat, now: int)
    ensures var (d, r) := ChangePassword(db, user, keep, expected, password, now);
      Changes(db, d, user, keep, expected, password, now, r)
  {
    var others := OpenSessionsOf(db, user) - {keep};
    assert others ==
      set s | s in db.sessions && s != keep && db.sessions[s].userId == user && db.sessions[s].revokedAt.None?;
    RevokeCloses(db, others, others, now, true);
    hide Revoke, OpenSessionsOf;
  }

  // ----- Administration and deletion -----

  /** Only the status of an account that is not deleted changes; a suspension also closes the
      user's sessions, which keep their push tokens. */
  ghost predicate SetsStatus(a: Db, b: Db, user: UserId, suspend: bool, now: int) {
    var status := if suspend then SUSPENDED else ACTIVE;
    if user !in a.users || a.users[user] == DELETED || a.users[user] == status then b == a
    else
      && b.users == a.users[user := status] && b.passwords == a.passwords && b.resets == a.resets
      && if suspend then ClosesOf(a, b, user, now, false)
         else b.next == a.next && b.sessions == a.sessions && b.tokens == a.tokens
  }

  lemma SetStatusMeans(db: Db, user: UserId, suspend: bool, now: int)
    ensures SetsStatus(db, SetStatus(db, user, suspend, now), user, suspend, now)
  {
    var d := db.(users := db.users[user := if suspend then SUSPENDED else ACTIVE]);
    RevokeClosesOf(db, user, now, false);
    SameTables(db, Revoke(db, OpenSessionsOf(db, user), SessionsOf(db, user), now, false),
      Revoke(d, OpenSessionsOf(db, user), SessionsOf(db, user), now, false), user, now, false);
    hide ClosesOf, OpenSessionsOf, SessionsOf;
  }

  predicate OwnedBy(a: Db, t: nat, user: UserId) {
    t in a.tokens && a.tokens[t].sessionId in a.sessions && a.sessions[a.tokens[t].sessionId].userId == user
  }

  /** A user's credential, reset tokens, sessions and their tokens go, and nobody else's. */
  ghost predicate Deletes(a: Db, b: Db, user: UserId) {
    if user !in a.users || a.users[user] == DELETED then b == a
    else
      && b.next == a.next && b.users == a.users[user := DELETED]
      && (forall u :: u in b.passwords <==> u in a.passwords && u != user)
      && (forall u :: u in b.passwords ==> b.passwords[u] == a.passwords[u])
      && (forall r :: r in b.resets <==> r in a.resets && a.resets[r].userId != user)
      && (forall r :: r in b.resets ==> b.resets[r] == a.resets[r])
      && (forall s :: s in b.sessions <==> s in a.sessions && a.sessions[s].userId != user)
      && (forall s :: s in b.sessions ==> b.sessions[s] == a.sessions[s])
      && (forall t :: t in b.tokens <==> t in a.tokens && !OwnedBy(a, t, user))
      && (forall t :: t in b.tokens ==> b.tokens[t] == a.tokens[t])
  }

  lemma FinalizeMeans(db: Db, user: UserId)
    ensures Deletes(db, Finalize(db, user), user)
  {
  }

  // ----- Push tokens -----

  /** The token moves to the caller's own open session, away from any other. */
  ghost predicate MovesPush(a: Db, b: Db, user: UserId, sid: nat, token: string, now: int, ok: bool) {
    && (ok <==> sid in a.sessions && a.sessions[sid].userId == user && a.sessions[sid].revokedAt.None?
                && now < a.sessions[sid].expiresAt)
    && (!ok ==> b == a)
    && (ok ==>
          && b == a.(sessions := b.sessions) && b.sessions.Keys == a.sessions.Keys
          && forall s :: s in a.sessions ==> b.sessions[s] == a.sessions[s].(pushToken :=
               if s == sid then Some(token)
               else if a.sessions[s].pushToken == Some(token) then None else a.sessions[s].pushToken))
  }

  lemma AttachPushMeans(db: Db, user: UserId, sid: nat, token: string, now: int)
    ensures var (d, ok) := AttachPushToken(db, user, sid, token, now); MovesPush(db, d, user, sid, token, now, ok)
  {
  }

  ghost predicate DropsPush(a: Db, b: Db, user: UserId, sid: nat) {
    && b == a.(sessions := b.sessions) && b.sessions.Keys == a.sessions.Keys
    && forall s :: s in a.sessions ==>
         b.sessions[s] ==
           if s == sid && a.sessions[s].userId == user then a.sessions[s].(pushToken := None) else a.sessions[s]
  }

  lemma DetachPushMeans(db: Db, user: UserId, sid: nat)
    ensures DropsPush(db, DetachPushToken(db, user, sid), user, sid)
  {
  }

  // ----- Inserts -----

  /** A session is inserted under a fresh id unless its user is missing or its key is taken. */
  ghost predicate Opens(a: Db, b: Db, user: UserId, deviceId: string, key: Option<string>, now: int, expiresAt: int,
      r: Result<nat, CreateError>)
  {
    && (r == Err(ForeignKeyViolation) <==> user !in a.users)
    && (r == Err(UniqueViolation) <==>
          user in a.users && key.Some? && exists s :: s in a.sessions && a.sessions[s].activeKey == key)
    && (r.Err? ==> b == a)
    && (r.Ok? ==> r.value == a.next && b == a.(next := a.next + 1,
          sessions := a.sessions[a.next := Session(user, deviceId, key, expiresAt, None, now, None)]))
  }

  /** A token is inserted under a fresh id unless its session is gone. */
  ghost predicate Issues(a: Db, b: Db, sid: nat, expiresAt: int, r: Result<nat, CreateError>) {
    && (r.Err? <==> sid !in a.sessions)
    && (r.Err? ==> b == a)
    && (r.Ok? ==> r.value == a.next && b == a.(next := a.next + 1,
          tokens := a.tokens[a.next := RefreshToken(sid, expiresAt, None, None)]))
  }

  /** A reset token is inserted for an existing user. */
  ghost predicate SendsReset(a: Db, b: Db, user: UserId, expiresAt: int) {
    if user !in a.users then b == a
    else b == a.(next := a.next + 1, resets := a.resets[a.next := ResetToken(user, expiresAt, None, None)])
  }

  /** A new user is active and has this password; an existing one keeps theirs. */
  ghost predicate Registers(a: Db, b: Db, user: UserId, password: nat) {
    if user in a.users then b == a
    else b == a.(users := a.users[user := ACTIVE], passwords := a.passwords[user := password])
  }
}
