/** The authentication repository over mutable tables. Each method runs the
    statements of one transaction in order; its contract says that together they
    commit exactly the state change named in `AuthTransactions`. */
module AuthRepository {
  import opened UserModel
  import opened Wrappers
  import opened AuthEffects
  import opened AuthTransactions

  /** Fresh ids are unused, and the unique index on `activeKey` holds. */
  ghost predicate Indexed(db: Db) {
    && (forall s :: s in db.sessions ==> s < db.next)
    && (forall t :: t in db.tokens ==> t < db.next)
    && (forall a, b :: a in db.sessions && b in db.sessions && a != b && db.sessions[a].activeKey.Some? ==>
          db.sessions[a].activeKey != db.sessions[b].activeKey)
  }

  lemma RevokeIndexed(db: Db, hit: set<nat>, swept: set<nat>, now: int, dropPush: bool)
    requires Indexed(db)
    ensures Indexed(Revoke(db, hit, swept, now, dropPush))
  {
  }

  lemma ResetIndexed(db: Db, hash: nat, password: nat, now: int)
    requires Indexed(db)
    ensures Indexed(ResetPassword(db, hash, password, now).0)
  {
    hide Revoke;
    if hash in db.resets {
      var user := db.resets[hash].userId;
      RevokeIndexed(db, OpenSessionsOf(db, user), SessionsOf(db, user), now, true);
    }
  }

  lemma ChangeIndexed(db: Db, user: UserId, keep: nat, expected: nat, password: nat, now: int)
    requires Indexed(db)
    ensures Indexed(ChangePassword(db, user, keep, expected, password, now).0)
  {
    hide Revoke;
    var others := OpenSessionsOf(db, user) - {keep};
    RevokeIndexed(db, others, others, now, true);
  }

  lemma StatusIndexed(db: Db, user: UserId, suspend: bool, now: int)
    requires Indexed(db)
    ensures Indexed(SetStatus(db, user, suspend, now))
  {
    hide Revoke;
    var d := db.(users := db.users[user := if suspend then SUSPENDED else ACTIVE]);
    RevokeIndexed(d, OpenSessionsOf(db, user), SessionsOf(db, user), now, false);
  }

  lemma SwapIndexed(db: Db, hash: nat, sid: nat, expiresAt: int, now: int)
    requires Indexed(db)
    ensures Indexed(Swap(db, hash, sid, expiresAt, now).0)
  {
  }

  lemma PushIndexed(db: Db, user: UserId, sid: nat, token: string, now: int)
    requires Indexed(db)
    ensures Indexed(AttachPushToken(db, user, sid, token, now).0)
  {
  }

  lemma DropIndexed(db: Db, user: UserId, sid: nat)
    requires Indexed(db)
    ensures Indexed(DetachPushToken(db, user, sid))
  {
  }

  lemma FinalizeIndexed(db: Db, user: UserId)
    requires Indexed(db)
    ensures Indexed(Finalize(db, user))
  {
  }

  /** Updating the one row a statement matches. */
  lemma RevokeOneRow(sessions: map<nat, Session>, sid: nat, now: int, dropPush: bool)
    ensures RevokeRows(sessions, {sid}, now, dropPush)
      == if sid in sessions then sessions[sid := RevokeRow(sessions[sid], now, dropPush)] else sessions
  {
  }

  lemma RevokeNothing(sessions: map<nat, Session>, tokens: map<nat, RefreshToken>, now: int, dropPush: bool)
    ensures RevokeRows(sessions, {}, now, dropPush) == sessions && SweepTokens(tokens, {}, now) == tokens
  {
  }

  /** At most one session holds an active key. */
  lemma OneHolder(db: Db, user: UserId, key: string, existing: nat)
    requires Indexed(db) && existing in db.sessions && db.sessions[existing].activeKey == Some(key)
    ensures HoldersOf(db, user, key) ==
      if db.sessions[existing].userId == user && db.sessions[existing].revokedAt.None? then {existing} else {}
  {
  }

  lemma RevokeForDeviceIndexed(db: Db, user: UserId, key: string, now: int)
    requires Indexed(db)
    ensures Indexed(RevokeForDevice(db, user, key, now))
  {
    hide Revoke;
    var hit := HoldersOf(db, user, key);
    RevokeIndexed(db, hit, hit, now, true);
  }

  lemma FreedByNobody(db: Db, user: UserId, key: string, now: int)
    requires (set s | s in db.sessions && db.sessions[s].activeKey == Some(key)) == {}
    ensures RevokeForDevice(db, user, key, now) == db
  {
    RevokeNothing(db.sessions, db.tokens, now, true);
    assert HoldersOf(db, user, key) <= (set s | s in db.sessions && db.sessions[s].activeKey == Some(key));
  }

  lemma FreedByHolder(db: Db, user: UserId, key: string, existing: nat, now: int)
    requires Indexed(db) && existing in db.sessions && db.sessions[existing].activeKey == Some(key)
    ensures RevokeForDevice(db, user, key, now) ==
      var row := db.sessions[existing];
      if row.userId != user || row.revokedAt.Some? then db
      else db.(sessions := db.sessions[existing :=
                 row.(revokedAt := Some(now), activeKey := None, pushToken := None)],
               tokens := SweepTokens(db.tokens, {existing}, now))
  {
    OneHolder(db, user, key, existing);
    hide HoldersOf, RevokeRows, SweepTokens;
    RevokeNothing(db.sessions, db.tokens, now, true);
    RevokeOneRow(db.sessions, existing, now, true);
  }

  // ----- Bulk statements -----

  /** UPDATE "Session" SET revokedAt = now, activeKey = NULL, pushToken = NULL WHERE id IN ids */
  function CloseRows(sessions: map<nat, Session>, ids: set<nat>, now: int): map<nat, Session> {
    map s | s in sessions ::
      if s in ids then sessions[s].(revokedAt := Some(now), activeKey := None, pushToken := None) else sessions[s]
  }

  lemma CloseOpenRows(db: Db, user: UserId, ids: set<nat>, now: int)
    requires ids <= OpenSessionsOf(db, user)
    ensures CloseRows(db.sessions, ids, now) == RevokeRows(db.sessions, ids, now, true)
  {
  }

  /** UPDATE "PasswordResetToken" SET revokedAt = now WHERE userId = user AND usedAt IS NULL AND revokedAt IS NULL */
  function CloseResets(resets: map<nat, ResetToken>, user: UserId, now: int): map<nat, ResetToken> {
    map r | r in resets ::
      if resets[r].userId == user && resets[r].usedAt == None && resets[r].revokedAt == None
      then resets[r].(revokedAt := Some(now)) else resets[r]
  }

  lemma CloseOpenResets(resets: map<nat, ResetToken>, user: UserId, now: int)
    ensures CloseResets(resets, user, now) == RevokeOpenResets(resets, user, now)
  {
  }

  /** UPDATE "Session" SET pushToken = NULL WHERE pushToken = token AND id <> sid */
  function TakePushToken(sessions: map<nat, Session>, token: string, sid: nat): map<nat, Session> {
    map s | s in sessions ::
      if sessions[s].pushToken == Some(token) && s != sid then sessions[s].(pushToken := None) else sessions[s]
  }

  lemma TakeThenAttach(db: Db, user: UserId, sid: nat, token: string, now: int)
    requires sid in db.sessions && AttachPushToken(db, user, sid, token, now).1
    ensures sid in TakePushToken(db.sessions, token, sid)
    ensures var taken := TakePushToken(db.sessions, token, sid);
      AttachPushToken(db, user, sid, token, now).0.sessions == taken[sid := taken[sid].(pushToken := Some(token))]
  {
  }

  /** INSERT of the successor, then the UPDATE of the presented token. */
  function SwappedRows(tokens: map<nat, RefreshToken>, hash: nat, sid: nat, expiresAt: int, now: int, n: nat)
    : map<nat, RefreshToken>
    requires hash in tokens
  {
    tokens[n := RefreshToken(sid, expiresAt, None, None)]
      [hash := tokens[hash].(revokedAt := Some(now), replacedById := Some(n))]
  }

  lemma SwappedTokens(tokens: map<nat, RefreshToken>, hash: nat, sid: nat, expiresAt: int, now: int, n: nat)
    requires hash in tokens && n !in tokens
    ensures var inserted := tokens[n := RefreshToken(sid, expiresAt, None, None)];
      inserted[hash := inserted[hash].(revokedAt := Some(now), replacedById := Some(n))]
        == SwappedRows(tokens, hash, sid, expiresAt, now, n)
  {
  }

  /** What the rotation commits, row by row. */
  lemma SwapRows(db: Db, hash: nat, sid: nat, expiresAt: int, now: int)
    requires Indexed(db)
    ensures db.next !in db.tokens
    ensures Swap(db, hash, sid, expiresAt, now) ==
      if sid !in db.sessions then (db, SessionGone)
      else if !(hash in db.tokens && db.tokens[hash].revokedAt == None && db.tokens[hash].replacedById == None)
      then (db, AlreadyUsed)
      else (Db(db.next + 1, db.users, db.passwords, db.sessions[sid := db.sessions[sid].(lastSeenAt := now)],
               SwappedRows(db.tokens, hash, sid, expiresAt, now, db.next), db.resets), Swapped(db.next))
  {
    if hash in db.tokens {
      var n := db.next;
      var used := db.tokens[hash].(revokedAt := Some(now), replacedById := Some(n));
      var row := RefreshToken(sid, expiresAt, None, None);
      assert n !in db.tokens;
      assert db.tokens[n := row][hash := used] == db.tokens[hash := used][n := row];
    }
  }

  class AuthRepository {
    var next: nat
    var users: map<UserId, Status>
    var passwords: map<UserId, nat>
    var sessions: map<nat, Session>
    var tokens: map<nat, RefreshToken>
    var resets: map<nat, ResetToken>

    function State(): Db
      reads this
    {
      Db(next, users, passwords, sessions, tokens, resets)
    }

    ghost predicate Valid()
      reads this
    {
      Indexed(State())
    }

    constructor ()
      ensures Valid() && State() == Db(0, map[], map[], map[], map[], map[])
    {
      next, users, passwords, sessions, tokens, resets := 0, map[], map[], map[], map[], map[];
    }

    // UPDATE "RefreshToken" SET revokedAt = now WHERE revokedAt IS NULL AND sessionId IN swept
    method RevokeTokensOf(swept: set<nat>, now: int)
      modifies this`tokens
      ensures tokens == SweepTokens(old(tokens), swept, now)
    {
      var rows := tokens;
      tokens := map t | t in rows ::
        if rows[t].revokedAt.None? && rows[t].sessionId in swept then rows[t].(revokedAt := Some(now)) else rows[t];
    }

    // UPDATE "Session" SET revokedAt = now, activeKey = NULL, ... WHERE userId = user AND revokedAt IS NULL
    method RevokeOpenSessionsOf(user: UserId, now: int, dropPush: bool)
      modifies this`sessions
      ensures sessions == RevokeRows(old(sessions), OpenSessionsOf(old(State()), user), now, dropPush)
      ensures SessionsOf(State(), user) == SessionsOf(old(State()), user)
    {
      var rows := sessions;
      sessions := map s | s in rows ::
        if rows[s].userId == user && rows[s].revokedAt == None
        then rows[s].(revokedAt := Some(now), activeKey := None, pushToken := if dropPush then None
          else rows[s].pushToken)
        else rows[s];
    }

    // UPDATE "RefreshToken" SET revokedAt = now WHERE revokedAt IS NULL AND session.userId = user
    method RevokeTokensOfUser(user: UserId, now: int)
      modifies this`tokens
      ensures tokens == SweepTokens(old(tokens), SessionsOf(old(State()), user), now)
    {
      RevokeTokensOf((set s | s in sessions && sessions[s].userId == user), now);
      assert (set s | s in sessions && sessions[s].userId == user) == SessionsOf(old(State()), user);
    }

    method RevokeSessionAndTokens(sid: nat, now: int)
      requires Valid()
      modifies this`sessions, this`tokens
      ensures Valid() && State() == RevokeSession(old(State()), sid, now)
      ensures Shuts(old(State()), State(), sid, now)
    {
      RevokeShuts(State(), sid, now);
      hide Shuts;
      RevokeOneRow(sessions, sid, now, true);
      RevokeIndexed(State(), {sid}, {sid}, now, true);
      hide Indexed, RevokeRows, SweepTokens;
      if sid in sessions {
        sessions := sessions[sid := sessions[sid].(activeKey := None, pushToken := None)];
      }
      if sid in sessions && sessions[sid].revokedAt.None? {
        sessions := sessions[sid := sessions[sid].(revokedAt := Some(now))];
      }
      assert sessions == RevokeRows(old(sessions), {sid}, now, true);
      RevokeTokensOf({sid}, now);
    }

    /** What happened to the tables while a call was awaited. */
    method Meanwhile(db: Db)
      requires Indexed(db)
      modifies this
      ensures Valid() && State() == db
    {
      next, users, passwords, sessions, tokens, resets := db.next, db.users, db.passwords, db.sessions, db.tokens,
        db.resets;
    }

    /** Two calls: the lookup, and on the tables as they are by then the revocation. */
    method RevokeSessionByRefreshTokenHash(hash: nat, now: int, later: Db) returns (found: bool)
      requires Valid() && Indexed(later)
      modifies this
      ensures Valid() && found == (hash in old(tokens))
      ensures State() == if found then RevokeSession(later, old(tokens)[hash].sessionId, now) else old(State())
      ensures found ==> Shuts(later, State(), old(tokens)[hash].sessionId, now)
    {
      hide Indexed;
      if hash !in tokens { return false; }
      var sessionId := tokens[hash].sessionId;
      Meanwhile(later);
      RevokeSessionAndTokens(sessionId, now);
      return true;
    }

    method RevokeSessionById(user: UserId, sid: nat, now: int) returns (ok: bool)
      requires Valid()
      modifies this`sessions, this`tokens
      ensures Valid() && (State(), ok) == RevokeById(old(State()), user, sid, now)
      ensures ShutsOwn(old(State()), State(), user, sid, now, ok)
    {
      RevokeByIdMeans(State(), user, sid, now);
      hide ShutsOwn;
      RevokeOneRow(sessions, sid, now, true);
      RevokeIndexed(State(), {sid}, {sid}, now, true);
      hide Indexed, RevokeRows, SweepTokens;
      if sid !in sessions || sessions[sid].userId != user { return false; }
      if sessions[sid].revokedAt == None {
        sessions := sessions[sid := sessions[sid].(revokedAt := Some(now), activeKey := None, pushToken := None)];
      } else {
        sessions := sessions[sid := sessions[sid].(activeKey := None, pushToken := None)];
      }
      assert sessions == RevokeRows(old(sessions), {sid}, now, true);
      RevokeTokensOf({sid}, now);
      return true;
    }

    method RevokeActiveSessionForDevice(user: UserId, key: string, now: int)
      requires Valid()
      modifies this`sessions, this`tokens
      ensures Valid() && State() == RevokeForDevice(old(State()), user, key, now)
      ensures FreesDevice(old(State()), State(), user, key, now)
    {
      RevokeForDeviceMeans(State(), user, key, now);
      hide FreesDevice;
      RevokeForDeviceIndexed(State(), user, key, now);
      ghost var db := State();
      var rows := sessions;
      var matching := set s | s in rows && rows[s].activeKey == Some(key);
      if matching == {} {
        FreedByNobody(db, user, key, now);
        return;
      }
      var existing :| existing in matching;
      FreedByHolder(db, user, key, existing, now);
      hide Indexed, RevokeForDevice, SweepTokens;
      if sessions[existing].userId != user || sessions[existing].revokedAt != None { return; }
      sessions := sessions[existing := sessions[existing].(revokedAt := Some(now), activeKey := None,
        pushToken := None)];
      RevokeTokensOf({existing}, now);
    }

    method Create(user: UserId, deviceId: string, activeKey: Option<string>, now: int, expiresAt: int)
      returns (r: Result<nat, CreateError>)
      requires Valid()
      modifies this`sessions, this`next
      ensures Valid()
      ensures Opens(old(State()), State(), user, deviceId, activeKey, now, expiresAt, r)
      ensures match CreateSession(old(State()), user, deviceId, activeKey, now, expiresAt)
              case Ok(p) => State() == p.0 && r == Ok(p.1)
              case Err(e) => State() == old(State()) && r == Err(e)
    {
      if user !in users { return Err(ForeignKeyViolation); }
      if activeKey.Some? && exists s :: s in sessions && sessions[s].activeKey == activeKey {
        assert KeyTaken(State(), activeKey.value);
        return Err(UniqueViolation);
      }
      assert activeKey.Some? ==> !KeyTaken(State(), activeKey.value);
      var id := next;
      sessions := sessions[id := Session(user, deviceId, activeKey, expiresAt, None, now, None)];
      next := next + 1;
      return Ok(id);
    }

    method CreateToken(sid: nat, expiresAt: int) returns (r: Result<nat, CreateError>)
      requires Valid()
      modifies this`tokens, this`next
      ensures Valid()
      ensures Issues(old(State()), State(), sid, expiresAt, r)
      ensures match CreateRefreshToken(old(State()), sid, expiresAt)
              case Ok(p) => State() == p.0 && r == Ok(p.1)
              case Err(e) => State() == old(State()) && r == Err(e)
    {
      if sid !in sessions { return Err(ForeignKeyViolation); }
      var id := next;
      tokens := tokens[id := RefreshToken(sid, expiresAt, None, None)];
      next := next + 1;
      return Ok(id);
    }

    /** The rotation transaction; on a lost race it is rolled back, inserted row and all. */
    method RotationTransaction(hash: nat, sid: nat, expiresAt: int, now: int) returns (r: SwapResult)
      requires Valid()
      modifies this`tokens, this`sessions, this`next
      ensures Valid() && (State(), r) == Swap(old(State()), hash, sid, expiresAt, now)
      ensures Swaps(old(State()), State(), hash, sid, expiresAt, now, r)
    {
      SwapSucceeds(State(), hash, sid, expiresAt, now);
      SwapIndexed(State(), hash, sid, expiresAt, now);
      SwapRows(State(), hash, sid, expiresAt, now);
      hide Indexed, Swap, Swaps, SwappedRows;
      if sid !in sessions { return SessionGone; }
      // the rows as the transaction sees them, until it commits or rolls back
      var rows := tokens;
      var successor := next;
      rows := rows[successor := RefreshToken(sid, expiresAt, None, None)];
      var updated := 0;
      if hash in tokens && rows[hash].revokedAt == None && rows[hash].replacedById == None {
        rows := rows[hash := rows[hash].(revokedAt := Some(now), replacedById := Some(successor))];
        updated := 1;
      }
      if updated != 1 { return AlreadyUsed; }
      SwappedTokens(tokens, hash, sid, expiresAt, now, successor);
      next, tokens, sessions := next + 1, rows, sessions[sid := sessions[sid].(lastSeenAt := now)];
      return Swapped(successor);
    }

    method ResetPasswordByTokenHash(hash: nat, password: nat, now: int) returns (r: ResetResult)
      requires Valid()
      modifies this
      ensures Valid() && (State(), r) == ResetPassword(old(State()), hash, password, now)
      ensures Resets(old(State()), State(), hash, password, now, r)
    {
      ResetMeans(State(), hash, password, now);
      hide Resets;
      ResetIndexed(State(), hash, password, now);
      hide Indexed, RevokeRows, SweepTokens, OpenSessionsOf, RevokeOpenResets, CloseResets;
      if hash !in resets { return ResetInvalid; }
      var token := resets[hash];
      if token.revokedAt != None || token.usedAt != None { return ResetInvalid; }
      if token.expiresAt <= now { return ResetExpired; }
      var user := token.userId;
      resets := resets[hash := token.(usedAt := Some(now))];
      passwords := passwords[user := password];
      RevokeOpenSessionsOf(user, now, true);
      RevokeTokensOfUser(user, now);
      CloseOpenResets(resets, user, now);
      resets := CloseResets(resets, user, now);
      return ResetOk(user);
    }

    method ChangePasswordAndRevokeOtherSessions(user: UserId, sid: nat, expected: nat, password: nat, now: int)
      returns (r: ChangeResult)
      requires Valid()
      modifies this
      ensures Valid() && (State(), r) == ChangePassword(old(State()), user, sid, expected, password, now)
      ensures Changes(old(State()), State(), user, sid, expected, password, now, r)
    {
      ChangeMeans(State(), user, sid, expected, password, now);
      hide Changes;
      ChangeIndexed(State(), user, sid, expected, password, now);
      RevokeNothing(sessions, tokens, now, true);
      hide Indexed, SweepTokens;
      if user !in users { return UserNotFound; }
      if user !in passwords { return PasswordNotSet; }
      if passwords[user] != expected { return CurrentPasswordMismatch; }
      passwords := passwords[user := password];
      var rows := sessions;
      var others := set s | s in rows && rows[s].userId == user && s != sid && rows[s].revokedAt == None;
      assert others == OpenSessionsOf(old(State()), user) - {sid};
      if others == {} { return ChangeOk; }
      CloseOpenRows(old(State()), user, others, now);
      hide RevokeRows, OpenSessionsOf, CloseRows;
      sessions := CloseRows(sessions, others, now);
      RevokeTokensOf(others, now);
      return ChangeOk;
    }

    method SetUserStatus(user: UserId, suspend: bool, now: int)
      requires Valid()
      modifies this
      ensures Valid() && State() == SetStatus(old(State()), user, suspend, now)
      ensures SetsStatus(old(State()), State(), user, suspend, now)
    {
      SetStatusMeans(State(), user, suspend, now);
      hide SetsStatus;
      StatusIndexed(State(), user, suspend, now);
      hide Indexed, RevokeRows, SweepTokens;
      var status := if suspend then SUSPENDED else ACTIVE;
      if user !in users || users[user] == DELETED || users[user] == status { return; }
      users := users[user := status];
      if suspend {
        RevokeOpenSessionsOf(user, now, false);
        RevokeTokensOfUser(user, now);
      }
    }

    method UpsertSessionPushToken(user: UserId, sid: nat, token: string, now: int) returns (ok: bool)
      requires Valid()
      modifies this`sessions
      ensures Valid() && (State(), ok) == AttachPushToken(old(State()), user, sid, token, now)
      ensures MovesPush(old(State()), State(), user, sid, token, now, ok)
    {
      AttachPushMeans(State(), user, sid, token, now);
      hide MovesPush;
      PushIndexed(State(), user, sid, token, now);
      hide Indexed;
      if sid !in sessions || sessions[sid].userId != user
         || sessions[sid].revokedAt != None || sessions[sid].expiresAt <= now {
        return false;
      }
      TakeThenAttach(State(), user, sid, token, now);
      sessions := TakePushToken(sessions, token, sid);
      sessions := sessions[sid := sessions[sid].(pushToken := Some(token))];
      return true;
    }

    method RevokeSessionPushToken(user: UserId, sid: nat)
      requires Valid()
      modifies this`sessions
      ensures Valid() && State() == DetachPushToken(old(State()), user, sid)
      ensures DropsPush(old(State()), State(), user, sid)
    {
      DetachPushMeans(State(), user, sid);
      hide DropsPush;
      DropIndexed(State(), user, sid);
      hide Indexed;
      if sid in sessions && sessions[sid].userId == user {
        sessions := sessions[sid := sessions[sid].(pushToken := None)];
      }
    }

    /** The part of account finalization that touches these tables. */
    method FinalizeDeletion(user: UserId)
      requires Valid()
      modifies this
      ensures Valid() && State() == Finalize(old(State()), user)
      ensures Deletes(old(State()), State(), user)
    {
      FinalizeMeans(State(), user);
      hide Deletes;
      FinalizeIndexed(State(), user);
      hide Indexed, ResetsOfOthers, TokensOutside;
      if user !in users || users[user] == DELETED { return; }
      users := users[user := DELETED];
      passwords := passwords - {user};
      resets := ResetsOfOthers(resets, user);
      var rows := sessions;
      var deleted := set s | s in rows && rows[s].userId == user;
      assert deleted == SessionsOf(old(State()), user);
      sessions := sessions - deleted;
      tokens := TokensOutside(tokens, deleted);
    }
  }
}
