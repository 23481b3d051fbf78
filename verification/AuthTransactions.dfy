/** The authentication tables and, for every transaction of the authentication
    repository, the single state change it commits. Each function here is the
    specification that the statement-by-statement method of `AuthRepository` is
    proved against, and the step that `AuthProtocol` interleaves. */
module AuthTransactions {
  import opened UserModel
  import opened Wrappers

  /** User ids are UUIDs; all that matters here is that they contain no ':'. */
  type UserId = u: string | ':' !in u witness ""

  /** `deviceId == ""` stands for both the missing and the empty device id. */
  datatype Session = Session(
    userId: UserId,
    deviceId: string,
    activeKey: Option<string>,
    expiresAt: int,
    revokedAt: Option<int>,
    lastSeenAt: int,
    pushToken: Option<string>)

  /** A refresh-token row is keyed by its hash, which no other row ever has. */
  datatype RefreshToken = RefreshToken(
    sessionId: nat,
    expiresAt: int,
    revokedAt: Option<int>,
    replacedById: Option<nat>)

  datatype ResetToken = ResetToken(
    userId: UserId,
    expiresAt: int,
    usedAt: Option<int>,
    revokedAt: Option<int>)

  /** `next` bounds every id ever issued; a fresh id is never issued again,
      not even after its row is deleted. */
  datatype Db = Db(
    next: nat,
    users: map<UserId, Status>,
    passwords: map<UserId, nat>,
    sessions: map<nat, Session>,
    tokens: map<nat, RefreshToken>,
    resets: map<nat, ResetToken>)

  predicate Live(t: RefreshToken) {
    t.revokedAt.None? && t.replacedById.None?
  }

  // ----- Revocation -----

  /** A timestamp that is only ever written where it is still null. */
  function FirstWrite(was: Option<int>, now: int): Option<int> {
    if was.Some? then was else Some(now)
  }

  function RevokeRow(s: Session, now: int, dropPush: bool): Session {
    s.(revokedAt := FirstWrite(s.revokedAt, now),
       activeKey := None,
       pushToken := if dropPush then None else s.pushToken)
  }

  function RevokeToken(t: RefreshToken, now: int): RefreshToken {
    t.(revokedAt := FirstWrite(t.revokedAt, now))
  }

  function RevokeRows(sessions: map<nat, Session>, hit: set<nat>, now: int, dropPush: bool): map<nat, Session> {
    map s | s in sessions :: if s in hit then RevokeRow(sessions[s], now, dropPush) else sessions[s]
  }

  function SweepTokens(tokens: map<nat, RefreshToken>, swept: set<nat>, now: int): map<nat, RefreshToken> {
    map t | t in tokens :: if tokens[t].sessionId in swept then RevokeToken(tokens[t], now) else tokens[t]
  }

  /** Every revoking transaction is of this shape: the sessions in `hit` are
      revoked, and the tokens of the sessions in `swept` are. */
  function Revoke(db: Db, hit: set<nat>, swept: set<nat>, now: int, dropPush: bool): Db {
    db.(sessions := RevokeRows(db.sessions, hit, now, dropPush), tokens := SweepTokens(db.tokens, swept, now))
  }

  function SessionsOf(db: Db, user: UserId): set<nat> {
    set s | s in db.sessions && db.sessions[s].userId == user
  }

  function OpenSessionsOf(db: Db, user: UserId): set<nat> {
    set s | s in db.sessions && db.sessions[s].userId == user && db.sessions[s].revokedAt.None?
  }

  function RevokeSession(db: Db, sid: nat, now: int): Db {
    Revoke(db, {sid}, {sid}, now, true)
  }

  function RevokeById(db: Db, user: UserId, sid: nat, now: int): (Db, bool) {
    if sid in db.sessions && db.sessions[sid].userId == user then (RevokeSession(db, sid, now), true)
    else (db, false)
  }

  /** The sessions `revokeActiveSessionForDevice` acts on: at most one, because
      `activeKey` has a unique index. */
  function HoldersOf(db: Db, user: UserId, key: string): set<nat> {
    set s | s in db.sessions && db.sessions[s].activeKey == Some(key)
            && db.sessions[s].userId == user && db.sessions[s].revokedAt.None?
  }

  function RevokeForDevice(db: Db, user: UserId, key: string, now: int): Db {
    var hit := HoldersOf(db, user, key);
    Revoke(db, hit, hit, now, true)
  }

  // ----- Login -----

  function ActiveKey(user: UserId, deviceId: string): Option<string> {
    if deviceId == "" then None else Some(user + ":" + deviceId)
  }

  predicate KeyTaken(db: Db, key: string) {
    exists s :: s in db.sessions && db.sessions[s].activeKey == Some(key)
  }

  datatype CreateError = UniqueViolation | ForeignKeyViolation

  function CreateSession(db: Db, user: UserId, deviceId: string, key: Option<string>, now: int, expiresAt: int)
    : (r: Result<(Db, nat), CreateError>)
  {
    if user !in db.users then Err(ForeignKeyViolation)
    else if key.Some? && KeyTaken(db, key.value) then Err(UniqueViolation)
    else
      var row := Session(user, deviceId, key, expiresAt, None, now, None);
      Ok((db.(next := db.next + 1, sessions := db.sessions[db.next := row]), db.next))
  }

  function CreateRefreshToken(db: Db, sid: nat, expiresAt: int): (r: Result<(Db, nat), CreateError>) {
    if sid !in db.sessions then Err(ForeignKeyViolation)
    else
      var row := RefreshToken(sid, expiresAt, None, None);
      Ok((db.(next := db.next + 1, tokens := db.tokens[db.next := row]), db.next))
  }

  // ----- Rotation -----

  datatype SwapResult = Swapped(next: nat) | AlreadyUsed | SessionGone

  /** The transaction inside `rotateRefreshToken`: insert the successor, then
      compare-and-set the presented token. A failed compare-and-set rolls the
      insert back. */
  function Swap(db: Db, hash: nat, sid: nat, expiresAt: int, now: int): (Db, SwapResult) {
    if sid !in db.sessions then (db, SessionGone)
    else if hash !in db.tokens || !Live(db.tokens[hash]) then (db, AlreadyUsed)
    else
      var n := db.next;
      var used := db.tokens[hash].(revokedAt := Some(now), replacedById := Some(n));
      (db.(next := n + 1,
           tokens := db.tokens[hash := used][n := RefreshToken(sid, expiresAt, None, None)],
           sessions := db.sessions[sid := db.sessions[sid].(lastSeenAt := now)]),
       Swapped(n))
  }

  // ----- Passwords -----

  datatype ResetResult = ResetOk(userId: UserId) | ResetInvalid | ResetExpired

  function RevokeOpenResets(resets: map<nat, ResetToken>, user: UserId, now: int): map<nat, ResetToken> {
    map r | r in resets ::
      if resets[r].userId == user && resets[r].usedAt.None?
        then resets[r].(revokedAt := FirstWrite(resets[r].revokedAt, now))
      else resets[r]
  }

  function ResetPassword(db: Db, hash: nat, password: nat, now: int): (Db, ResetResult) {
    if hash !in db.resets then (db, ResetInvalid)
    else
      var t := db.resets[hash];
      if t.revokedAt.Some? || t.usedAt.Some? then (db, ResetInvalid)
      else if t.expiresAt <= now then (db, ResetExpired)
      else
        var d := Revoke(db, OpenSessionsOf(db, t.userId), SessionsOf(db, t.userId), now, true);
        var resets := db.resets[hash := t.(usedAt := Some(now))];
        (d.(passwords := d.passwords[t.userId := password], resets := RevokeOpenResets(resets, t.userId, now)),
         ResetOk(t.userId))
  }

  datatype ChangeResult = ChangeOk | UserNotFound | PasswordNotSet | CurrentPasswordMismatch

  function ChangePassword(db: Db, user: UserId, keep: nat, expected: nat, password: nat, now: int): (Db, ChangeResult) {
    if user !in db.users then (db, UserNotFound)
    else if user !in db.passwords then (db, PasswordNotSet)
    else if db.passwords[user] != expected then (db, CurrentPasswordMismatch)
    else
      var others := OpenSessionsOf(db, user) - {keep};
      (Revoke(db, others, others, now, true).(passwords := db.passwords[user := password]), ChangeOk)
  }

  function IssueReset(db: Db, user: UserId, expiresAt: int): (Db, Option<nat>) {
    if user !in db.users then (db, None)
    else
      var row := ResetToken(user, expiresAt, None, None);
      (db.(next := db.next + 1, resets := db.resets[db.next := row]), Some(db.next))
  }

  // ----- Administration and deletion, as far as they touch these tables -----

  function SetStatus(db: Db, user: UserId, suspend: bool, now: int): Db {
    var status := if suspend then SUSPENDED else ACTIVE;
    if user !in db.users || db.users[user] == DELETED || db.users[user] == status then db
    else
      var d := db.(users := db.users[user := status]);
      if suspend then Revoke(d, OpenSessionsOf(db, user), SessionsOf(db, user), now, false) else d
  }

  function ResetsOfOthers(resets: map<nat, ResetToken>, user: UserId): map<nat, ResetToken> {
    map r | r in resets && resets[r].userId != user :: resets[r]
  }

  function TokensOutside(tokens: map<nat, RefreshToken>, gone: set<nat>): map<nat, RefreshToken> {
    map t | t in tokens && tokens[t].sessionId !in gone :: tokens[t]
  }

  /** Deleting a session cascades to its refresh tokens. */
  function Finalize(db: Db, user: UserId): Db {
    if user !in db.users || db.users[user] == DELETED then db
    else
      var gone := SessionsOf(db, user);
      db.(users := db.users[user := DELETED],
          passwords := db.passwords - {user},
          resets := ResetsOfOthers(db.resets, user),
          sessions := db.sessions - gone,
          tokens := TokensOutside(db.tokens, gone))
  }

  // ----- Push tokens -----

  function AttachPushToken(db: Db, user: UserId, sid: nat, token: string, now: int): (Db, bool) {
    if sid !in db.sessions || db.sessions[sid].userId != user || db.sessions[sid].revokedAt.Some?
       || db.sessions[sid].expiresAt <= now then (db, false)
    else
      (db.(sessions := map s | s in db.sessions ::
             if s == sid then db.sessions[s].(pushToken := Some(token))
             else if db.sessions[s].pushToken == Some(token) then db.sessions[s].(pushToken := None)
             else db.sessions[s]),
       true)
  }

  function DetachPushToken(db: Db, user: UserId, sid: nat): Db {
    if sid in db.sessions && db.sessions[sid].userId == user
    then db.(sessions := db.sessions[sid := db.sessions[sid].(pushToken := None)]) else db
  }

  function CreateUser(db: Db, user: UserId, password: nat): Db {
    if user in db.users then db
    else db.(users := db.users[user := ACTIVE], passwords := db.passwords[user := password])
  }
}
