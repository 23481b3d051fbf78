/** The invariant of the session protocol is inductive: every transaction keeps the
    tables' part, every step of one request keeps what all the others rely on. */
module AuthInvariants {
  import opened UserModel
  import opened Wrappers
  import opened AuthTransactions
  import opened AuthProtocol

  lemma ChainFrame(a: map<nat, RefreshToken>, b: map<nat, RefreshToken>, sid: nat)
    requires HasChain(a, sid)
    requires forall t :: (t in a && a[t].sessionId == sid) <==> (t in b && b[t].sessionId == sid)
    requires forall t :: t in b && b[t].sessionId == sid ==>
      b[t].replacedById == a[t].replacedById && Kept(a[t].revokedAt, b[t].revokedAt)
    ensures HasChain(b, sid)
  {
    var c :| Chain(a, sid, c);
    forall i | 0 <= i < |c| - 1
      ensures Linked(b, c, i)
    {
      assert Linked(a, c, i) && c[i] in c;
    }
    assert c != [] ==> c[|c| - 1] in c;
    assert Chain(b, sid, c);
  }

  lemma RevokeKeeps(a: Db, hit: set<nat>, swept: set<nat>, now: int, dropPush: bool)
    requires DbInv(a) && hit <= swept
    ensures var b := Revoke(a, hit, swept, now, dropPush); DbInv(b) && Evolves(a, b, {})
  {
    hide Tables, Unique, Chained, OnlyLateTokensLive, Evolves, Revoke;
    RevokeTables(a, hit, swept, now, dropPush);
    RevokeUnique(a, hit, swept, now, dropPush);
    RevokeLate(a, hit, swept, now, dropPush);
    RevokeEvolves(a, hit, swept, now, dropPush);
    RevokeChains(a, hit, swept, now, dropPush);
  }

  lemma RevokeChains(a: Db, hit: set<nat>, swept: set<nat>, now: int, dropPush: bool)
    requires Chained(a)
    ensures Chained(Revoke(a, hit, swept, now, dropPush))
  {
    hide HasChain;
    var b := Revoke(a, hit, swept, now, dropPush);
    forall sid | sid in b.sessions
      ensures HasChain(b.tokens, sid)
    {
      ChainFrame(a.tokens, b.tokens, sid);
    }
  }

  lemma RevokeTables(a: Db, hit: set<nat>, swept: set<nat>, now: int, dropPush: bool)
    requires Tables(a)
    ensures Tables(Revoke(a, hit, swept, now, dropPush))
  {
    var b := Revoke(a, hit, swept, now, dropPush);
    forall s | s in b.sessions ensures SessionOk(b, s) { assert SessionOk(a, s); }
    forall t | t in b.tokens ensures TokenOk(b, t) { assert TokenOk(a, t); }
  }

  lemma RevokeUnique(a: Db, hit: set<nat>, swept: set<nat>, now: int, dropPush: bool)
    requires Unique(a)
    ensures Unique(Revoke(a, hit, swept, now, dropPush))
  {
    var b := Revoke(a, hit, swept, now, dropPush);
    forall s, t | s in b.sessions && t in b.sessions && s != t
      ensures !SameKey(b.sessions[s], b.sessions[t])
    {
      assert !SameKey(a.sessions[s], a.sessions[t]);
    }
  }

  lemma RevokeLate(a: Db, hit: set<nat>, swept: set<nat>, now: int, dropPush: bool)
    requires Tables(a) && OnlyLateTokensLive(a) && hit <= swept
    ensures OnlyLateTokensLive(Revoke(a, hit, swept, now, dropPush))
  {
    var b := Revoke(a, hit, swept, now, dropPush);
    forall t | t in b.tokens && Orphan(b, t)
      ensures Sole(b, t)
    {
      assert TokenOk(a, t) && Orphan(a, t) && Sole(a, t);
    }
  }

  lemma RevokeEvolves(a: Db, hit: set<nat>, swept: set<nat>, now: int, dropPush: bool)
    requires hit <= swept
    ensures Evolves(a, Revoke(a, hit, swept, now, dropPush), {})
  {
  }

  lemma RevokeForDeviceKeeps(a: Db, user: UserId, key: string, now: int)
    requires DbInv(a)
    ensures var b := RevokeForDevice(a, user, key, now); DbInv(b) && Evolves(a, b, {})
  {
    var hit := HoldersOf(a, user, key);
    RevokeKeeps(a, hit, hit, now, true);
  }

  lemma CreateSessionKeeps(a: Db, user: UserId, deviceId: string, now: int, expiresAt: int)
    requires DbInv(a) && CreateSession(a, user, deviceId, ActiveKey(user, deviceId), now, expiresAt).Ok?
    ensures var (b, sid) := CreateSession(a, user, deviceId, ActiveKey(user, deviceId), now, expiresAt).value;
      DbInv(b) && Evolves(a, b, {}) && !OwnsTokens(b, sid) && b.sessions[sid].expiresAt == expiresAt
  {
    var (b, sid) := CreateSession(a, user, deviceId, ActiveKey(user, deviceId), now, expiresAt).value;
    CreateSessionTables(a, user, deviceId, now, expiresAt);
    CreateSessionUnique(a, user, deviceId, now, expiresAt);
    CreateSessionRest(a, user, deviceId, now, expiresAt);
    assert Chain(b.tokens, sid, []);
  }

  lemma CreateSessionRest(a: Db, user: UserId, deviceId: string, now: int, expiresAt: int)
    requires Tables(a) && OnlyLateTokensLive(a)
    requires CreateSession(a, user, deviceId, ActiveKey(user, deviceId), now, expiresAt).Ok?
    ensures var (b, sid) := CreateSession(a, user, deviceId, ActiveKey(user, deviceId), now, expiresAt).value;
      OnlyLateTokensLive(b) && Evolves(a, b, {}) && !OwnsTokens(b, sid)
  {
    var (b, sid) := CreateSession(a, user, deviceId, ActiveKey(user, deviceId), now, expiresAt).value;
    forall t | t in a.tokens
      ensures a.tokens[t].sessionId < sid
    {
      assert TokenOk(a, t) && SessionOk(a, a.tokens[t].sessionId);
    }
    forall s | s in a.sessions ensures s < sid { assert SessionOk(a, s); }
    forall t | t in b.tokens && Orphan(b, t) ensures Sole(b, t) { assert Orphan(a, t) && Sole(a, t); }
  }

  lemma CreateSessionTables(a: Db, user: UserId, deviceId: string, now: int, expiresAt: int)
    requires Tables(a) && CreateSession(a, user, deviceId, ActiveKey(user, deviceId), now, expiresAt).Ok?
    ensures Tables(CreateSession(a, user, deviceId, ActiveKey(user, deviceId), now, expiresAt).value.0)
  {
    var (b, sid) := CreateSession(a, user, deviceId, ActiveKey(user, deviceId), now, expiresAt).value;
    forall s | s in b.sessions ensures SessionOk(b, s) { assert s != sid ==> SessionOk(a, s); }
    forall t | t in b.tokens ensures TokenOk(b, t) { assert TokenOk(a, t) && SessionOk(a, a.tokens[t].sessionId); }
  }

  lemma CreateSessionUnique(a: Db, user: UserId, deviceId: string, now: int, expiresAt: int)
    requires Tables(a) && Unique(a) && CreateSession(a, user, deviceId, ActiveKey(user, deviceId), now, expiresAt).Ok?
    ensures Unique(CreateSession(a, user, deviceId, ActiveKey(user, deviceId), now, expiresAt).value.0)
  {
    var (b, sid) := CreateSession(a, user, deviceId, ActiveKey(user, deviceId), now, expiresAt).value;
    forall s, t | s in b.sessions && t in b.sessions && s != t
      ensures !SameKey(b.sessions[s], b.sessions[t])
    {
      if s != sid && t != sid { assert !SameKey(a.sessions[s], a.sessions[t]); }
    }
  }

  lemma CreateTokenKeeps(a: Db, sid: nat, expiresAt: int)
    requires DbInv(a) && !OwnsTokens(a, sid)
    requires sid in a.sessions && a.sessions[sid].expiresAt == expiresAt
    ensures var b := CreateRefreshToken(a, sid, expiresAt).value.0; DbInv(b) && Evolves(a, b, {sid})
  {
    hide Tables, Unique, Chained, OnlyLateTokensLive, Evolves, OwnsTokens;
    CreateTokenTables(a, sid, expiresAt);
    CreateTokenRest(a, sid, expiresAt);
    CreateTokenChains(a, sid, expiresAt);
    assert Unique(CreateRefreshToken(a, sid, expiresAt).value.0) by { SameSessionsUnique(a, CreateRefreshToken(a,
      sid, expiresAt).value.0); }
  }

  lemma SameSessionsUnique(a: Db, b: Db)
    requires Unique(a) && b.sessions == a.sessions
    ensures Unique(b)
  {
  }

  lemma CreateTokenChains(a: Db, sid: nat, expiresAt: int)
    requires Tables(a) && Chained(a) && !OwnsTokens(a, sid) && sid in a.sessions
    ensures Chained(CreateRefreshToken(a, sid, expiresAt).value.0)
  {
    var (b, n) := CreateRefreshToken(a, sid, expiresAt).value;
    forall t | t in a.tokens ensures t < a.next && a.tokens[t].sessionId != sid { assert TokenOk(a, t); }
    assert Chain(b.tokens, sid, [n]);
    forall s | s in b.sessions && s != sid
      ensures HasChain(b.tokens, s)
    {
      ChainFrame(a.tokens, b.tokens, s);
    }
  }

  lemma CreateTokenTables(a: Db, sid: nat, expiresAt: int)
    requires Tables(a) && sid in a.sessions && a.sessions[sid].expiresAt == expiresAt
    ensures Tables(CreateRefreshToken(a, sid, expiresAt).value.0)
  {
    var (b, n) := CreateRefreshToken(a, sid, expiresAt).value;
    forall t | t in b.tokens ensures TokenOk(b, t) { assert t != n ==> TokenOk(a, t); }
    forall s | s in b.sessions ensures SessionOk(b, s) { assert SessionOk(a, s); }
  }

  lemma CreateTokenRest(a: Db, sid: nat, expiresAt: int)
    requires Tables(a) && OnlyLateTokensLive(a) && !OwnsTokens(a, sid) && sid in a.sessions
    ensures var b := CreateRefreshToken(a, sid, expiresAt).value.0; OnlyLateTokensLive(b) && Evolves(a, b, {sid})
  {
    var (b, n) := CreateRefreshToken(a, sid, expiresAt).value;
    forall t | t in a.tokens ensures t < a.next && a.tokens[t].sessionId != sid { assert TokenOk(a, t); }
    forall t | t in b.tokens && Orphan(b, t)
      ensures Sole(b, t)
    {
      if t != n { assert Orphan(a, t) && Sole(a, t); }
    }
  }

  /** The presented token is the last of its chain, and its successor becomes the last. */
  lemma SwapExtendsChain(a: Db, hash: nat, sid: nat, expiresAt: int, now: int, c: seq<nat>)
    requires Tables(a) && Swap(a, hash, sid, expiresAt, now).1.Swapped? && a.tokens[hash].sessionId == sid
    requires Chain(a.tokens, sid, c)
    ensures c != [] && c[|c| - 1] == hash
    ensures Chain(Swap(a, hash, sid, expiresAt, now).0.tokens, sid, c + [a.next])
  {
    assert hash in c;
    var i :| 0 <= i < |c| && c[i] == hash;
    assert i < |c| - 1 ==> Linked(a.tokens, c, i);
    assert i == |c| - 1;
    var b := Swap(a, hash, sid, expiresAt, now).0;
    var d := c + [a.next];
    forall t | t in a.tokens ensures t < a.next { assert TokenOk(a, t); }
    forall j | 0 <= j < |d| - 1
      ensures Linked(b.tokens, d, j)
    {
      if j < |c| - 1 { assert Linked(a.tokens, c, j) && d[j] == c[j] && d[j + 1] == c[j + 1] && c[j] != hash; }
    }
    forall t
      ensures t in d <==> t in b.tokens && b.tokens[t].sessionId == sid
    {
      assert t in d <==> t in c || t == a.next;
    }
    forall k | 0 <= k < |c| ensures c[k] != a.next { assert c[k] in c; }
  }

  lemma SwapChains(a: Db, hash: nat, sid: nat, expiresAt: int, now: int)
    requires Tables(a) && Chained(a)
    requires Swap(a, hash, sid, expiresAt, now).1.Swapped? && a.tokens[hash].sessionId == sid
    ensures Chained(Swap(a, hash, sid, expiresAt, now).0)
  {
    hide Chain;
    var b := Swap(a, hash, sid, expiresAt, now).0;
    forall t | t in a.tokens ensures t < a.next { assert TokenOk(a, t); }
    forall s | s in b.sessions
      ensures HasChain(b.tokens, s)
    {
      if s == sid { SwapChain(a, hash, sid, expiresAt, now); } else { ChainFrame(a.tokens, b.tokens, s); }
    }
  }

  lemma SwapChain(a: Db, hash: nat, sid: nat, expiresAt: int, now: int)
    requires Tables(a) && Chained(a)
    requires Swap(a, hash, sid, expiresAt, now).1.Swapped? && a.tokens[hash].sessionId == sid
    ensures HasChain(Swap(a, hash, sid, expiresAt, now).0.tokens, sid)
  {
    hide Chain, Tables;
    var c :| Chain(a.tokens, sid, c);
    SwapExtendsChain(a, hash, sid, expiresAt, now, c);
  }

  lemma SwapKeeps(a: Db, hash: nat, sid: nat, expiresAt: int, now: int)
    requires DbInv(a) && ProcInv(a, RotateSwap(hash, sid, expiresAt, now))
    requires Swap(a, hash, sid, expiresAt, now).1.Swapped?
    ensures var (b, r) := Swap(a, hash, sid, expiresAt, now);
      DbInv(b) && Evolves(a, b, {}) && ProcInv(b, Done(Rotated(hash, sid, r.next)))
  {
    hide Evolves, Unique, Chained, OnlyLateTokensLive;
    SwapChains(a, hash, sid, expiresAt, now);
    SwapTables(a, hash, sid, expiresAt, now);
    SwapUnique(a, hash, sid, expiresAt, now);
    SwapLate(a, hash, sid, expiresAt, now);
    SwapEvolves(a, hash, sid, expiresAt, now);
    assert TokenOk(a, hash);
  }

  lemma SwapTables(a: Db, hash: nat, sid: nat, expiresAt: int, now: int)
    requires Tables(a) && ProcInv(a, RotateSwap(hash, sid, expiresAt, now))
    requires Swap(a, hash, sid, expiresAt, now).1.Swapped?
    ensures Tables(Swap(a, hash, sid, expiresAt, now).0)
  {
    var b := Swap(a, hash, sid, expiresAt, now).0;
    assert TokenOk(a, hash);
    forall s | s in b.sessions ensures SessionOk(b, s) { assert SessionOk(a, s); }
    forall t | t in b.tokens ensures TokenOk(b, t) { assert t in a.tokens ==> TokenOk(a, t); }
  }

  lemma SwapUnique(a: Db, hash: nat, sid: nat, expiresAt: int, now: int)
    requires Unique(a)
    ensures Unique(Swap(a, hash, sid, expiresAt, now).0)
  {
    var b := Swap(a, hash, sid, expiresAt, now).0;
    forall s, t | s in b.sessions && t in b.sessions && s != t
      ensures !SameKey(b.sessions[s], b.sessions[t])
    {
      assert !SameKey(a.sessions[s], a.sessions[t]);
    }
  }

  lemma SwapLate(a: Db, hash: nat, sid: nat, expiresAt: int, now: int)
    requires Tables(a) && OnlyLateTokensLive(a) && ProcInv(a, RotateSwap(hash, sid, expiresAt, now))
    requires Swap(a, hash, sid, expiresAt, now).1.Swapped?
    ensures OnlyLateTokensLive(Swap(a, hash, sid, expiresAt, now).0)
  {
    var b := Swap(a, hash, sid, expiresAt, now).0;
    forall t | t in a.tokens ensures t < a.next { assert TokenOk(a, t); }
    forall t | t in b.tokens && Orphan(b, t)
      ensures Sole(b, t)
    {
      assert Orphan(a, t) && Sole(a, t) && a.tokens[t].sessionId != sid;
    }
  }

  lemma SwapEvolves(a: Db, hash: nat, sid: nat, expiresAt: int, now: int)
    requires Tables(a) && ProcInv(a, RotateSwap(hash, sid, expiresAt, now))
    requires Swap(a, hash, sid, expiresAt, now).1.Swapped?
    ensures Evolves(a, Swap(a, hash, sid, expiresAt, now).0, {})
  {
    SwapTokensEvolve(a, hash, sid, expiresAt, now);
    SwapOthersEvolve(a, hash, sid, expiresAt, now);
    hide Tables, TokensEvolve, SessionsEvolve, RevocationSweeps, ResetsEvolve;
  }

  lemma SwapTokensEvolve(a: Db, hash: nat, sid: nat, expiresAt: int, now: int)
    requires Tables(a) && ProcInv(a, RotateSwap(hash, sid, expiresAt, now))
    requires Swap(a, hash, sid, expiresAt, now).1.Swapped?
    ensures TokensEvolve(a, Swap(a, hash, sid, expiresAt, now).0, {})
  {
    forall t | t in a.tokens ensures t < a.next { assert TokenOk(a, t); }
    hide Tables;
    assert OwnsTokens(a, sid);
    hide OwnsTokens;
  }

  lemma SwapOthersEvolve(a: Db, hash: nat, sid: nat, expiresAt: int, now: int)
    requires Swap(a, hash, sid, expiresAt, now).1.Swapped?
    ensures var b := Swap(a, hash, sid, expiresAt, now).0;
      SessionsEvolve(a, b) && RevocationSweeps(a, b) && ResetsEvolve(a, b)
  {
  }

  lemma RevokeByIdKeeps(a: Db, user: UserId, sid: nat, now: int)
    requires DbInv(a)
    ensures var b := RevokeById(a, user, sid, now).0; DbInv(b) && Evolves(a, b, {})
  {
    hide DbInv, Evolves;
    ReadOnly(a);
    RevokeKeeps(a, {sid}, {sid}, now, true);
  }

  lemma TablesOf(db: Db)
    requires DbInv(db)
    ensures Tables(db)
  {
  }

  lemma ResetKeeps(a: Db, hash: nat, password: nat, now: int)
    requires DbInv(a)
    ensures var (b, r) := ResetPassword(a, hash, password, now);
      DbInv(b) && Evolves(a, b, {}) && (r.ResetOk? ==> ProcInv(b, Done(PasswordWasReset(hash, r.userId))))
  {
    hide DbInv, Evolves;
    ReadOnly(a);
    TablesOf(a);
    if ResetPassword(a, hash, password, now).1.ResetOk? {
      var user := a.resets[hash].userId;
      var d := Revoke(a, OpenSessionsOf(a, user), SessionsOf(a, user), now, true);
      RevokeKeeps(a, OpenSessionsOf(a, user), SessionsOf(a, user), now, true);
      OtherTablesChange(a, d, ResetPassword(a, hash, password, now).0);
    }
  }

  lemma ChangeKeeps(a: Db, user: UserId, keep: nat, expected: nat, password: nat, now: int)
    requires DbInv(a)
    ensures var b := ChangePassword(a, user, keep, expected, password, now).0; DbInv(b) && Evolves(a, b, {})
  {
    hide DbInv, Evolves;
    ReadOnly(a);
    var others := OpenSessionsOf(a, user) - {keep};
    var (b, r) := ChangePassword(a, user, keep, expected, password, now);
    if r.ChangeOk? {
      RevokeKeeps(a, others, others, now, true);
      OtherTablesChange(a, Revoke(a, others, others, now, true), b);
    }
  }

  lemma StatusKeeps(a: Db, user: UserId, suspend: bool, now: int)
    requires DbInv(a)
    ensures var b := SetStatus(a, user, suspend, now); DbInv(b) && Evolves(a, b, {})
  {
    hide DbInv, Evolves;
    ReadOnly(a);
    var b := SetStatus(a, user, suspend, now);
    if b != a {
      RevokeKeeps(a, OpenSessionsOf(a, user), SessionsOf(a, user), now, false);
      OtherTablesChange(a, if suspend then Revoke(a, OpenSessionsOf(a, user), SessionsOf(a, user), now, false)
        else a, b);
    }
  }

  /** A further change, on the way from `a` to `b`, that leaves sessions and tokens alone. */
  lemma OtherTablesChange(a: Db, d: Db, b: Db)
    requires DbInv(d) && Evolves(a, d, {})
    requires b.sessions == d.sessions && b.tokens == d.tokens && d.users.Keys <= b.users.Keys && d.next <= b.next
    requires ResetsEvolve(a, b) && forall r :: r in b.resets ==> r in d.resets || r < b.next
    ensures DbInv(b) && Evolves(a, b, {})
  {
    hide Chained, Unique;
    forall s | s in b.sessions ensures SessionOk(b, s) { assert SessionOk(d, s); }
    forall t | t in b.tokens ensures TokenOk(b, t) { assert TokenOk(d, t); }
    forall t | t in b.tokens && Orphan(b, t) ensures Sole(b, t) { assert Orphan(d, t) && Sole(d, t); }
    SameChains(d, b);
  }

  lemma SameChains(a: Db, b: Db)
    requires Chained(a) && Unique(a) && b.sessions == a.sessions && b.tokens == a.tokens
    ensures Chained(b) && Unique(b)
  {
  }

  lemma FinalizeKeeps(a: Db, user: UserId)
    requires DbInv(a)
    ensures var b := Finalize(a, user); DbInv(b) && Evolves(a, b, {})
  {
    if user in a.users && a.users[user] != DELETED {
      var b := Finalize(a, user);
      FinalizeTables(a, user);
      FinalizeLate(a, user);
      forall s, t | s in b.sessions && t in b.sessions && s != t
        ensures !SameKey(b.sessions[s], b.sessions[t])
      {
        assert !SameKey(a.sessions[s], a.sessions[t]);
      }
      forall sid | sid in b.sessions
        ensures HasChain(b.tokens, sid)
      {
        ChainFrame(a.tokens, b.tokens, sid);
      }
    }
  }

  lemma FinalizeTables(a: Db, user: UserId)
    requires Tables(a)
    ensures Tables(Finalize(a, user)) && Evolves(a, Finalize(a, user), {})
  {
    var b := Finalize(a, user);
    forall s | s in b.sessions ensures SessionOk(b, s) { assert SessionOk(a, s); }
    forall t | t in b.tokens ensures TokenOk(b, t) { assert TokenOk(a, t); }
  }

  lemma FinalizeLate(a: Db, user: UserId)
    requires OnlyLateTokensLive(a)
    ensures OnlyLateTokensLive(Finalize(a, user))
  {
    var b := Finalize(a, user);
    forall t | t in b.tokens && Orphan(b, t) ensures Sole(b, t) { assert Orphan(a, t) && Sole(a, t); }
  }

  lemma PushKeeps(a: Db, user: UserId, sid: nat, token: string, now: int)
    requires DbInv(a)
    ensures var b := AttachPushToken(a, user, sid, token, now).0; DbInv(b) && Evolves(a, b, {})
  {
    var b := AttachPushToken(a, user, sid, token, now).0;
    assert PushUnique(a.sessions) by { hide Chained, OnlyLateTokensLive, Tables; UniquePushTokens(a); }
    hide Evolves, DbInv;
    AttachedUnique(a, user, sid, token, now);
    AttachedRows(a, user, sid, token, now);
    hide PushUnique, AttachPushToken;
    SessionsOnlyKeep(a, b);
  }

  lemma AttachedUnique(a: Db, user: UserId, sid: nat, token: string, now: int)
    requires PushUnique(a.sessions)
    ensures PushUnique(AttachPushToken(a, user, sid, token, now).0.sessions)
  {
  }

  lemma AttachedRows(a: Db, user: UserId, sid: nat, token: string, now: int)
    ensures var b := AttachPushToken(a, user, sid, token, now).0;
      && b == a.(sessions := b.sessions) && b.sessions.Keys == a.sessions.Keys
      && forall s :: s in a.sessions ==> b.sessions[s] == a.sessions[s].(pushToken := b.sessions[s].pushToken)
  {
  }

  lemma DropKeeps(a: Db, user: UserId, sid: nat)
    requires DbInv(a)
    ensures var b := DetachPushToken(a, user, sid); DbInv(b) && Evolves(a, b, {})
  {
    var b := DetachPushToken(a, user, sid);
    assert PushUnique(a.sessions) by { hide Chained, OnlyLateTokensLive, Tables; UniquePushTokens(a); }
    hide Evolves, DbInv;
    DetachedUnique(a, user, sid);
    DetachedRows(a, user, sid);
    hide PushUnique, DetachPushToken;
    SessionsOnlyKeep(a, b);
  }

  lemma DetachedUnique(a: Db, user: UserId, sid: nat)
    requires PushUnique(a.sessions)
    ensures PushUnique(DetachPushToken(a, user, sid).sessions)
  {
  }

  lemma DetachedRows(a: Db, user: UserId, sid: nat)
    ensures var b := DetachPushToken(a, user, sid);
      && b == a.(sessions := b.sessions) && b.sessions.Keys == a.sessions.Keys
      && forall s :: s in a.sessions ==> b.sessions[s] == a.sessions[s].(pushToken := b.sessions[s].pushToken)
  {
  }

  ghost predicate PushUnique(b: map<nat, Session>) {
    forall s, t :: s in b && t in b && s != t && b[s].pushToken.Some? ==> b[s].pushToken != b[t].pushToken
  }

  lemma UniquePushTokens(a: Db)
    requires Unique(a)
    ensures PushUnique(a.sessions)
  {
    forall s, t | s in a.sessions && t in a.sessions && s != t
      ensures !SameKey(a.sessions[s], a.sessions[t]) {}
  }

  /** A step that touches nothing of the sessions but their push tokens. */
  lemma SessionsOnlyKeep(a: Db, b: Db)
    requires DbInv(a) && b == a.(sessions := b.sessions) && b.sessions.Keys == a.sessions.Keys
    requires forall s :: s in a.sessions ==> b.sessions[s] == a.sessions[s].(pushToken := b.sessions[s].pushToken)
    requires PushUnique(b.sessions)
    ensures DbInv(b) && Evolves(a, b, {})
  {
    SessionsOnlyTables(a, b);
    SessionsOnlyUnique(a, b);
    ChainsUnder(a, b);
    hide Tables, Unique, Chained, OnlyLateTokensLive, PushUnique, Evolves;
    SessionsOnlyEvolve(a, b);
  }

  lemma SessionsOnlyEvolve(a: Db, b: Db)
    requires b == a.(sessions := b.sessions) && b.sessions.Keys == a.sessions.Keys
    requires forall s :: s in a.sessions ==> b.sessions[s] == a.sessions[s].(pushToken := b.sessions[s].pushToken)
    ensures Evolves(a, b, {})
  {
  }

  lemma SessionsOnlyTables(a: Db, b: Db)
    requires Tables(a) && OnlyLateTokensLive(a) && b == a.(sessions := b.sessions) && b.sessions.Keys == a.sessions.Keys
    requires forall s :: s in a.sessions ==> b.sessions[s] == a.sessions[s].(pushToken := b.sessions[s].pushToken)
    ensures Tables(b) && OnlyLateTokensLive(b)
  {
    forall s | s in b.sessions ensures SessionOk(b, s) { assert SessionOk(a, s); }
    forall t | t in b.tokens ensures TokenOk(b, t) { assert TokenOk(a, t); }
    forall t | t in b.tokens && Orphan(b, t) ensures Sole(b, t) { assert Orphan(a, t) && Sole(a, t); }
  }

  lemma SessionsOnlyUnique(a: Db, b: Db)
    requires Unique(a) && b.sessions.Keys == a.sessions.Keys && PushUnique(b.sessions)
    requires forall s :: s in a.sessions ==> b.sessions[s] == a.sessions[s].(pushToken := b.sessions[s].pushToken)
    ensures Unique(b)
  {
    forall s, t | s in b.sessions && t in b.sessions && s != t
      ensures !SameKey(b.sessions[s], b.sessions[t])
    {
      assert !SameKey(a.sessions[s], a.sessions[t]);
    }
  }

  lemma ChainsUnder(a: Db, b: Db)
    requires Chained(a) && b.sessions.Keys == a.sessions.Keys && b.tokens == a.tokens
    ensures Chained(b)
  {
  }

  lemma OtherTablesKeep(a: Db, user: UserId, expiresAt: int, password: nat)
    requires DbInv(a)
    ensures var b := IssueReset(a, user, expiresAt).0; DbInv(b) && Evolves(a, b, {})
    ensures var b := CreateUser(a, user, password); DbInv(b) && Evolves(a, b, {})
  {
    hide Evolves, Chained, Unique, OnlyLateTokensLive;
    ReadOnly(a);
    OtherTablesChange(a, a, IssueReset(a, user, expiresAt).0);
    OtherTablesChange(a, a, CreateUser(a, user, password));
  }

  // ----- Every step keeps what the waiting requests rely on -----

  function Opening(p: Proc): set<nat> {
    if p.LoginToken? then {p.sid} else {}
  }

  /** What a request knows survives the step of any other request. */
  lemma ProcStable(a: Db, b: Db, opening: set<nat>, p: Proc)
    requires Tables(a) && Tables(b) && Evolves(a, b, opening) && ProcInv(a, p)
    requires p.LoginToken? ==> p.sid !in opening
    ensures ProcInv(b, p)
  {
    hide Tables, Evolves, Tracks, Closed;
    match p
    case RotateSwap(hash, sid, expiresAt, now) => RotateSwapStable(a, b, opening, hash, sid, expiresAt, now);
    case ReuseLookup(hash, sid, _) => TracksStable(a, b, opening, hash, sid);
    case LoginToken(sid, expiresAt) => LoginTokenStable(a, b, opening, sid, expiresAt);
    case Done(Rotated(hash, sid, successor)) =>
      TracksStable(a, b, opening, hash, sid);
      IdsGrow(a, b, opening);
    case Done(Reused(sid)) => ClosedStable(a, b, opening, sid);
    case Done(LoggedOut(sid)) => ClosedStable(a, b, opening, sid);
    case Done(PasswordWasReset(hash, _)) => ResetStable(a, b, opening, hash);
    case _ => IdsGrow(a, b, opening);
  }

  lemma IdsGrow(a: Db, b: Db, opening: set<nat>)
    requires Evolves(a, b, opening)
    ensures a.next <= b.next
  {
  }

  lemma ResetStable(a: Db, b: Db, opening: set<nat>, hash: nat)
    requires Evolves(a, b, opening) && hash < a.next && (hash in a.resets ==> a.resets[hash].usedAt.Some?)
    ensures hash < b.next && (hash in b.resets ==> b.resets[hash].usedAt.Some?)
  {
    hide TokensEvolve, SessionsEvolve, RevocationSweeps;
    assert hash in b.resets ==> hash in a.resets && ResetEvolved(a.resets[hash], b.resets[hash]);
  }

  lemma RotateSwapStable(a: Db, b: Db, opening: set<nat>, hash: nat, sid: nat, expiresAt: int, now: int)
    requires Tables(a) && Tables(b) && Evolves(a, b, opening) && ProcInv(a, RotateSwap(hash, sid, expiresAt, now))
    ensures ProcInv(b, RotateSwap(hash, sid, expiresAt, now))
  {
    TracksStable(a, b, opening, hash, sid);
    hide Tables, TokensEvolve, ResetsEvolve, Tracks;
    assert hash in b.tokens ==> a.tokens[hash].sessionId == sid by { TracksMeans(a, hash, sid); }
    if hash in b.tokens && sid in b.sessions && b.sessions[sid].revokedAt.Some? {
      // either it was revoked before, and the token was not live then, or it was revoked just now
      assert a.sessions[sid].revokedAt.None? ==> Revokes(a, b, a.tokens[hash].sessionId);
    }
  }

  lemma TracksMeans(a: Db, hash: nat, sid: nat)
    requires Tracks(a, hash, sid)
    ensures hash in a.tokens ==> a.tokens[hash].sessionId == sid
  {
  }

  lemma LoginTokenStable(a: Db, b: Db, opening: set<nat>, sid: nat, expiresAt: int)
    requires Tables(a) && Tables(b) && Evolves(a, b, opening) && ProcInv(a, LoginToken(sid, expiresAt))
    requires sid !in opening
    ensures ProcInv(b, LoginToken(sid, expiresAt))
  {
    hide Tables, ResetsEvolve, RevocationSweeps;
    forall t | t in b.tokens
      ensures b.tokens[t].sessionId != sid
    {
      assert t in a.tokens ==> TokenEvolved(a.tokens[t], b.tokens[t]);
    }
    assert sid in b.sessions ==> SessionEvolved(a.sessions[sid], b.sessions[sid]);
  }

  lemma TracksStable(a: Db, b: Db, opening: set<nat>, hash: nat, sid: nat)
    requires Tables(a) && Tables(b) && Evolves(a, b, opening) && Tracks(a, hash, sid)
    ensures Tracks(b, hash, sid)
    ensures hash in b.tokens ==> hash in a.tokens && TokenEvolved(a.tokens[hash], b.tokens[hash])
    ensures hash in b.tokens ==> sid in a.sessions && sid in b.sessions
  {
    assert hash in b.tokens ==> TokenOk(b, hash);
    assert hash in a.tokens ==> TokenOk(a, hash);
    assert sid in b.sessions ==> sid in a.sessions;
  }

  lemma ClosedStable(a: Db, b: Db, opening: set<nat>, sid: nat)
    requires Evolves(a, b, opening) && Closed(a, sid)
    ensures Closed(b, sid)
  {
    assert sid in b.sessions ==> sid in a.sessions && SessionEvolved(a.sessions[sid], b.sessions[sid]);
  }

  /** A step that leaves the tables as they are. */
  lemma ReadOnly(a: Db)
    requires DbInv(a)
    ensures Evolves(a, a, {})
  {
  }

  predicate OfRotation(p: Proc) {
    || p.Refresh? || p.RotateRead? || p.RotateSwap? || p.ReuseLookup? || p.ReuseRevoke?
    || p.Logout? || p.LogoutRevoke?
  }

  lemma ProgressKeeps(a: Db, p: Proc)
    requires DbInv(a) && ProcInv(a, p)
    ensures var (b, q) := Progress(a, p); DbInv(b) && Evolves(a, b, Opening(p)) && ProcInv(b, q)
  {
    hide DbInv, Evolves;
    if OfRotation(p) {
      RotationKeeps(a, p);
    } else if p.Login? || p.LoginCreate? || p.LoginToken? {
      LoginKeeps(a, p);
    } else {
      OtherRequestsKeep(a, p);
    }
  }

  lemma RotationKeeps(a: Db, p: Proc)
    requires DbInv(a) && ProcInv(a, p)
    requires OfRotation(p)
    ensures var (b, q) := Progress(a, p); DbInv(b) && Evolves(a, b, {}) && ProcInv(b, q)
  {
    hide DbInv, Evolves;
    ReadOnly(a);
    match p
    case Refresh(hash, _) => ReadsTrack(a, hash);
    case RotateRead(hash, _) => ReadsTrack(a, hash);
    case RotateSwap(hash, sid, expiresAt, now) =>
      if Swap(a, hash, sid, expiresAt, now).1.Swapped? { SwapKeeps(a, hash, sid, expiresAt, now); }
    case ReuseLookup(hash, _, _) => ReadsTrack(a, hash);
    case ReuseRevoke(sid, now) => RevokeKeeps(a, {sid}, {sid}, now, true);
    case Logout(hash, _) => ReadsTrack(a, hash);
    case LogoutRevoke(sid, now) => RevokeKeeps(a, {sid}, {sid}, now, true);
  }

  lemma LoginKeeps(a: Db, p: Proc)
    requires DbInv(a) && ProcInv(a, p) && (p.Login? || p.LoginCreate? || p.LoginToken?)
    ensures var (b, q) := Progress(a, p); DbInv(b) && Evolves(a, b, Opening(p)) && ProcInv(b, q)
  {
    hide DbInv, Evolves;
    ReadOnly(a);
    match p
    case Login(user, deviceId, now, _) =>
      if ActiveKey(user, deviceId).Some? { RevokeForDeviceKeeps(a, user, ActiveKey(user, deviceId).value, now); }
    case LoginCreate(user, deviceId, now, ttl) =>
      if CreateSession(a, user, deviceId, ActiveKey(user, deviceId), now, now + ttl * 1000).Ok? {
        CreateSessionKeeps(a, user, deviceId, now, now + ttl * 1000);
      }
    case LoginToken(sid, expiresAt) => LoginTokenKeeps(a, sid, expiresAt);
  }

  lemma OtherRequestsKeep(a: Db, p: Proc)
    requires DbInv(a) && ProcInv(a, p)
    requires p.RevokeOne? || p.Reset? || p.Change? || p.Administer? || p.Delete? || p.SendReset? || p.AttachPush?
      || p.DropPush? || p.Register? || p.Done?
    ensures var (b, q) := Progress(a, p); DbInv(b) && Evolves(a, b, {}) && ProcInv(b, q)
  {
    hide DbInv, Evolves, ResetPassword, ChangePassword, SetStatus, Finalize, IssueReset, AttachPushToken,
      DetachPushToken, CreateUser, RevokeById;
    ReadOnly(a);
    match p
    case RevokeOne(user, sid, now) => RevokeByIdKeeps(a, user, sid, now);
    case Reset(hash, password, now) => ResetKeeps(a, hash, password, now);
    case Change(user, sid, expected, password, now) => ChangeKeeps(a, user, sid, expected, password, now);
    case Administer(user, suspend, now) => StatusKeeps(a, user, suspend, now);
    case Delete(user) => FinalizeKeeps(a, user);
    case SendReset(user, expiresAt) => OtherTablesKeep(a, user, expiresAt, 0);
    case AttachPush(user, sid, token, now) => PushKeeps(a, user, sid, token, now);
    case DropPush(user, sid) => DropKeeps(a, user, sid);
    case Register(user, password) => OtherTablesKeep(a, user, 0, password);
    case Done(_) =>
  }

  lemma LoginTokenKeeps(a: Db, sid: nat, expiresAt: int)
    requires DbInv(a) && ProcInv(a, LoginToken(sid, expiresAt))
    ensures var (b, q) := Progress(a, LoginToken(sid, expiresAt)); DbInv(b) && Evolves(a, b, {sid}) && ProcInv(b, q)
  {
    hide DbInv, Evolves;
    if sid in a.sessions {
      CreateTokenKeeps(a, sid, expiresAt);
      assert Progress(a, LoginToken(sid, expiresAt)).0 == CreateRefreshToken(a, sid, expiresAt).value.0;
    } else {
      LoginTokenAlone(a, sid);
      assert Progress(a, LoginToken(sid, expiresAt)).0 == a;
    }
  }

  lemma LoginTokenAlone(a: Db, sid: nat)
    ensures Evolves(a, a, {sid})
  {
  }

  lemma ReadsTrack(a: Db, hash: nat)
    requires DbInv(a)
    ensures hash in a.tokens ==> TokenOk(a, hash) && SessionOk(a, a.tokens[hash].sessionId)
    ensures hash in a.tokens ==> Tracks(a, hash, a.tokens[hash].sessionId)
  {
    hide Chained, Unique, OnlyLateTokensLive;
    assert hash in a.tokens ==> TokenOk(a, hash) && SessionOk(a, a.tokens[hash].sessionId);
  }

  /** What a step can have come from. */
  lemma WhatAStepClaims(a: Db, p: Proc)
    ensures var q := Progress(a, p).1;
      && (q.LoginToken? ==> p.LoginToken? || q.sid == a.next)
      && (q.Done? && q.outcome.Rotated? ==> p == q || (q.outcome.hash in a.tokens && Live(a.tokens[q.outcome.hash])))
      && (q.Done? && q.outcome.PasswordWasReset? ==>
           p == q || (q.outcome.hash in a.resets && a.resets[q.outcome.hash].usedAt.None?))
      && !(p.LoginToken? && q.LoginToken?)
  {
    hide Judge, StatusOf, Revoke, RevokeById, ChangePassword, SetStatus, Finalize, IssueReset, AttachPushToken,
      DetachPushToken;
  }

  /** The step of one request never produces what another one already claims. */
  lemma NoNewClash(a: Db, p: Proc, other: Proc)
    requires ProcInv(a, p) && ProcInv(a, other) && !Clash(p, other)
    ensures var q := Progress(a, p).1; !Clash(q, other) && !Clash(other, q)
  {
    hide Progress, OwnsTokens;
    WhatAStepClaims(a, p);
  }

  lemma StepKeeps(s: State, act: Action)
    requires Inv(s)
    ensures Inv(Step(s, act)) && s.db.next <= Step(s, act).db.next
  {
    var u := Step(s, act);
    match act
    case Spawn(p) =>
    case Advance(pid) =>
      if pid < |s.procs| {
        var p := s.procs[pid];
        ProgressKeeps(s.db, p);
        forall i | 0 <= i < |u.procs|
          ensures ProcInv(u.db, u.procs[i])
        {
          if i != pid {
            assert p.LoginToken? && s.procs[i].LoginToken? ==> s.procs[i].sid != p.sid by {
              assert !Clash(s.procs[if i < pid then i else pid], s.procs[if i < pid then pid else i]);
            }
            ProcStable(s.db, u.db, Opening(p), s.procs[i]);
          }
        }
        forall i, j | 0 <= i < j < |u.procs|
          ensures !Clash(u.procs[i], u.procs[j])
        {
          assert !Clash(s.procs[i], s.procs[j]);
          if i == pid { NoNewClash(s.db, p, s.procs[j]); }
          if j == pid { NoNewClash(s.db, p, s.procs[i]); }
        }
      }
  }

  lemma {:induction false} RunKeeps(s: State, actions: seq<Action>)
    requires Inv(s)
    ensures Inv(Run(s, actions))
    decreases |actions|
  {
    if actions != [] {
      StepKeeps(s, actions[0]);
      RunKeeps(Step(s, actions[0]), actions[1..]);
    }
  }
}
