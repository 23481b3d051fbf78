/** What the session protocol guarantees in every run. */
module AuthTheorems {
  import opened UserModel
  import opened Wrappers
  import opened AuthTransactions
  import opened AuthProtocol
  import opened AuthInvariants
  import opened AuthAnswers
  import opened AuthEffects

  ghost predicate Reachable(s: State) {
    exists actions :: s == Run(INIT, actions)
  }

  lemma ReachableInv(s: State)
    requires Reachable(s)
    ensures Inv(s)
  {
    var actions :| s == Run(INIT, actions);
    RunKeeps(INIT, actions);
  }

  // ----- Rotation -----

  /** A rotation answers ok only if it commits while its session is unrevoked and
      unexpired and its token live, although all of that was checked before the
      transaction; the successor it issues expires with the session. */
  lemma RotationCommitsOnOpenSession(s: State, pid: nat)
    requires Reachable(s) && pid < |s.procs| && s.procs[pid].RotateSwap?
    requires Step(s, Advance(pid)).procs[pid].Done? && Step(s, Advance(pid)).procs[pid].outcome.Rotated?
    ensures var p, db, after := s.procs[pid], s.db, Step(s, Advance(pid)).db;
      && p.hash in db.tokens && Live(db.tokens[p.hash])
      && p.sid == db.tokens[p.hash].sessionId && p.sid in db.sessions
      && db.sessions[p.sid].revokedAt.None?
      && p.now < db.sessions[p.sid].expiresAt
      && var n := Step(s, Advance(pid)).procs[pid].outcome.successor;
         && n in after.tokens && n !in db.tokens && Live(after.tokens[n])
         && after.tokens[n].expiresAt == db.sessions[p.sid].expiresAt
         && after.tokens[p.hash].revokedAt == Some(p.now) && after.tokens[p.hash].replacedById == Some(n)
  {
    ReachableInv(s);
    var p := s.procs[pid];
    assert ProcInv(s.db, p) && TokenOk(s.db, p.hash);
    forall t | t in s.db.tokens ensures t < s.db.next { assert TokenOk(s.db, t); }
  }

  /** From every reachable state, a refresh that nothing interrupts rotates the token exactly
      when its user is active, its session is open, and neither has expired; and the successor
      can be refreshed in the same way. */
  lemma UndisturbedRefreshRotates(s: State, hash: nat, now: int)
    requires Reachable(s)
    ensures var n := |s.procs|;
      var u := Run(s, [Spawn(Refresh(hash, now)), Advance(n), Advance(n), Advance(n)]);
      && |u.procs| == n + 1
      && ((u.procs[n].Done? && u.procs[n].outcome.Rotated?) <==> Admits(s.db, hash, now))
      && (Admits(s.db, hash, now) ==>
            && u.procs[n] == Done(Rotated(hash, s.db.tokens[hash].sessionId, s.db.next))
            && Admits(u.db, s.db.next, now) && !Admits(u.db, hash, now))
  {
    ReachableInv(s);
    assert forall t :: t in s.db.tokens ==> t < s.db.next by { TokenIdsBelow(s); }
    hide *;
    FirstRead(s.db, hash, now);
    var n, p, q := |s.procs|, Refresh(hash, now), RefreshStep(s.db, hash, now);
    RunFour(s, Spawn(p), Advance(n), Advance(n), Advance(n));
    StepSpawns(s, p);
    RefreshReads(s.db, hash, now);
    StepAdvances(s, p, s.db, q);
    if Admits(s.db, hash, now) {
      AdmittedRotates(s, hash, now);
    } else if q.Done? {
      DoneStays(s, q);
    } else {
      LookupNeverRotates(s, q);
    }
  }

  lemma RefreshReads(db: Db, hash: nat, now: int)
    ensures Progress(db, Refresh(hash, now)) == (db, RefreshStep(db, hash, now))
    ensures Initial(Refresh(hash, now))
  {
    hide RefreshStep;
  }

  lemma DoneStays(s: State, q: Proc)
    requires q.Done?
    ensures var t := State(s.db, s.procs + [q]); Step(Step(t, Advance(|s.procs|)), Advance(|s.procs|)) == t
  {
    StepAdvances(s, q, s.db, q);
  }

  lemma TokenIdsBelow(s: State)
    requires Inv(s)
    ensures forall t :: t in s.db.tokens ==> t < s.db.next
  {
    forall t | t in s.db.tokens ensures t < s.db.next { assert TokenOk(s.db, t); }
  }

  lemma StepSpawns(s: State, p: Proc)
    requires Initial(p)
    ensures Step(s, Spawn(p)) == State(s.db, s.procs + [p])
  {
  }

  /** One step of the newest request. */
  lemma StepAdvances(s: State, p: Proc, d: Db, q: Proc)
    requires Progress(s.db, p) == (d, q)
    ensures Step(State(s.db, s.procs + [p]), Advance(|s.procs|)) == State(d, s.procs + [q])
  {
    hide Progress;
    assert (s.procs + [p])[|s.procs| := q] == s.procs + [q];
  }

  lemma RunFour(s: State, a: Action, b: Action, c: Action, d: Action)
    ensures Run(s, [a, b, c, d]) == Step(Step(Step(Step(s, a), b), c), d)
  {
    hide Step, Run;
    var t := Step(s, a);
    RunFirst(s, [a, b, c, d], [b, c, d]);
    RunFirst(t, [b, c, d], [c, d]);
    RunFirst(Step(t, b), [c, d], [d]);
    RunFirst(Step(Step(t, b), c), [d], []);
    RunNothing(Step(Step(Step(t, b), c), d));
  }

  lemma RunFirst(s: State, actions: seq<Action>, rest: seq<Action>)
    requires actions != [] && actions == [actions[0]] + rest
    ensures Run(s, actions) == Run(Step(s, actions[0]), rest)
  {
    hide Step;
    assert actions[1..] == rest;
  }

  lemma RunNothing(s: State)
    ensures Run(s, []) == s
  {
  }

  lemma AdmittedRotates(s: State, hash: nat, now: int)
    requires Admits(s.db, hash, now) && forall t :: t in s.db.tokens ==> t < s.db.next
    ensures var n, p := |s.procs|, RotateRead(hash, now); var sid := s.db.tokens[hash].sessionId;
      var d := Swap(s.db, hash, sid, s.db.tokens[hash].expiresAt, now).0;
      && Step(Step(State(s.db, s.procs + [p]), Advance(n)), Advance(n)) ==
           State(d, s.procs + [Done(Rotated(hash, sid, s.db.next))])
      && Admits(d, s.db.next, now) && !Admits(d, hash, now)
  {
    hide Step, Swap;
    SecondRead(s.db, hash, now);
    var token := s.db.tokens[hash];
    var q := RotateSwap(hash, token.sessionId, token.expiresAt, now);
    StepAdvances(s, RotateRead(hash, now), s.db, q);
    SwapSucceeds(s.db, hash, token.sessionId, token.expiresAt, now);
    var d := Swap(s.db, hash, token.sessionId, token.expiresAt, now).0;
    StepAdvances(s, q, d, Done(Rotated(hash, token.sessionId, s.db.next)));
    SuccessorIsAdmitted(s.db, d, hash, now);
  }

  lemma SuccessorIsAdmitted(db: Db, d: Db, hash: nat, now: int)
    requires Admits(db, hash, now)
    requires Succeeds(db, d, hash, db.tokens[hash].sessionId, db.next, db.tokens[hash].expiresAt, now)
    ensures Admits(d, db.next, now) && !Admits(d, hash, now)
  {
    var sid := db.tokens[hash].sessionId;
    assert d.sessions[sid].userId == db.sessions[sid].userId && d.tokens[db.next].sessionId == sid;
  }

  lemma LookupNeverRotates(s: State, q: Proc)
    requires q.ReuseLookup?
    ensures var u := Step(Step(State(s.db, s.procs + [q]), Advance(|s.procs|)), Advance(|s.procs|));
      |u.procs| == |s.procs| + 1 && !(u.procs[|s.procs|].Done? && u.procs[|s.procs|].outcome.Rotated?)
  {
    hide RevokeSession;
  }

  /** The tokens of a session form one acyclic chain of replacements; only its last
      token can be live, and all of them expire with the session. */
  lemma TokensFormOneChain(s: State, sid: nat)
    requires Reachable(s) && sid in s.db.sessions
    ensures exists c :: Chain(s.db.tokens, sid, c) && LastAloneLive(s.db, c) && ExpireTogether(s.db, sid, c)
  {
    ReachableInv(s);
    assert HasChain(s.db.tokens, sid);
    var c :| Chain(s.db.tokens, sid, c);
    forall t | t in c
      ensures t in s.db.tokens && (Live(s.db.tokens[t]) ==> t == c[|c| - 1])
      ensures s.db.tokens[t].expiresAt == s.db.sessions[sid].expiresAt
    {
      assert TokenOk(s.db, t);
      var i :| 0 <= i < |c| && c[i] == t;
      if i < |c| - 1 { assert Linked(s.db.tokens, c, i); }
    }
    assert LastAloneLive(s.db, c) && ExpireTogether(s.db, sid, c);
  }

  ghost predicate LastAloneLive(db: Db, c: seq<nat>) {
    forall t :: t in c ==> t in db.tokens && (Live(db.tokens[t]) ==> t == c[|c| - 1])
  }

  ghost predicate ExpireTogether(db: Db, sid: nat, c: seq<nat>)
    requires sid in db.sessions
  {
    forall t :: t in c ==> t in db.tokens && db.tokens[t].expiresAt == db.sessions[sid].expiresAt
  }

  /** No token is rotated twice, and no reset token changes the password twice. */
  lemma EachTokenSpentOnce(s: State, i: nat, j: nat)
    requires Reachable(s) && i < j < |s.procs| && s.procs[i].Done? && s.procs[j].Done?
    ensures var a, b := s.procs[i].outcome, s.procs[j].outcome;
      && (a.Rotated? && b.Rotated? ==> a.hash != b.hash)
      && (a.PasswordWasReset? && b.PasswordWasReset? ==> a.hash != b.hash)
  {
    ReachableInv(s);
    assert !Clash(s.procs[i], s.procs[j]);
  }

  /** A live token of a revoked session was never rotated into and never will be
      rotated: it is the only token its session has. */
  lemma LiveTokenOfRevokedSessionIsAlone(s: State, t: nat)
    requires Reachable(s) && t in s.db.tokens && s.db.tokens[t].sessionId in s.db.sessions
    requires Live(s.db.tokens[t]) && s.db.sessions[s.db.tokens[t].sessionId].revokedAt.Some?
    ensures Chain(s.db.tokens, s.db.tokens[t].sessionId, [t])
    ensures forall now :: RotateReadStep(s.db, t, now) == Done(SessionRevoked)
  {
    ReachableInv(s);
    assert Orphan(s.db, t) && Sole(s.db, t);
  }

  // ----- When a revoked session gets a live token -----

  /** An unrevoked token of a revoked session that was not one before. */
  ghost predicate NewOrphan(a: Db, b: Db, t: nat) {
    t in b.tokens && Orphan(b, t) && !(t in a.tokens && Orphan(a, t))
  }

  /** A login that is about to issue the token of a session already revoked. */
  predicate LateLogin(s: State, a: Action) {
    && a.Advance? && a.pid < |s.procs| && s.procs[a.pid].LoginToken?
    && s.procs[a.pid].sid in s.db.sessions && s.db.sessions[s.procs[a.pid].sid].revokedAt.Some?
  }

  /** "A revoked session has no live token" fails at exactly one kind of step: the last one
      of a login whose session was revoked since its insert. */
  lemma OnlyLateLoginsLeaveLiveTokens(s: State, a: Action)
    requires Reachable(s)
    ensures (exists t :: NewOrphan(s.db, Step(s, a).db, t)) <==> LateLogin(s, a)
  {
    ReachableInv(s);
    if a.Advance? && a.pid < |s.procs| {
      var p := s.procs[a.pid];
      assert ProcInv(s.db, p) && Step(s, a).db == Progress(s.db, p).0;
      hide Inv, Reachable, ProcInv, Step, NewOrphan;
      if LateLogin(s, a) { LateLoginOrphans(s.db, p); }
      forall t ensures NewOrphan(s.db, Step(s, a).db, t) ==> LateLogin(s, a) {
        if NewOrphan(s.db, Step(s, a).db, t) { OrphansComeLate(s.db, p, t); }
      }
    } else {
      assert Step(s, a).db == s.db && forall t :: !NewOrphan(s.db, s.db, t);
    }
  }

  lemma LateLoginOrphans(a: Db, p: Proc)
    requires DbInv(a) && p.LoginToken? && p.sid in a.sessions && a.sessions[p.sid].revokedAt.Some?
    ensures NewOrphan(a, Progress(a, p).0, a.next)
  {
    hide Unique, Chained, OnlyLateTokensLive;
    assert a.next in a.tokens ==> TokenOk(a, a.next);
  }

  lemma OrphansComeLate(a: Db, p: Proc, t: nat)
    requires DbInv(a) && ProcInv(a, p) && NewOrphan(a, Progress(a, p).0, t)
    ensures p.LoginToken? && p.sid in a.sessions && a.sessions[p.sid].revokedAt.Some?
  {
    var b := Progress(a, p).0;
    if t in a.tokens {
      ProgressKeeps(a, p);
      KnownOrphan(a, b, Opening(p), t);
    } else {
      WhoInsertsTokens(a, p, t);
    }
  }

  /** Whoever revokes a session revokes its tokens with it. */
  lemma KnownOrphan(a: Db, b: Db, opening: set<nat>, t: nat)
    requires Tables(a) && Evolves(a, b, opening) && t in a.tokens && t in b.tokens && Orphan(b, t)
    ensures Orphan(a, t)
  {
    hide ResetsEvolve;
    var sid := a.tokens[t].sessionId;
    assert TokenOk(a, t) && TokenEvolved(a.tokens[t], b.tokens[t]);
    assert a.sessions[sid].revokedAt.None? ==> Revokes(a, b, sid);
  }

  lemma WhoInsertsTokens(a: Db, p: Proc, t: nat)
    requires ProcInv(a, p) && t !in a.tokens && t in Progress(a, p).0.tokens
    ensures var b := Progress(a, p).0; var sid := b.tokens[t].sessionId;
      && (p.LoginToken? || p.RotateSwap?) && sid == p.sid && sid in a.sessions && sid in b.sessions
      && b.sessions[sid].revokedAt == a.sessions[sid].revokedAt
      && (p.RotateSwap? ==> a.sessions[sid].revokedAt.None?)
  {
    hide Judge, StatusOf, RevokeRow, SessionsOf, OpenSessionsOf, HoldersOf, RevokeOpenResets, ResetsOfOthers,
      OwnsTokens;
  }

  /** "A revoked session has no live token" is not guaranteed: a login that is
      revoked between its two inserts still issues its token. */
  lemma RevokedSessionMayHoldLiveToken(user: UserId)
    ensures Reachable(State(LateDb(user), [Done(Finished), Done(LoggedIn(0, 1)), Done(Finished)]))
    ensures var db := LateDb(user);
      && 1 in db.tokens && Live(db.tokens[1]) && db.tokens[1].sessionId == 0
      && 0 in db.sessions && db.sessions[0].revokedAt.Some?
  {
    hide LateDb, OpenDb, NewDb;
    LoginHalfway(user);
    var s := State(OpenDb(user), [Done(Finished), LoginToken(0, 60000)]);
    var t := State(OpenDb(user), s.procs + [RevokeOne(user, 0, 5)]);
    ReachesNext(s, Spawn(RevokeOne(user, 0, 5)), t);
    RevokesOpenSession(user);
    s := State(RevokeById(OpenDb(user), user, 0, 5).0, [Done(Finished), LoginToken(0, 60000), Done(Finished)]);
    assert Step(t, Advance(2)).procs == s.procs;
    ReachesNext(t, Advance(2), s);
    IssuesLateToken(user);
    t := State(LateDb(user), [Done(Finished), Done(LoggedIn(0, 1)), Done(Finished)]);
    assert Step(s, Advance(1)).procs == t.procs;
    ReachesNext(s, Advance(1), t);
    LateTokenIsLive(user);
  }

  function NewDb(user: UserId): Db {
    CreateUser(INIT.db, user, 7)
  }

  /** One session of one user, its token not yet issued. */
  function OpenDb(user: UserId): Db {
    NewDb(user).(next := 1, sessions := map[0 := Session(user, "", None, 60000, None, 0, None)])
  }

  /** The same, after the session was revoked and the token issued. */
  function LateDb(user: UserId): Db {
    NewDb(user).(next := 2, sessions := map[0 := Session(user, "", None, 60000, Some(5), 0, None)],
                 tokens := map[1 := RefreshToken(0, 60000, None, None)])
  }

  lemma LateTokenIsLive(user: UserId)
    ensures var db := LateDb(user);
      && 1 in db.tokens && Live(db.tokens[1]) && db.tokens[1].sessionId == 0
      && 0 in db.sessions && db.sessions[0].revokedAt.Some?
  {
  }

  lemma RevokesOpenSession(user: UserId)
    ensures RevokeById(OpenDb(user), user, 0, 5)
      == (OpenDb(user).(sessions := map[0 := Session(user, "", None, 60000, Some(5), 0, None)]), true)
  {
    var db := OpenDb(user);
    assert RevokeRows(db.sessions, {0}, 5, true) == map[0 := Session(user, "", None, 60000, Some(5), 0, None)];
    assert SweepTokens(db.tokens, {0}, 5) == db.tokens;
  }

  lemma IssuesLateToken(user: UserId)
    ensures var db := RevokeById(OpenDb(user), user, 0, 5).0;
      Progress(db, LoginToken(0, 60000)) == (LateDb(user), Done(LoggedIn(0, 1)))
  {
    RevokesOpenSession(user);
    hide RevokeById;
  }

  lemma Registered(user: UserId)
    ensures Reachable(State(NewDb(user), [Done(Finished)]))
  {
    assert Run(INIT, []) == INIT;
    var s := State(INIT.db, [Register(user, 7)]);
    ReachesNext(INIT, Spawn(Register(user, 7)), s);
    NewDbIs(user);
    hide NewDb, CreateUser;
    var t := State(NewDb(user), [Done(Finished)]);
    assert Step(s, Advance(0)).procs == t.procs;
    ReachesNext(s, Advance(0), t);
  }

  lemma LoginHalfway(user: UserId)
    ensures Reachable(State(OpenDb(user), [Done(Finished), LoginToken(0, 60000)]))
  {
    hide OpenDb, NewDb, CreateSession;
    Registered(user);
    var t := State(NewDb(user), [Done(Finished)]);
    var s := State(NewDb(user), [Done(Finished), Login(user, "", 0, 60)]);
    ReachesNext(t, Spawn(Login(user, "", 0, 60)), s);
    t := State(NewDb(user), [Done(Finished), LoginCreate(user, "", 0, 60)]);
    assert Step(s, Advance(1)).procs == t.procs;
    ReachesNext(s, Advance(1), t);
    OpensSession(user);
    hide Progress;
    s := State(OpenDb(user), [Done(Finished), LoginToken(0, 60000)]);
    assert Step(t, Advance(1)).procs == s.procs;
    ReachesNext(t, Advance(1), s);
  }

  lemma NewDbIs(user: UserId)
    ensures NewDb(user) == CreateUser(INIT.db, user, 7)
  {
  }

  lemma OpensSession(user: UserId)
    ensures Progress(NewDb(user), LoginCreate(user, "", 0, 60)) == (OpenDb(user), LoginToken(0, 60000))
  {
    var db := NewDb(user);
    assert db.sessions[0 := Session(user, "", None, 60000, None, 0, None)] ==
      map[0 := Session(user, "", None, 60000, None, 0, None)];
  }

  lemma ReachesNext(s: State, a: Action, t: State)
    requires Reachable(s) && Step(s, a) == t
    ensures Reachable(t)
  {
    hide Step;
    ReachableStep(s, a);
  }

  lemma {:induction false} RunAppend(s: State, actions: seq<Action>, a: Action)
    ensures Run(s, actions + [a]) == Step(Run(s, actions), a)
    decreases |actions|
  {
    var more := actions + [a];
    if actions == [] {
      assert more[1..] == [];
    } else {
      assert more[1..] == actions[1..] + [a];
      RunAppend(Step(s, actions[0]), actions[1..], a);
    }
  }

  lemma ReachableStep(s: State, a: Action)
    requires Reachable(s)
    ensures Reachable(Step(s, a))
  {
    var actions :| s == Run(INIT, actions);
    RunAppend(INIT, actions, a);
  }

  // ----- What a run cannot undo -----

  /** Between two states of one run: identities stay, timestamps are written at most
      once, a token is replaced at most once, and a deleted row never returns. */
  ghost predicate History(a: Db, b: Db) {
    && a.next <= b.next
    && (forall s :: s in b.sessions ==>
          if s in a.sessions then SessionEvolved(a.sessions[s], b.sessions[s]) else s >= a.next)
    && (forall t :: t in b.tokens ==> if t in a.tokens then TokenEvolved(a.tokens[t], b.tokens[t]) else t >= a.next)
    && (forall r :: r in b.resets ==> if r in a.resets then ResetEvolved(a.resets[r], b.resets[r]) else r >= a.next)
  }

  lemma HistoryStarts(a: Db)
    ensures History(a, a)
  {
  }

  lemma HistoryExtends(a: Db, b: Db, c: Db, opening: set<nat>)
    requires Tables(a) && History(a, b) && Evolves(b, c, opening)
    ensures History(a, c)
  {
    hide Tables;
    forall s | s in c.sessions
      ensures if s in a.sessions then SessionEvolved(a.sessions[s], c.sessions[s]) else s >= a.next
    {
      if s in a.sessions { IdsBelow(a, s); }
    }
    forall t | t in c.tokens
      ensures if t in a.tokens then TokenEvolved(a.tokens[t], c.tokens[t]) else t >= a.next
    {
      if t in a.tokens { IdsBelow(a, t); }
    }
    forall r | r in c.resets
      ensures if r in a.resets then ResetEvolved(a.resets[r], c.resets[r]) else r >= a.next
    {
      if r in a.resets { IdsBelow(a, r); }
    }
  }

  lemma IdsBelow(a: Db, id: nat)
    requires Tables(a) && (id in a.sessions || id in a.tokens || id in a.resets)
    ensures id < a.next
  {
    assert id in a.sessions ==> SessionOk(a, id);
    assert id in a.tokens ==> TokenOk(a, id);
  }

  lemma {:induction false} RunHistory(a: Db, s: State, actions: seq<Action>)
    requires Tables(a) && Inv(s) && History(a, s.db)
    ensures History(a, Run(s, actions).db)
    decreases |actions|
  {
    hide History, Tables, Evolves;
    if actions != [] {
      var u := Step(s, actions[0]);
      StepKeeps(s, actions[0]);
      if actions[0].Advance? && actions[0].pid < |s.procs| {
        var p := s.procs[actions[0].pid];
        ProgressKeeps(s.db, p);
        HistoryExtends(a, s.db, u.db, Opening(p));
      }
      RunHistory(a, u, actions[1..]);
    }
  }

  /** In every run, from any state on. */
  lemma WrittenAtMostOnce(s: State, actions: seq<Action>)
    requires Reachable(s)
    ensures History(s.db, Run(s, actions).db)
  {
    ReachableInv(s);
    RunHistory(s.db, s, actions);
  }

  // ----- Reuse -----

  /** Once a refresh has reported reuse, its session stays revoked or deleted, and no
      refresh of any of its tokens is answered ok after that, whether it was already
      under way or starts later. */
  lemma ReuseEndsTheSession(s: State, reporter: nat, sid: nat, actions: seq<Action>)
    requires Reachable(s) && reporter < |s.procs| && s.procs[reporter] == Done(Reused(sid))
    ensures var u := Run(s, actions);
      && Closed(u.db, sid)
      && (forall pid :: 0 <= pid < |u.procs| && RotatedIn(u.procs[pid], sid) ==>
            pid < |s.procs| && s.procs[pid] == u.procs[pid])
  {
    ReachableInv(s);
    assert ProcInv(s.db, s.procs[reporter]);
    ClosedForever(s, sid, actions);
  }

  /** The same after a logout. */
  lemma LogoutEndsTheSession(s: State, reporter: nat, sid: nat, actions: seq<Action>)
    requires Reachable(s) && reporter < |s.procs| && s.procs[reporter] == Done(LoggedOut(sid))
    ensures var u := Run(s, actions);
      && Closed(u.db, sid)
      && (forall pid :: 0 <= pid < |u.procs| && RotatedIn(u.procs[pid], sid) ==>
            pid < |s.procs| && s.procs[pid] == u.procs[pid])
  {
    ReachableInv(s);
    assert ProcInv(s.db, s.procs[reporter]);
    ClosedForever(s, sid, actions);
  }

  predicate RotatedIn(p: Proc, sid: nat) {
    p.Done? && p.outcome.Rotated? && p.outcome.sid == sid
  }

  lemma {:induction false} ClosedForever(s: State, sid: nat, actions: seq<Action>)
    requires Inv(s) && Closed(s.db, sid)
    ensures var u := Run(s, actions);
      && Closed(u.db, sid) && |s.procs| <= |u.procs|
      && (forall pid :: 0 <= pid < |u.procs| && RotatedIn(u.procs[pid], sid) ==>
            pid < |s.procs| && s.procs[pid] == u.procs[pid])
    decreases |actions|
  {
    hide Inv, Step, Closed, RotatedIn;
    if actions != [] {
      var u := Step(s, actions[0]);
      StepKeeps(s, actions[0]);
      ClosedStep(s, sid, actions[0]);
      ProcsStay(s, actions[0]);
      ClosedForever(u, sid, actions[1..]);
    }
  }

  lemma ProcsStay(s: State, a: Action)
    ensures |s.procs| <= |Step(s, a).procs|
  {
    hide Progress;
  }

  lemma ClosedStep(s: State, sid: nat, a: Action)
    requires Inv(s) && Closed(s.db, sid)
    ensures Closed(Step(s, a).db, sid)
    ensures forall pid :: 0 <= pid < |Step(s, a).procs| && RotatedIn(Step(s, a).procs[pid], sid) ==>
      pid < |s.procs| && s.procs[pid] == Step(s, a).procs[pid]
  {
    hide DbInv, Evolves;
    if a.Advance? && a.pid < |s.procs| {
      var p := s.procs[a.pid];
      ProgressKeeps(s.db, p);
      ClosedStable(s.db, Step(s, a).db, Opening(p), sid);
      if p.RotateSwap? && p.sid == sid { SwapNeedsOpenSession(s.db, p); }
    }
  }

  lemma SwapNeedsOpenSession(db: Db, p: Proc)
    requires DbInv(db) && p.RotateSwap? && ProcInv(db, p) && Closed(db, p.sid)
    ensures !Swap(db, p.hash, p.sid, p.expiresAt, p.now).1.Swapped?
  {
    assert p.hash in db.tokens ==> TokenOk(db, p.hash);
  }

  /** A refresh that found its token already used can only end by reporting reuse. */
  lemma {:induction false} ReplayIsReported(s: State, pid: nat, sid: nat, now: int, actions: seq<Action>)
    requires Inv(s) && pid < |s.procs| && Replaying(s.procs[pid], sid, now)
    ensures pid < |Run(s, actions).procs| && Replaying(Run(s, actions).procs[pid], sid, now)
    decreases |actions|
  {
    hide Inv, Step, Replaying;
    if actions != [] {
      StepKeeps(s, actions[0]);
      ReplayStep(s, pid, sid, now, actions[0]);
      ReplayIsReported(Step(s, actions[0]), pid, sid, now, actions[1..]);
    }
  }

  lemma ReplayStep(s: State, pid: nat, sid: nat, now: int, a: Action)
    requires Inv(s) && pid < |s.procs| && Replaying(s.procs[pid], sid, now)
    ensures pid < |Step(s, a).procs| && Replaying(Step(s, a).procs[pid], sid, now)
  {
    hide DbInv, Revoke;
    assert ProcInv(s.db, s.procs[pid]);
    ReplayProgress(s.db, s.procs[pid], sid, now);
    hide Progress, ProcInv, Replaying;
    if a.Advance? && a.pid < |s.procs| && a.pid != pid { assert Step(s, a).procs[pid] == s.procs[pid]; }
  }

  lemma ReplayProgress(db: Db, p: Proc, sid: nat, now: int)
    requires ProcInv(db, p) && Replaying(p, sid, now)
    ensures Replaying(Progress(db, p).1, sid, now)
  {
    hide Revoke;
  }

  predicate Replaying(p: Proc, sid: nat, now: int) {
    (p.ReuseLookup? && p.sid == sid && p.now == now) || p == ReuseRevoke(sid, now) || p == Done(Reused(sid))
  }

  // ----- One active session per device -----

  lemma ActiveKeyInjective(u1: UserId, d1: string, u2: UserId, d2: string)
    requires ActiveKey(u1, d1).Some? && ActiveKey(u1, d1) == ActiveKey(u2, d2)
    ensures u1 == u2 && d1 == d2
  {
    FirstColon(u1, d1);
    FirstColon(u2, d2);
    assert |u1| == |u2|;
    var k1, k2 := u1 + ":" + d1, u2 + ":" + d2;
    assert u1 == k1[..|u1|] && u2 == k2[..|u2|] && d1 == k1[|u1| + 1..] && d2 == k2[|u2| + 1..];
  }

  lemma FirstColon(u: UserId, d: string)
    ensures var k := u + ":" + d; k[|u|] == ':' && forall i :: 0 <= i < |u| ==> k[i] != ':'
  {
    forall i | 0 <= i < |u| ensures (u + ":" + d)[i] != ':' { assert u[i] in u; }
  }

  predicate SameDevice(a: Session, b: Session) {
    a.deviceId == b.deviceId && a.userId == b.userId
  }

  /** A revoked session has no active key, an unrevoked one opened with a device id
      holds exactly its own, and unrevoked sessions are unique per user and device. */
  lemma OneOpenSessionPerDevice(s: State, i: nat, j: nat)
    requires Reachable(s) && i in s.db.sessions && j in s.db.sessions
    ensures var a, b := s.db.sessions[i], s.db.sessions[j];
      && (a.activeKey.Some? <==> a.revokedAt.None? && a.deviceId != "")
      && (a.activeKey.Some? ==> a.activeKey == Some(a.userId + ":" + a.deviceId))
      && (a.revokedAt.None? && b.revokedAt.None? && a.deviceId != "" && SameDevice(a, b) ==> i == j)
  {
    ReachableInv(s);
    assert SessionOk(s.db, i) && SessionOk(s.db, j);
    assert i != j ==> !SameKey(s.db.sessions[i], s.db.sessions[j]);
  }

  /** The steps of `actions` from `s` on contain no session insert for `key`. */
  predicate NoInsertFor(s: State, actions: seq<Action>, key: string)
    decreases |actions|
  {
    actions == [] ||
    (&& !(actions[0].Advance? && actions[0].pid < |s.procs| && InsertsFor(s.procs[actions[0].pid], key))
     && NoInsertFor(Step(s, actions[0]), actions[1..], key))
  }

  predicate InsertsFor(p: Proc, key: string) {
    p.LoginCreate? && ActiveKey(p.user, p.deviceId) == Some(key)
  }

  /** A login that no other login for the same device overlaps, between its revoking
      step and its insert, does not trip the unique index. */
  lemma LoneLoginNeverConflicts(s: State, pid: nat, actions: seq<Action>)
    requires Reachable(s) && pid < |s.procs| && s.procs[pid].Login? && s.procs[pid].deviceId != ""
    requires var key := ActiveKey(s.procs[pid].user, s.procs[pid].deviceId).value;
      NoInsertFor(Step(s, Advance(pid)), actions, key)
    ensures var u := Run(Step(s, Advance(pid)), actions);
      && pid < |u.procs| && u.procs[pid].LoginCreate?
      && !(Step(u, Advance(pid)).procs[pid].Done? && Step(u, Advance(pid)).procs[pid].outcome.ActiveKeyConflict?)
  {
    ReachableInv(s);
    var p, t := s.procs[pid], Step(s, Advance(pid));
    var key := ActiveKey(p.user, p.deviceId).value;
    StepKeeps(s, Advance(pid));
    RevokingFreesKey(s.db, p.user, p.deviceId, p.now);
    KeyStaysFree(t, pid, p.user, p.deviceId, actions);
  }

  lemma RevokingFreesKey(db: Db, user: UserId, deviceId: string, now: int)
    requires DbInv(db) && deviceId != ""
    ensures !KeyTaken(RevokeForDevice(db, user, ActiveKey(user, deviceId).value, now), ActiveKey(user, deviceId).value)
  {
    hide Chained, OnlyLateTokensLive;
    var key := ActiveKey(user, deviceId).value;
    forall sid | sid in db.sessions && db.sessions[sid].activeKey == Some(key)
      ensures sid in HoldersOf(db, user, key)
    {
      assert SessionOk(db, sid);
      ActiveKeyInjective(user, deviceId, db.sessions[sid].userId, db.sessions[sid].deviceId);
    }
  }

  lemma {:induction false} KeyStaysFree(s: State, pid: nat, user: UserId, deviceId: string, actions: seq<Action>)
    requires Inv(s) && deviceId != "" && !KeyTaken(s.db, ActiveKey(user, deviceId).value)
    requires pid < |s.procs| && s.procs[pid].LoginCreate? && s.procs[pid].user == user
    requires s.procs[pid].deviceId == deviceId
    requires NoInsertFor(s, actions, ActiveKey(user, deviceId).value)
    ensures var u := Run(s, actions);
      && !KeyTaken(u.db, ActiveKey(user, deviceId).value) && pid < |u.procs| && u.procs[pid] == s.procs[pid]
    decreases |actions|
  {
    if actions != [] {
      var key := ActiveKey(user, deviceId).value;
      var a := actions[0];
      StepKeeps(s, a);
      if a.Advance? && a.pid < |s.procs| { ProgressTakesNoKey(s.db, s.procs[a.pid], key); }
      KeyStaysFree(Step(s, a), pid, user, deviceId, actions[1..]);
    }
  }

  lemma ProgressTakesNoKey(a: Db, p: Proc, key: string)
    requires DbInv(a) && ProcInv(a, p) && !InsertsFor(p, key) && !KeyTaken(a, key)
    ensures !KeyTaken(Progress(a, p).0, key)
  {
    hide Evolves, Chained, Unique, OnlyLateTokensLive;
    if !p.LoginCreate? {
      var b := Progress(a, p).0;
      ProgressKeeps(a, p);
      OnlyLoginInserts(a, p);
      forall sid | sid in b.sessions
        ensures b.sessions[sid].activeKey != Some(key)
      {
        EvolvedSession(a, b, Opening(p), sid);
        assert SessionOk(a, sid) && SessionOk(b, sid);
      }
    }
  }

  lemma OnlyLoginInserts(a: Db, p: Proc)
    requires !p.LoginCreate?
    ensures Progress(a, p).0.sessions.Keys <= a.sessions.Keys
  {
    hide Judge, StatusOf, SweepTokens, SessionsOf, OpenSessionsOf, HoldersOf, RevokeOpenResets, TokensOutside,
      ResetsOfOthers, RevokeRow;
  }

  lemma EvolvedSession(a: Db, b: Db, opening: set<nat>, sid: nat)
    requires Evolves(a, b, opening) && sid in a.sessions && sid in b.sessions
    ensures SessionEvolved(a.sessions[sid], b.sessions[sid])
  {
  }

  // ----- Every way to end a session -----

  predicate Open(db: Db, sid: nat) {
    sid in db.sessions && db.sessions[sid].revokedAt.None?
  }

  /** The sessions that the next step of a request is there to end: the one named by a
      revocation, a logout or a reuse; the one that holds the device of a login; all of a
      user at a reset, a suspension or a deletion, and all but the caller's own at a password
      change, unless that request is refused. */
  predicate Ends(db: Db, p: Proc, sid: nat)
    requires sid in db.sessions
  {
    var owner := db.sessions[sid].userId;
    match p
    case RevokeOne(user, id, _) => id == sid && owner == user
    case LogoutRevoke(id, _) => id == sid
    case ReuseRevoke(id, _) => id == sid
    case Login(user, deviceId, _, _) =>
      deviceId != "" && owner == user && db.sessions[sid].activeKey == ActiveKey(user, deviceId)
    case Reset(hash, _, now) =>
      hash in db.resets && !Spent(db.resets[hash]) && now < db.resets[hash].expiresAt && owner == db.resets[hash].userId
    case Change(user, keep, expected, _, _) =>
      owner == user && sid != keep && user in db.users && user in db.passwords && db.passwords[user] == expected
    case Administer(user, suspend, _) => suspend && owner == user && user in db.users && db.users[user] == ACTIVE
    case Delete(user) => owner == user && user in db.users && db.users[user] != DELETED
    case _ => false
  }

  lemma ProgressEnds(db: Db, p: Proc, sid: nat)
    requires Open(db, sid) && sid < db.next
    ensures Closed(Progress(db, p).0, sid) <==> Ends(db, p, sid)
  {
    hide Progress, Ends;
    if p.Reset? || p.Change? || p.Administer? || p.Delete? {
      ManyEnd(db, p, sid);
    } else {
      OneEnds(db, p, sid);
    }
  }

  lemma ManyEnd(db: Db, p: Proc, sid: nat)
    requires Open(db, sid) && sid < db.next && (p.Reset? || p.Change? || p.Administer? || p.Delete?)
    ensures Closed(Progress(db, p).0, sid) <==> Ends(db, p, sid)
  {
    hide SweepTokens, RevokeOpenResets, ResetsOfOthers, TokensOutside;
  }

  lemma OneEnds(db: Db, p: Proc, sid: nat)
    requires Open(db, sid) && sid < db.next && !(p.Reset? || p.Change? || p.Administer? || p.Delete?)
    ensures Closed(Progress(db, p).0, sid) <==> Ends(db, p, sid)
  {
    hide SweepTokens, RefreshStep, RotateReadStep;
  }

  /** A step ends an open session exactly when its request is there to end it; and then for
      good: in every continuation the session stays revoked or deleted, and no refresh of its
      tokens succeeds, whether it was already under way or starts later. */
  lemma EndedExactlyAndForGood(s: State, pid: nat, sid: nat, actions: seq<Action>)
    requires Reachable(s) && pid < |s.procs| && Open(s.db, sid)
    ensures var t := Step(s, Advance(pid));
      && (Closed(t.db, sid) <==> Ends(s.db, s.procs[pid], sid))
      && (Ends(s.db, s.procs[pid], sid) ==> EndedIn(t, Run(t, actions), sid))
  {
    hide Progress, Ends, DbInv, Evolves, Run;
    ReachableInv(s);
    var t := Step(s, Advance(pid));
    assert sid < s.db.next by { OpenIdsBelow(s.db, sid); }
    ProgressEnds(s.db, s.procs[pid], sid);
    if Ends(s.db, s.procs[pid], sid) {
      StepKeeps(s, Advance(pid));
      ClosedForever(t, sid, actions);
    }
  }

  /** The session is of no use in `u`, and every rotation in it was answered before `t`. */
  ghost predicate EndedIn(t: State, u: State, sid: nat) {
    Closed(u.db, sid) && |t.procs| <= |u.procs| &&
    forall i :: 0 <= i < |u.procs| && RotatedIn(u.procs[i], sid) ==> i < |t.procs| && t.procs[i] == u.procs[i]
  }

  lemma OpenIdsBelow(db: Db, sid: nat)
    requires DbInv(db) && Open(db, sid)
    ensures sid < db.next
  {
    assert SessionOk(db, sid);
  }

  // ----- Password reset -----

  /** A successful reset leaves every session the user had revoked (or deleted) for
      good, none of their tokens unrevoked, and every reset token the user had
      unusable for good. */
  lemma ResetLocksEverythingOut(s: State, pid: nat, actions: seq<Action>)
    requires Reachable(s) && pid < |s.procs| && s.procs[pid].Reset?
    requires Step(s, Advance(pid)).procs[pid].outcome.PasswordWasReset?
    ensures var p := s.procs[pid]; var user := Step(s, Advance(pid)).procs[pid].outcome.user;
      && Step(s, Advance(pid)).db.passwords == s.db.passwords[user := p.password]
      && LockedOut(s.db, Run(Step(s, Advance(pid)), actions).db, user)
  {
    hide DbInv, Evolves, Run, ResetPassword, LockedOut, History;
    ReachableInv(s);
    var p, t := s.procs[pid], Step(s, Advance(pid));
    StepKeeps(s, Advance(pid));
    TablesOf(t.db);
    HistoryStarts(t.db);
    RunHistory(t.db, t, actions);
    assert t.db == ResetPassword(s.db, p.hash, p.password, p.now).0;
    ResetSweeps(s.db, p.hash, p.password, p.now);
    SweptStayLocked(s.db, t.db, Run(t, actions).db, t.procs[pid].outcome.user);
  }

  /** Seen from `b`, nothing that existed for the user in `a` is of any use. */
  ghost predicate LockedOut(a: Db, b: Db, user: UserId) {
    && (forall sid :: sid in a.sessions && a.sessions[sid].userId == user ==> Closed(b, sid))
    && (forall k :: k in a.tokens && k in b.tokens && UserOfToken(a, k) == Some(user) ==> b.tokens[k].revokedAt.Some?)
    && (forall r :: r in a.resets && a.resets[r].userId == user && r in b.resets ==> Spent(b.resets[r]))
  }

  lemma SweptStayLocked(a: Db, t: Db, u: Db, user: UserId)
    requires Tables(t) && Swept(a, t, user) && History(t, u)
    ensures LockedOut(a, u, user)
  {
    forall sid | sid in a.sessions && a.sessions[sid].userId == user
      ensures Closed(u, sid)
    {
      assert sid in t.sessions.Keys;
      IdsBelow(t, sid);
      assert sid in u.sessions ==> SessionEvolved(t.sessions[sid], u.sessions[sid]);
    }
    hide Tables;
  }

  /** The reset leaves the user's rows in place, all of them revoked. */
  ghost predicate Swept(a: Db, b: Db, user: UserId) {
    && b.sessions.Keys == a.sessions.Keys && b.tokens.Keys == a.tokens.Keys && b.resets.Keys == a.resets.Keys
    && (forall s :: s in a.sessions && a.sessions[s].userId == user ==> b.sessions[s].revokedAt.Some?)
    && (forall k :: k in a.tokens && UserOfToken(a, k) == Some(user) ==> b.tokens[k].revokedAt.Some?)
    && (forall q :: q in a.resets && a.resets[q].userId == user ==> Spent(b.resets[q]))
  }

  lemma ResetSweeps(db: Db, hash: nat, password: nat, now: int)
    requires ResetPassword(db, hash, password, now).1.ResetOk?
    ensures var (b, r) := ResetPassword(db, hash, password, now);
      b.passwords == db.passwords[r.userId := password] && Swept(db, b, r.userId)
  {
  }

  function UserOfToken(db: Db, t: nat): Option<UserId>
    requires t in db.tokens
  {
    var sid := db.tokens[t].sessionId;
    if sid in db.sessions then Some(db.sessions[sid].userId) else None
  }

  predicate Spent(r: ResetToken) {
    r.usedAt.Some? || r.revokedAt.Some?
  }

  /** What is spent is refused, whatever else happens. */
  lemma SpentResetIsRefused(db: Db, hash: nat, password: nat, now: int)
    requires hash in db.resets && Spent(db.resets[hash])
    ensures ResetPassword(db, hash, password, now) == (db, ResetInvalid)
  {
  }

  /** Issued, and either spent or deleted. */
  predicate OutOfUse(db: Db, r: nat) {
    r < db.next && (r in db.resets ==> Spent(db.resets[r]))
  }

  predicate ResetWith(p: Proc, r: nat) {
    p.Done? && p.outcome.PasswordWasReset? && p.outcome.hash == r
  }

  lemma OutOfUseStep(s: State, r: nat, a: Action)
    requires Inv(s) && OutOfUse(s.db, r)
    ensures OutOfUse(Step(s, a).db, r)
    ensures forall i :: 0 <= i < |Step(s, a).procs| && ResetWith(Step(s, a).procs[i], r) ==>
      i < |s.procs| && s.procs[i] == Step(s, a).procs[i]
  {
    hide DbInv, Evolves, ResetPassword;
    if a.Advance? && a.pid < |s.procs| {
      var p := s.procs[a.pid];
      ProgressKeeps(s.db, p);
      SpentStaysSpent(s.db, Step(s, a).db, Opening(p), r);
      if p.Reset? && p.hash == r { RefusedWhenOutOfUse(s.db, r, p.password, p.now); }
      hide ProcInv;
      OnlyResetsReset(s.db, p);
    }
  }

  lemma SpentStaysSpent(a: Db, b: Db, opening: set<nat>, r: nat)
    requires Evolves(a, b, opening) && OutOfUse(a, r)
    ensures OutOfUse(b, r)
  {
    hide TokensEvolve, SessionsEvolve, RevocationSweeps;
  }

  lemma RefusedWhenOutOfUse(db: Db, r: nat, password: nat, now: int)
    requires OutOfUse(db, r)
    ensures !ResetPassword(db, r, password, now).1.ResetOk?
  {
    if r in db.resets { SpentResetIsRefused(db, r, password, now); }
  }

  lemma OnlyResetsReset(a: Db, p: Proc)
    ensures var q := Progress(a, p).1;
      q.Done? && q.outcome.PasswordWasReset? ==>
        q == p || (p.Reset? && p.hash == q.outcome.hash && ResetPassword(a, p.hash, p.password, p.now).1.ResetOk?)
  {
    hide Judge, StatusOf, Revoke, RevokeById, ResetPassword, ChangePassword, SetStatus, Finalize, IssueReset,
      AttachPushToken,
      DetachPushToken, RevokeForDevice, CreateUser;
  }

  lemma {:induction false} OutOfUseForever(s: State, r: nat, actions: seq<Action>)
    requires Inv(s) && OutOfUse(s.db, r)
    ensures forall i :: 0 <= i < |Run(s, actions).procs| && ResetWith(Run(s, actions).procs[i], r) ==>
      i < |s.procs| && s.procs[i] == Run(s, actions).procs[i]
    decreases |actions|
  {
    hide Inv, Step, OutOfUse, ResetWith;
    if actions != [] {
      StepKeeps(s, actions[0]);
      OutOfUseStep(s, r, actions[0]);
      OutOfUseForever(Step(s, actions[0]), r, actions[1..]);
    }
  }

  /** Once a reset has succeeded, no reset token the user had by then changes the password
      in any continuation, whether its request was under way or starts later: only answers
      already given stand. */
  lemma EarlierResetTokensNeverWork(s: State, pid: nat, r: nat, actions: seq<Action>)
    requires Reachable(s) && pid < |s.procs| && s.procs[pid].Reset?
    requires Step(s, Advance(pid)).procs[pid].outcome.PasswordWasReset?
    requires r in s.db.resets && s.db.resets[r].userId == Step(s, Advance(pid)).procs[pid].outcome.user
    ensures var t := Step(s, Advance(pid)); var u := Run(t, actions);
      forall i :: 0 <= i < |u.procs| && ResetWith(u.procs[i], r) ==> i < |t.procs| && t.procs[i] == u.procs[i]
  {
    hide DbInv, Evolves, Run, ResetPassword, LockedOut, ResetWith;
    ReachableInv(s);
    var p, t := s.procs[pid], Step(s, Advance(pid));
    StepKeeps(s, Advance(pid));
    TablesOf(t.db);
    assert t.db == ResetPassword(s.db, p.hash, p.password, p.now).0;
    ResetSweeps(s.db, p.hash, p.password, p.now);
    assert r in t.db.resets.Keys;
    IdsBelow(t.db, r);
    OutOfUseForever(t, r, actions);
  }
}
