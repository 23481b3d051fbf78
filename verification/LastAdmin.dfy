/** The last-admin guard, statement by statement under READ COMMITTED. A transaction
    reads its target without a lock, then locks the active-admin rows one by one
    (SELECT ... FOR UPDATE) and counts them, then updates, then commits. Any number of
    transactions interleave at every statement and at every single row lock. */
module LastAdmin {
  import opened UserModel

  type UserId = nat

  datatype User = User(role: Role, status: Status)

  predicate ActiveAdmin(u: User) {
    u.role == ADMIN && u.status == ACTIVE
  }

  /** What a transaction wants to do to its target. */
  datatype Kind = Demote | Promote | Suspend | Reactivate | FinalizeDeletion

  predicate Lowering(k: Kind) {
    k == Demote || k == Suspend || k == FinalizeDeletion
  }

  /** The update, applied to the latest committed version of the row. */
  function Apply(k: Kind, u: User): User {
    match k
    case Demote => u.(role := USER)
    case Promote => u.(role := ADMIN)
    case Suspend => u.(status := SUSPENDED)
    case Reactivate => u.(status := ACTIVE)
    case FinalizeDeletion => User(USER, DELETED)
  }

  predicate AlreadySo(k: Kind, u: User) {
    match k
    case Demote => u.role == USER
    case Promote => u.role == ADMIN
    case Suspend => u.status == SUSPENDED
    case Reactivate => u.status == ACTIVE
    case FinalizeDeletion => false
  }

  datatype Result = NotFound | Unchanged | LastAdminRefused | Committed | Aborted

  datatype Tx =
    | Begun(kind: Kind, target: UserId)
    // decided to take the guard, on what the unlocked read showed
    | Guarding(kind: Kind, target: UserId)
    // inside SELECT ... FOR UPDATE: `pending` matched its snapshot and is still to be locked
    | Locking(kind: Kind, target: UserId, pending: set<UserId>, got: set<UserId>)
    | Updating(kind: Kind, target: UserId, guarded: bool, got: set<UserId>)
    // the update is written but not committed
    | Written(kind: Kind, target: UserId, guarded: bool, got: set<UserId>)
    | Ended(result: Result)

  function Held(t: Tx): set<UserId> {
    match t
    case Locking(_, _, _, got) => got
    case Updating(_, _, _, got) => got
    case Written(_, target, _, got) => got + {target}
    case _ => {}
  }

  datatype State = State(users: map<UserId, User>, txs: seq<Tx>)

  function Admins(users: map<UserId, User>): set<UserId> {
    set u | u in users && ActiveAdmin(users[u])
  }

  predicate HeldByOther(s: State, i: nat, row: UserId) {
    exists j :: 0 <= j < |s.txs| && j != i && row in Held(s.txs[j])
  }

  datatype Action =
    | Spawn(kind: Kind, target: UserId)
    | Advance(pid: nat)
    | LockRow(pid: nat, row: UserId)
    | Abort(pid: nat)
    | SignUp(id: UserId)

  /** The unlocked read and the decisions taken on it. */
  function Read(users: map<UserId, User>, kind: Kind, target: UserId): Tx {
    if target !in users || users[target].status == DELETED then Ended(NotFound)
    else if AlreadySo(kind, users[target]) then Ended(Unchanged)
    else if ActiveAdmin(users[target]) && Lowering(kind) then Guarding(kind, target)
    else Updating(kind, target, false, {})
  }

  function AdvanceTx(s: State, i: nat): State
    requires i < |s.txs|
  {
    match s.txs[i]
    case Begun(kind, target) => s.(txs := s.txs[i := Read(s.users, kind, target)])
    case Guarding(kind, target) => s.(txs := s.txs[i := Locking(kind, target, Admins(s.users), {})])
    case Locking(kind, target, pending, got) =>
      if pending != {} then s
      else if |got| <= 1 then s.(txs := s.txs[i := Ended(LastAdminRefused)])
      else s.(txs := s.txs[i := Updating(kind, target, true, got)])
    case Updating(kind, target, guarded, got) =>
      if HeldByOther(s, i, target) then s // blocked on the row lock
      else s.(txs := s.txs[i := Written(kind, target, guarded, got)])
    case Written(kind, target, _, _) =>
      if target !in s.users then s
      else State(s.users[target := Apply(kind, s.users[target])], s.txs[i := Ended(Committed)])
    case Ended(_) => s
  }

  /** Locking one row waits for its holder; a row that no longer matches once the lock
      is free is skipped. */
  function TakeLock(s: State, i: nat, row: UserId): State
    requires i < |s.txs|
  {
    match s.txs[i]
    case Locking(kind, target, pending, got) =>
      if row !in pending || HeldByOther(s, i, row) then s
      else
        var more := if row in s.users && ActiveAdmin(s.users[row]) then got + {row} else got;
        s.(txs := s.txs[i := Locking(kind, target, pending - {row}, more)])
    case _ => s
  }

  function Step(s: State, a: Action): State {
    match a
    case Spawn(kind, target) => s.(txs := s.txs + [Begun(kind, target)])
    case Advance(i) => if i < |s.txs| then AdvanceTx(s, i) else s
    case LockRow(i, row) => if i < |s.txs| then TakeLock(s, i, row) else s
    case Abort(i) => if i < |s.txs| && !s.txs[i].Ended? then s.(txs := s.txs[i := Ended(Aborted)]) else s
    case SignUp(id) => if id in s.users then s else s.(users := s.users[id := User(USER, ACTIVE)])
  }

  function Run(s: State, actions: seq<Action>): State
    decreases |actions|
  {
    if actions == [] then s else Run(Step(s, actions[0]), actions[1..])
  }

  // ----- The assumption -----

  /** A lowering transaction that read a target which needed no guard, and is still to
      write it. */
  predicate Exposed(t: Tx) {
    t.Updating? && !t.guarded && Lowering(t.kind)
  }

  /** This step commits a promotion or reactivation that makes an active admin of the target
      of an exposed transaction. */
  predicate RaisesExposedTarget(s: State, a: Action) {
    && a.Advance? && a.pid < |s.txs| && s.txs[a.pid].Written?
    && var t := s.txs[a.pid];
       && t.target in s.users && !ActiveAdmin(s.users[t.target]) && ActiveAdmin(Apply(t.kind, s.users[t.target]))
       && exists j :: 0 <= j < |s.txs| && Exposed(s.txs[j]) && s.txs[j].target == t.target
  }

  predicate NoExposedTargetRaised(s: State, actions: seq<Action>)
    decreases |actions|
  {
    actions == [] || (!RaisesExposedTarget(s, actions[0]) && NoExposedTargetRaised(Step(s, actions[0]), actions[1..]))
  }

  // ----- The invariant -----

  /** An active admin is only lowered under the guard, and the guard locked two. */
  predicate Covered(users: map<UserId, User>, t: Tx)
    requires t.Updating? || t.Written?
  {
    t.target in users && (ActiveAdmin(users[t.target]) ==> t.guarded) && (t.guarded ==> |t.got| >= 2)
  }

  ghost predicate TxOk(users: map<UserId, User>, t: Tx) {
    && (forall r :: r in Held(t) && !(t.Written? && r == t.target) ==> r in users && ActiveAdmin(users[r]))
    && (t.Guarding? ==> Lowering(t.kind) && t.target in users)
    && (t.Locking? ==> Lowering(t.kind) && t.target in users)
    && (t.Updating? || t.Written? ==> t.target in users && (Lowering(t.kind) ==> Covered(users, t)))
    && (t.Updating? && !t.guarded ==> t.got == {})
  }

  ghost predicate Inv(s: State) {
    && Admins(s.users) != {}
    && (forall i :: 0 <= i < |s.txs| ==> TxOk(s.users, s.txs[i]))
    && (forall i, j :: 0 <= i < j < |s.txs| ==> Held(s.txs[i]) !! Held(s.txs[j]))
  }

  lemma Exclusive(s: State, i: nat, j: nat)
    requires Inv(s) && i < |s.txs| && j < |s.txs| && i != j
    ensures Held(s.txs[i]) !! Held(s.txs[j])
  {
    if i < j { assert Held(s.txs[i]) !! Held(s.txs[j]); } else { assert Held(s.txs[j]) !! Held(s.txs[i]); }
  }

  /** Replacing one transaction keeps the invariant when the rows stay as they are. */
  lemma ReplaceTx(s: State, i: nat, t: Tx)
    requires Inv(s) && i < |s.txs| && TxOk(s.users, t)
    requires forall r :: r in Held(t) && r !in Held(s.txs[i]) ==> !HeldByOther(s, i, r)
    ensures Inv(s.(txs := s.txs[i := t]))
  {
    var u := s.(txs := s.txs[i := t]);
    forall j | 0 <= j < |s.txs| && j != i
      ensures Held(t) !! Held(s.txs[j])
    {
      Exclusive(s, i, j);
    }
  }

  /** A guarded update leaves another locked, hence active, admin behind. */
  lemma SomeoneRemains(users: map<UserId, User>, t: Tx)
    requires t.Written? && TxOk(users, t) && Admins(users) != {}
    ensures Admins(users[t.target := Apply(t.kind, users[t.target])]) != {}
  {
    var after := users[t.target := Apply(t.kind, users[t.target])];
    if Lowering(t.kind) && ActiveAdmin(users[t.target]) {
      var r := Another(t.got, t.target);
      assert r in Admins(after);
    } else {
      var a :| a in Admins(users);
      assert a in Admins(after);
    }
  }

  lemma Another(s: set<UserId>, x: UserId) returns (r: UserId)
    requires |s| >= 2
    ensures r in s && r != x
  {
    var rest := s - {x};
    assert |rest| >= |s| - 1 by {
      if x in s { assert rest + {x} == s; } else { assert rest == s; }
    }
    r :| r in rest;
  }

  lemma CommitKeeps(s: State, i: nat)
    requires Inv(s) && i < |s.txs| && s.txs[i].Written? && !RaisesExposedTarget(s, Advance(i))
    ensures Inv(AdvanceTx(s, i))
  {
    var t, u := s.txs[i], AdvanceTx(s, i);
    assert TxOk(s.users, t);
    SomeoneRemains(s.users, t);
    forall j | 0 <= j < |u.txs|
      ensures TxOk(u.users, u.txs[j])
    {
      if j != i {
        Exclusive(s, i, j);
        assert TxOk(s.users, s.txs[j]) && t.target in Held(t);
      }
    }
  }

  lemma StepKeeps(s: State, a: Action)
    requires Inv(s) && !RaisesExposedTarget(s, a)
    ensures Inv(Step(s, a))
  {
    match a
    case Spawn(_, _) =>
    case SignUp(id) =>
      if id !in s.users {
        var w :| w in Admins(s.users);
        assert w in Admins(Step(s, a).users);
      }
    case Abort(i) =>
      if i < |s.txs| && !s.txs[i].Ended? { ReplaceTx(s, i, Ended(Aborted)); }
    case LockRow(i, row) =>
      if i < |s.txs| && s.txs[i].Locking? { TakeLockKeeps(s, i, row); }
    case Advance(i) =>
      if i < |s.txs| {
        if s.txs[i].Written? { CommitKeeps(s, i); } else { AdvanceKeeps(s, i); }
      }
  }

  lemma TakeLockKeeps(s: State, i: nat, row: UserId)
    requires Inv(s) && i < |s.txs| && s.txs[i].Locking?
    ensures Inv(TakeLock(s, i, row))
  {
    assert TxOk(s.users, s.txs[i]);
    if row in s.txs[i].pending && !HeldByOther(s, i, row) {
      ReplaceTx(s, i, TakeLock(s, i, row).txs[i]);
    }
  }

  lemma AdvanceKeeps(s: State, i: nat)
    requires Inv(s) && i < |s.txs| && !s.txs[i].Written?
    ensures Inv(AdvanceTx(s, i))
  {
    assert TxOk(s.users, s.txs[i]);
    ReplaceTx(s, i, AdvanceTx(s, i).txs[i]);
    assert AdvanceTx(s, i) == s.(txs := s.txs[i := AdvanceTx(s, i).txs[i]]);
  }

  // ----- The guarantee -----

  lemma {:induction false} InvHolds(s: State, actions: seq<Action>)
    requires Inv(s) && NoExposedTargetRaised(s, actions)
    ensures Inv(Run(s, actions))
    decreases |actions|
  {
    if actions != [] {
      StepKeeps(s, actions[0]);
      InvHolds(Step(s, actions[0]), actions[1..]);
    }
  }

  lemma InvStarts(users: map<UserId, User>)
    requires Admins(users) != {}
    ensures Inv(State(users, []))
  {
  }

  /** From at least one active admin, every interleaving of any number of demotions,
      suspensions and finalizations (and promotions, reactivations, sign-ups, aborts)
      leaves at least one, as long as no commit raises an exposed target. */
  lemma AnActiveAdminRemains(users: map<UserId, User>, actions: seq<Action>)
    requires Admins(users) != {} && NoExposedTargetRaised(State(users, []), actions)
    ensures Admins(Run(State(users, []), actions).users) != {}
  {
    InvStarts(users);
    InvHolds(State(users, []), actions);
  }

  // ----- The assumption is exact -----

  /** Some run leads from one state to the other without raising an exposed target. */
  ghost predicate Safely(s: State, t: State) {
    exists actions :: Run(s, actions) == t && NoExposedTargetRaised(s, actions)
  }

  lemma {:induction false} SafeAppend(s: State, actions: seq<Action>, a: Action)
    requires NoExposedTargetRaised(s, actions) && !RaisesExposedTarget(Run(s, actions), a)
    ensures NoExposedTargetRaised(s, actions + [a])
    decreases |actions|
  {
    hide Step, RaisesExposedTarget;
    var more := actions + [a];
    if actions == [] {
      assert more[1..] == [];
    } else {
      assert more[1..] == actions[1..] + [a];
      SafeAppend(Step(s, actions[0]), actions[1..], a);
    }
  }

  lemma SafelyStays(s: State)
    ensures Safely(s, s)
  {
    assert Run(s, []) == s && NoExposedTargetRaised(s, []);
  }

  lemma SafelyNext(s: State, t: State, a: Action, u: State)
    requires Safely(s, t) && Step(t, a) == u && !RaisesExposedTarget(t, a)
    ensures Safely(s, u)
  {
    hide Step, RaisesExposedTarget;
    var actions :| Run(s, actions) == t && NoExposedTargetRaised(s, actions);
    RunAppend(s, actions, a);
    SafeAppend(s, actions, a);
  }

  /** An exposed transaction whose target is an active admin. */
  predicate Threat(users: map<UserId, User>, t: Tx) {
    t.Updating? && Exposed(t) && t.got == {} && t.target in users && ActiveAdmin(users[t.target])
  }

  /** That transaction alone is still running. */
  predicate Alone(s: State, j: nat, t: Tx) {
    j < |s.txs| && s.txs[j] == t && forall i :: 0 <= i < |s.txs| && i != j ==> s.txs[i].Ended?
  }

  /** All the others can abort. */
  lemma {:induction false} OthersAbort(s0: State, s: State, j: nat, n: nat) returns (u: State)
    requires Safely(s0, s) && j < |s.txs| && n <= |s.txs|
    requires forall i :: 0 <= i < n && i != j ==> s.txs[i].Ended?
    ensures Safely(s0, u) && u.users == s.users && Alone(u, j, s.txs[j])
    decreases |s.txs| - n
  {
    if n == |s.txs| {
      u := s;
    } else {
      var t := if n == j || s.txs[n].Ended? then s else s.(txs := s.txs[n := Ended(Aborted)]);
      if t != s { SafelyNext(s0, s, Abort(n), t); }
      u := OthersAbort(s0, t, j, n + 1);
    }
  }

  function With(s: State, t: Tx): State {
    s.(txs := s.txs + [t])
  }

  /** Beside an exposed transaction, which holds no lock, a last one holds whatever it likes. */
  lemma NobodyElseHolds(s: State, j: nat, t: Tx, last: Tx, row: UserId)
    requires Alone(s, j, t) && Held(t) == {}
    ensures !HeldByOther(With(s, last), |s.txs|, row)
    ensures With(s, last).txs[|s.txs|] == last
  {
  }

  lemma OneStep(s0: State, s: State, before: Tx, a: Action, after: Tx)
    requires Safely(s0, With(s, before)) && Step(With(s, before), a) == With(s, after) && !before.Written?
    requires a == Advance(|s.txs|) || a.LockRow?
    ensures Safely(s0, With(s, after))
  {
    SafelyNext(s0, With(s, before), a, With(s, after));
  }

  lemma {:induction false} LocksAll(s0: State, s: State, j: nat, t: Tx, r: UserId, pending: set<UserId>,
      got: set<UserId>)
    requires Alone(s, j, t) && Held(t) == {} && pending <= Admins(s.users)
    requires Safely(s0, With(s, Locking(Demote, r, pending, got)))
    ensures Safely(s0, With(s, Locking(Demote, r, {}, got + pending)))
    decreases pending
  {
    if pending == {} {
      assert got + pending == got;
    } else {
      var row :| row in pending;
      var before, after := Locking(Demote, r, pending, got), Locking(Demote, r, pending - {row}, got + {row});
      NobodyElseHolds(s, j, t, before, row);
      assert With(s, before).txs[|s.txs| := after] == With(s, after).txs;
      OneStep(s0, s, before, LockRow(|s.txs|, row), after);
      LocksAll(s0, s, j, t, r, pending - {row}, got + {row});
      assert got + {row} + (pending - {row}) == got + pending;
    }
  }

  /** A demotion of another admin goes through the guard, which counts the threatened one. */
  lemma DemotionGetsGuard(s0: State, s: State, j: nat, t: Tx, r: UserId)
    requires Safely(s0, s) && Alone(s, j, t) && Threat(s.users, t) && r in Admins(s.users) && r != t.target
    ensures Safely(s0, With(s, Updating(Demote, r, true, Admins(s.users))))
  {
    var n, admins := |s.txs|, Admins(s.users);
    SafelyNext(s0, s, Spawn(Demote, r), With(s, Begun(Demote, r)));
    Replaced(s, Begun(Demote, r), Guarding(Demote, r));
    OneStep(s0, s, Begun(Demote, r), Advance(n), Guarding(Demote, r));
    Replaced(s, Guarding(Demote, r), Locking(Demote, r, admins, {}));
    OneStep(s0, s, Guarding(Demote, r), Advance(n), Locking(Demote, r, admins, {}));
    LocksAll(s0, s, j, t, r, admins, {});
    assert {} + admins == admins;
    TwoIn(admins, r, t.target);
    Replaced(s, Locking(Demote, r, {}, admins), Updating(Demote, r, true, admins));
    OneStep(s0, s, Locking(Demote, r, {}, admins), Advance(n), Updating(Demote, r, true, admins));
  }

  lemma Replaced(s: State, before: Tx, after: Tx)
    ensures With(s, before).txs[|s.txs| := after] == With(s, after).txs && With(s, before).txs[|s.txs|] == before
  {
  }

  lemma TwoIn(s: set<UserId>, x: UserId, y: UserId)
    requires x in s && y in s && x != y
    ensures |s| >= 2
  {
    assert s == {x, y} + (s - {x, y});
  }

  lemma DemotesOne(s0: State, s: State, j: nat, t: Tx, r: UserId) returns (u: State)
    requires Safely(s0, s) && Alone(s, j, t) && Threat(s.users, t) && r in Admins(s.users) && r != t.target
    ensures Safely(s0, u) && Alone(u, j, t) && Threat(u.users, t) && Admins(u.users) == Admins(s.users) - {r}
  {
    var n, admins := |s.txs|, Admins(s.users);
    DemotionGetsGuard(s0, s, j, t, r);
    var before, after := Updating(Demote, r, true, admins), Written(Demote, r, true, admins);
    NobodyElseHolds(s, j, t, before, r);
    Replaced(s, before, after);
    OneStep(s0, s, before, Advance(n), after);
    Replaced(s, after, Ended(Committed));
    u := State(s.users[r := Apply(Demote, s.users[r])], With(s, Ended(Committed)).txs);
    SafelyNext(s0, With(s, after), Advance(n), u);
  }

  lemma {:induction false} DemotesAllOthers(s0: State, s: State, j: nat, t: Tx) returns (u: State)
    requires Safely(s0, s) && Alone(s, j, t) && Threat(s.users, t)
    ensures Safely(s0, u) && Alone(u, j, t) && Threat(u.users, t) && Admins(u.users) == {t.target}
    decreases Admins(s.users)
  {
    hide Alone, Safely, Step;
    assert t.target in Admins(s.users);
    var others := Admins(s.users) - {t.target};
    if others == {} {
      u := s;
    } else {
      var r :| r in others;
      u := DemotesOne(s0, s, j, t, r);
      u := DemotesAllOthers(s0, u, j, t);
    }
  }

  /** A threat can be carried out without raising anybody further. */
  lemma ThreatComesTrue(s: State, j: nat) returns (last: State)
    requires j < |s.txs| && Threat(s.users, s.txs[j])
    ensures Safely(s, last) && Admins(last.users) == {}
  {
    var t := s.txs[j];
    SafelyStays(s);
    var u := OthersAbort(s, s, j, 0);
    u := DemotesAllOthers(s, u, j, t);
    last := LastOneFalls(s, u, j, t);
  }

  lemma LastOneFalls(s0: State, u: State, j: nat, t: Tx) returns (last: State)
    requires Safely(s0, u) && Alone(u, j, t) && Threat(u.users, t) && Admins(u.users) == {t.target}
    ensures Safely(s0, last) && Admins(last.users) == {}
  {
    assert !HeldByOther(u, j, t.target);
    var v := u.(txs := u.txs[j := Written(t.kind, t.target, false, {})]);
    SafelyNext(s0, u, Advance(j), v);
    last := Step(v, Advance(j));
    SafelyNext(s0, v, Advance(j), last);
    forall r | r in Admins(last.users) ensures r in Admins(u.users) && r != t.target {
      assert last.users == u.users[t.target := Apply(t.kind, u.users[t.target])];
    }
    assert Admins(last.users) <= Admins(u.users) - {t.target};
  }

  /** The assumption is exact. After a run that raised no exposed target, the next step is
      one that does if and only if from then on the system can lose its last active admin
      without raising any other. */
  lemma OnlyExposedRaisesEndanger(users: map<UserId, User>, past: seq<Action>, a: Action)
    requires Admins(users) != {} && NoExposedTargetRaised(State(users, []), past)
    ensures var s := Run(State(users, []), past);
      RaisesExposedTarget(s, a) <==> exists last :: Safely(Step(s, a), last) && Admins(last.users) == {}
  {
    var s := Run(State(users, []), past);
    InvStarts(users);
    InvHolds(State(users, []), past);
    if RaisesExposedTarget(s, a) {
      var j := RaiseThreatens(s, a);
      var last := ThreatComesTrue(Step(s, a), j);
    } else {
      StepKeeps(s, a);
      forall last | Safely(Step(s, a), last) ensures Admins(last.users) != {} {
        SafelyKeeps(Step(s, a), last);
      }
    }
  }

  lemma SafelyKeeps(s: State, last: State)
    requires Inv(s) && Safely(s, last)
    ensures Admins(last.users) != {}
  {
    var actions :| Run(s, actions) == last && NoExposedTargetRaised(s, actions);
    InvHolds(s, actions);
  }

  lemma RaiseThreatens(s: State, a: Action) returns (j: nat)
    requires Inv(s) && RaisesExposedTarget(s, a)
    ensures j < |Step(s, a).txs| && Threat(Step(s, a).users, Step(s, a).txs[j])
  {
    var t := s.txs[a.pid];
    j :| 0 <= j < |s.txs| && Exposed(s.txs[j]) && s.txs[j].target == t.target;
    assert TxOk(s.users, s.txs[j]);
  }

  // ----- A transaction that nothing interrupts -----

  /** What the change makes of a user. */
  function Asked(k: Kind, u: User): User {
    match k
    case Demote => User(USER, u.status)
    case Promote => User(ADMIN, u.status)
    case Suspend => User(u.role, SUSPENDED)
    case Reactivate => User(u.role, ACTIVE)
    case FinalizeDeletion => User(USER, DELETED)
  }

  predicate Missing(users: map<UserId, User>, target: UserId) {
    target !in users || users[target].status == DELETED
  }

  /** The change would take the only active admin away. */
  predicate TakesLastAdmin(users: map<UserId, User>, k: Kind, target: UserId) {
    target in users && Admins(users) == {target} && !ActiveAdmin(Asked(k, users[target]))
  }

  /** How far the transaction can be, and what it knows, when it runs alone on these users. */
  ghost predicate AloneAt(users: map<UserId, User>, k: Kind, target: UserId, t: Tx, now: map<UserId, User>) {
    match t
    case Begun(kind, id) => kind == k && id == target && now == users
    case Guarding(kind, id) => kind == k && id == target && now == users && Guards(users, k, target)
    case Locking(kind, id, pending, got) =>
      kind == k && id == target && now == users && Guards(users, k, target) && pending !! got &&
      pending + got == Admins(users)
    case Updating(kind, id, guarded, got) =>
      kind == k && id == target && now == users && MayWrite(users, k, target)
    case Written(kind, id, _, _) => kind == k && id == target && now == users && MayWrite(users, k, target)
    case Ended(result) => EndsAs(users, k, target, result, now)
  }

  predicate Guards(users: map<UserId, User>, k: Kind, target: UserId) {
    !Missing(users, target) && Asked(k, users[target]) != users[target] && target in Admins(users) &&
    !ActiveAdmin(Asked(k, users[target]))
  }

  predicate MayWrite(users: map<UserId, User>, k: Kind, target: UserId) {
    !Missing(users, target) && Asked(k, users[target]) != users[target] && !TakesLastAdmin(users, k, target)
  }

  /** The one result of a transaction that runs alone, and the users it leaves. */
  predicate EndsAs(users: map<UserId, User>, k: Kind, target: UserId, result: Result, now: map<UserId, User>) {
    && (result == NotFound <==> Missing(users, target))
    && (result == Unchanged <==> !Missing(users, target) && Asked(k, users[target]) == users[target])
    && (result == LastAdminRefused <==> !Missing(users, target) && TakesLastAdmin(users, k, target))
    && result != Aborted
    && now == if result == Committed then users[target := Asked(k, users[target])] else users
  }

  /** Only steps of this transaction, none of them an abort. */
  predicate Own(actions: seq<Action>, pid: nat) {
    forall i :: 0 <= i < |actions| ==> actions[i] == Advance(pid) || (actions[i].LockRow? && actions[i].pid == pid)
  }

  predicate AllEnded(txs: seq<Tx>) {
    forall i :: 0 <= i < |txs| ==> txs[i].Ended?
  }

  lemma AloneStep(s: State, k: Kind, target: UserId, t: Tx, now: map<UserId, User>, a: Action)
    requires AllEnded(s.txs) && AloneAt(s.users, k, target, t, now)
    requires a == Advance(|s.txs|) || (a.LockRow? && a.pid == |s.txs|)
    ensures var u := Step(State(now, s.txs + [t]), a);
      && |u.txs| == |s.txs| + 1 && u.txs[..|s.txs|] == s.txs
      && AloneAt(s.users, k, target, u.txs[|s.txs|], u.users)
  {
    var before := State(now, s.txs + [t]);
    assert forall x :: (s.txs + [t])[|s.txs| := x] == s.txs + [x];
    forall row ensures !HeldByOther(before, |s.txs|, row) { NothingHeld(before, row); }
    hide HeldByOther, AloneAt, AllEnded;
    if a.LockRow? {
      if t.Locking? && a.row in t.pending { AloneLocks(s.users, k, target, t, now, a.row); }
    } else {
      if t.Locking? && t.pending == {} { AloneGuarded(s.users, k, target, t, now); }
      AloneAdvances(s.users, k, target, t, now);
    }
  }

  lemma AloneLocks(users: map<UserId, User>, k: Kind, target: UserId, t: Tx, now: map<UserId, User>, row: UserId)
    requires AloneAt(users, k, target, t, now) && t.Locking? && row in t.pending
    ensures row in now && ActiveAdmin(now[row])
    ensures AloneAt(users, k, target, Locking(t.kind, t.target, t.pending - {row}, t.got + {row}), now)
  {
    assert row in Admins(users);
  }

  lemma AloneGuarded(users: map<UserId, User>, k: Kind, target: UserId, t: Tx, now: map<UserId, User>)
    requires AloneAt(users, k, target, t, now) && t.Locking? && t.pending == {}
    ensures AloneAt(users, k, target,
      if |t.got| <= 1 then Ended(LastAdminRefused) else Updating(t.kind, t.target, true, t.got), now)
  {
    assert t.got == Admins(users);
    OnlyTarget(users, target, t.got);
  }

  lemma AloneAdvances(users: map<UserId, User>, k: Kind, target: UserId, t: Tx, now: map<UserId, User>)
    requires AloneAt(users, k, target, t, now)
    ensures t.Begun? ==> AloneAt(users, k, target, Read(now, t.kind, t.target), now)
    ensures t.Guarding? ==> AloneAt(users, k, target, Locking(t.kind, t.target, Admins(now), {}), now)
    ensures t.Updating? ==> AloneAt(users, k, target, Written(t.kind, t.target, t.guarded, t.got), now)
    ensures t.Written? ==> t.target in now
    ensures t.Written? ==>
      AloneAt(users, k, target, Ended(Committed), now[t.target := Apply(t.kind, now[t.target])])
  {
    if t.Begun? && target in users && ActiveAdmin(users[target]) { assert target in Admins(users); }
  }

  lemma NothingHeld(s: State, row: UserId)
    requires s.txs != [] && AllEnded(s.txs[..|s.txs| - 1])
    ensures !HeldByOther(s, |s.txs| - 1, row)
  {
    forall j | 0 <= j < |s.txs| - 1 ensures Held(s.txs[j]) == {} { assert s.txs[..|s.txs| - 1][j].Ended?; }
  }

  lemma OnlyTarget(users: map<UserId, User>, target: UserId, got: set<UserId>)
    requires target in Admins(users) && got == Admins(users)
    ensures |got| <= 1 <==> got == {target}
  {
    if |got| <= 1 { assert |got - {target}| == 0; }
  }

  /** A change that no other transaction interrupts is refused exactly for a missing user, for one
      it would not change, and for the only active admin when it would take that one away;
      otherwise it makes the change that was asked for. */
  lemma {:induction false} UndisturbedEnds(s: State, k: Kind, target: UserId, t: Tx, now: map<UserId, User>,
      actions: seq<Action>)
    requires AllEnded(s.txs) && AloneAt(s.users, k, target, t, now) && Own(actions, |s.txs|)
    ensures var u := Run(State(now, s.txs + [t]), actions);
      && |u.txs| == |s.txs| + 1
      && (u.txs[|s.txs|].Ended? ==> EndsAs(s.users, k, target, u.txs[|s.txs|].result, u.users))
    decreases |actions|
  {
    if actions != [] {
      AloneStep(s, k, target, t, now, actions[0]);
      var u := Step(State(now, s.txs + [t]), actions[0]);
      assert u.txs == s.txs + [u.txs[|s.txs|]];
      hide Step, AloneAt, AllEnded;
      UndisturbedEnds(s, k, target, u.txs[|s.txs|], u.users, actions[1..]);
    }
  }

  /** The same from its beginning. */
  lemma UndisturbedChange(s: State, k: Kind, target: UserId, actions: seq<Action>)
    requires AllEnded(s.txs) && Own(actions, |s.txs|)
    ensures var u := Run(Step(s, Spawn(k, target)), actions);
      && |u.txs| == |s.txs| + 1
      && (u.txs[|s.txs|].Ended? ==> EndsAs(s.users, k, target, u.txs[|s.txs|].result, u.users))
  {
    UndisturbedEnds(s, k, target, Begun(k, target), s.users, actions);
  }

  // ----- One such run -----

  ghost predicate Reaches(s: State, t: State) {
    exists actions :: Run(s, actions) == t
  }

  lemma ReachesNext(s: State, t: State, a: Action, u: State)
    requires Reaches(s, t) && Step(t, a) == u
    ensures Reaches(s, u)
  {
    var actions :| Run(s, actions) == t;
    RunAppend(s, actions, a);
  }

  lemma {:induction false} RunAppend(s: State, actions: seq<Action>, a: Action)
    ensures Run(s, actions + [a]) == Step(Run(s, actions), a)
    decreases |actions|
  {
    var more := actions + [a];
    if actions == [] {
      assert more[1..] == [];
    } else {
      assert more[1..] == actions[1..] + [a];
      RunAppend(Step(s, actions[0]), actions[1..], a);
    }
  }

  const ONE_ADMIN := map[0 := User(ADMIN, ACTIVE), 1 := User(USER, ACTIVE)]
  const TWO_ADMINS := map[0 := User(ADMIN, ACTIVE), 1 := User(ADMIN, ACTIVE)]
  const OTHER_ADMIN := map[0 := User(USER, ACTIVE), 1 := User(ADMIN, ACTIVE)]

  /** Without the assumption it fails: a suspension that read its target as a plain user
      takes no guard, and hits the only admin when the target is promoted in between. */
  lemma RaisedTargetSlipsThrough() returns (last: State)
    ensures Admins(ONE_ADMIN) == {0}
    ensures Reaches(State(ONE_ADMIN, []), last) && Admins(last.users) == {}
  {
    var s := State(ONE_ADMIN, []);
    var suspending := Updating(Suspend, 1, false, {});
    SuspensionReadsThenPromotion(s);
    DemotionWithTwoAdmins(s);
    var t := State(OTHER_ADMIN, [suspending, Ended(Committed), Ended(Committed)]);
    var u := State(OTHER_ADMIN, [Written(Suspend, 1, false, {}), Ended(Committed), Ended(Committed)]);
    assert !HeldByOther(t, 0, 1);
    ReachesNext(s, t, Advance(0), u);
    last := Step(u, Advance(0));
    ReachesNext(s, u, Advance(0), last);
  }

  lemma SuspensionReadsThenPromotion(s: State)
    requires s == State(ONE_ADMIN, [])
    ensures Reaches(s, State(TWO_ADMINS, [Updating(Suspend, 1, false, {}), Ended(Committed)]))
  {
    var waiting := Updating(Suspend, 1, false, {});
    assert Run(s, []) == s;
    var t := s.(txs := [Begun(Suspend, 1)]);
    ReachesNext(s, s, Spawn(Suspend, 1), t);
    var u := s.(txs := [waiting]);
    ReachesNext(s, t, Advance(0), u);
    t := s.(txs := [waiting, Begun(Promote, 1)]);
    ReachesNext(s, u, Spawn(Promote, 1), t);
    u := s.(txs := [waiting, Updating(Promote, 1, false, {})]);
    ReachesNext(s, t, Advance(1), u);
    t := s.(txs := [waiting, Written(Promote, 1, false, {})]);
    assert !HeldByOther(u, 1, 1);
    ReachesNext(s, u, Advance(1), t);
    ReachesNext(s, t, Advance(1), State(TWO_ADMINS, [waiting, Ended(Committed)]));
  }

  lemma DemotionWithTwoAdmins(s: State)
    requires Reaches(s, State(TWO_ADMINS, [Updating(Suspend, 1, false, {}), Ended(Committed)]))
    ensures Reaches(s, State(OTHER_ADMIN, [Updating(Suspend, 1, false, {}), Ended(Committed), Ended(Committed)]))
  {
    var t0 := State(TWO_ADMINS, [Updating(Suspend, 1, false, {}), Ended(Committed)]);
    DemotionTakesGuard(s, t0);
    LocksBoth(s, t0);
    var t6 := With(t0, Updating(Demote, 0, true, {0, 1}));
    var t7 := With(t0, Written(Demote, 0, true, {0, 1}));
    assert !HeldByOther(t6, 2, 0);
    ReachesNext(s, t6, Advance(2), t7);
    ReachesNext(s, t7, Advance(2), State(OTHER_ADMIN, t0.txs + [Ended(Committed)]));
  }

  lemma DemotionTakesGuard(s: State, t0: State)
    requires t0 == State(TWO_ADMINS, [Updating(Suspend, 1, false, {}), Ended(Committed)]) && Reaches(s, t0)
    ensures Reaches(s, With(t0, Locking(Demote, 0, {0, 1}, {})))
  {
    var t1 := With(t0, Begun(Demote, 0));
    ReachesNext(s, t0, Spawn(Demote, 0), t1);
    var t2 := With(t0, Guarding(Demote, 0));
    ReachesNext(s, t1, Advance(2), t2);
    var t3 := With(t0, Locking(Demote, 0, {0, 1}, {}));
    assert Admins(TWO_ADMINS) == {0, 1};
    ReachesNext(s, t2, Advance(2), t3);
  }

  lemma LocksBoth(s: State, t0: State)
    requires t0 == State(TWO_ADMINS, [Updating(Suspend, 1, false, {}), Ended(Committed)])
    requires Reaches(s, With(t0, Locking(Demote, 0, {0, 1}, {})))
    ensures Reaches(s, With(t0, Updating(Demote, 0, true, {0, 1})))
  {
    var t3 := With(t0, Locking(Demote, 0, {0, 1}, {}));
    var t4 := With(t0, Locking(Demote, 0, {1}, {0}));
    assert !HeldByOther(t3, 2, 0) && {0, 1} - {0} == {1} && {} + {0} == {0};
    ReachesNext(s, t3, LockRow(2, 0), t4);
    var t5 := With(t0, Locking(Demote, 0, {}, {0, 1}));
    assert !HeldByOther(t4, 2, 1) && {1} - {1} == {} && {0} + {1} == {0, 1};
    ReachesNext(s, t4, LockRow(2, 1), t5);
    ReachesNext(s, t5, Advance(2), With(t0, Updating(Demote, 0, true, {0, 1})));
  }
}
