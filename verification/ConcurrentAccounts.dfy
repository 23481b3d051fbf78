/** Account transactions that overlap, under READ COMMITTED: each reads its user without a
    lock, and later updates whatever that row has become and commits. An update holds the row
    until the commit, so the two are one step. Row locks of the last-admin guard, which only
    take interleavings away, are in LastAdmin. */
module ConcurrentAccounts {
  import opened UserModel
  import opened Wrappers
  import A = AccountLifecycle

  /** `row` is the user as the transaction read it. */
  datatype Tx = Begun(call: A.Action) | Writing(call: A.Action, row: A.User) | Ended

  datatype State = State(accounts: A.Accounts, txs: seq<Tx>)

  datatype Action =
    | SignUp(id: A.UserId)
    | Spawn(call: A.Action)
    | Read(pid: nat)
    | Commit(pid: nat)
    // the guard counts no other active admin
    | Refuse(pid: nat)
    | Abort(pid: nat)

  function Wanted(suspend: bool): Status {
    if suspend then SUSPENDED else ACTIVE
  }

  /** What a transaction has to read to go on to its update. */
  predicate Proceeds(u: A.User, call: A.Action) {
    u.status != DELETED &&
    match call
    case Request(_, _, _, _) => u.deletionScheduledFor.None?
    case Cancel(_, _, _, _) => u.deletionScheduledFor.Some?
    case Finalize(_, _, now) =>
      && u.deletedAt.None? && u.deletionScheduledFor.Some? && u.deletionScheduledFor.value <= now
      && u.deletionRequestedSessionId.Some?
    case ChangeRole(_, role) => u.role != role
    case ChangeStatus(_, suspend) => u.status != Wanted(suspend)
    case Join(_) => false
  }

  predicate Guarded(u: A.User, call: A.Action) {
    A.ActiveAdmin(u) && !call.Cancel?
  }

  function Updated(u: A.User, call: A.Action): A.User {
    match call
    case Request(_, session, trace, now) =>
      u.(deletionRequestedAt := Some(now), deletionScheduledFor := Some(now + A.GRACE_PERIOD_MS),
         deletionRequestedSessionId := Some(session), deletionRequestedTraceId := Some(trace))
    case Cancel(_, _, _, _) => A.WithoutRequest(u)
    case Finalize(_, _, now) => A.WithoutRequest(u).(role := USER, status := DELETED, deletedAt := Some(now))
    case ChangeRole(_, role) => u.(role := role)
    case ChangeStatus(_, suspend) => u.(status := Wanted(suspend))
    case Join(_) => u
  }

  function DeletionRows(row: A.User, call: A.Action): seq<A.DeletionAudit> {
    match call
    case Request(id, session, trace, now) => [A.DeletionAudit(id, session, A.REQUESTED, trace, now)]
    case Cancel(id, session, trace, now) => [A.DeletionAudit(id, session, A.CANCELED, trace, now)]
    case Finalize(id, jobId, now) => [FinalizeRow(row, id, jobId, now, A.FINALIZED)]
    case _ => []
  }

  function FinalizeRow(row: A.User, id: A.UserId, jobId: string, now: int, action: A.DeletionAction): A.DeletionAudit {
    A.DeletionAudit(id, row.deletionRequestedSessionId.GetOr(0), action,
      row.deletionRequestedTraceId.GetOr("job:" + jobId), now)
  }

  function StatusRows(row: A.User, call: A.Action): seq<A.StatusAudit> {
    match call
    case Finalize(id, _, _) => [A.StatusAudit(id, row.status, DELETED)]
    case ChangeStatus(id, suspend) => [A.StatusAudit(id, row.status, Wanted(suspend))]
    case _ => []
  }

  function RoleRows(row: A.User, call: A.Action): seq<A.RoleAudit> {
    match call
    case ChangeRole(id, role) => [A.RoleAudit(id, row.role, role)]
    case _ => []
  }

  /** A cancellation is SERIALIZABLE: it fails when its row has changed since it read it. */
  predicate Commits(s: State, pid: nat) {
    pid < |s.txs| && s.txs[pid].Writing? && s.txs[pid].call.id in s.accounts.users &&
    (s.txs[pid].call.Cancel? ==> s.accounts.users[s.txs[pid].call.id] == s.txs[pid].row)
  }

  /** The update applies to the row as it is now, the audit rows tell what was read. */
  function Write(s: A.Accounts, call: A.Action, row: A.User): A.Accounts
    requires call.id in s.users
  {
    A.Accounts(
      s.users[call.id := Updated(s.users[call.id], call)],
      s.deletions + DeletionRows(row, call),
      s.statuses + StatusRows(row, call),
      s.roles + RoleRows(row, call))
  }

  predicate Refuses(s: State, pid: nat) {
    pid < |s.txs| && s.txs[pid].Writing? && Guarded(s.txs[pid].row, s.txs[pid].call)
    && |A.ActiveAdmins(s.accounts.users)| <= 1
  }

  /** Only a refused finalization leaves a trace. */
  function Refusal(s: A.Accounts, call: A.Action, row: A.User): A.Accounts {
    match call
    case Finalize(id, jobId, now) =>
      s.(deletions := s.deletions + [FinalizeRow(row, id, jobId, now, A.FINALIZE_BLOCKED_LAST_ADMIN)])
    case _ => s
  }

  function ReadUser(users: map<A.UserId, A.User>, call: A.Action): Tx {
    if call.id in users && Proceeds(users[call.id], call) then Writing(call, users[call.id]) else Ended
  }

  function Step(s: State, a: Action): State {
    match a
    case SignUp(id) => s.(accounts := A.SignUp(s.accounts, id))
    case Spawn(call) => s.(txs := s.txs + [Begun(call)])
    case Read(i) =>
      if i < |s.txs| && s.txs[i].Begun? then s.(txs := s.txs[i := ReadUser(s.accounts.users, s.txs[i].call)]) else s
    case Commit(i) =>
      if Commits(s, i) then State(Write(s.accounts, s.txs[i].call, s.txs[i].row), s.txs[i := Ended]) else s
    case Refuse(i) =>
      if Refuses(s, i) then State(Refusal(s.accounts, s.txs[i].call, s.txs[i].row), s.txs[i := Ended]) else s
    case Abort(i) => if i < |s.txs| then s.(txs := s.txs[i := Ended]) else s
  }

  function Run(s: State, actions: seq<Action>): State
    decreases |actions|
  {
    if actions == [] then s else Run(Step(s, actions[0]), actions[1..])
  }

  const START := State(A.INIT, [])

  // ----- The invariant -----

  predicate TxOk(users: map<A.UserId, A.User>, t: Tx) {
    t.Writing? ==> t.call.id in users && Proceeds(t.row, t.call)
  }

  predicate Inv(s: State) {
    forall i :: 0 <= i < |s.txs| ==> TxOk(s.accounts.users, s.txs[i])
  }

  /** Where a transaction may be after a step. */
  lemma TxAfter(s: State, a: Action, i: nat)
    requires i < |Step(s, a).txs|
    ensures var t := Step(s, a).txs[i];
      t.Writing? ==>
        i < |s.txs| && (s.txs[i] == t || (s.txs[i] == Begun(t.call) && t == ReadUser(s.accounts.users, t.call)))
  {
    hide Proceeds, Write, Refusal, A.ActiveAdmins, A.SignUp;
  }

  lemma StepKeeps(s: State, a: Action)
    requires Inv(s)
    ensures Inv(Step(s, a))
  {
    hide Proceeds, Step;
    var t := Step(s, a);
    UsersStay(s, a);
    forall i | 0 <= i < |t.txs| ensures TxOk(t.accounts.users, t.txs[i]) {
      TxAfter(s, a, i);
      if t.txs[i].Writing? { assert TxOk(s.accounts.users, s.txs[i]); }
    }
  }

  lemma UsersStay(s: State, a: Action)
    ensures s.accounts.users.Keys <= Step(s, a).accounts.users.Keys
  {
    hide Proceeds, Updated, DeletionRows, StatusRows, RoleRows, Refuses;
  }

  lemma {:induction false} RunKeeps(s: State, actions: seq<Action>)
    requires Inv(s)
    ensures Inv(Run(s, actions))
    decreases |actions|
  {
    hide Inv, Step;
    if actions != [] {
      StepKeeps(s, actions[0]);
      RunKeeps(Step(s, actions[0]), actions[1..]);
    }
  }

  // ----- When nothing overtakes, transactions are atomic -----

  /** Nothing changed the row between this transaction's read and its end, and a guard that let
      it pass still stands. */
  predicate Fresh(s: State, a: Action) {
    match a
    case Commit(i) => Commits(s, i) ==>
      && s.accounts.users[s.txs[i].call.id] == s.txs[i].row
      && (Guarded(s.txs[i].row, s.txs[i].call) ==> |A.ActiveAdmins(s.accounts.users)| >= 2)
    case Refuse(i) => Refuses(s, i) && s.txs[i].call.Finalize? ==>
      && s.txs[i].call.id in s.accounts.users
      && s.accounts.users[s.txs[i].call.id] == s.txs[i].row
    case _ => true
  }

  predicate FreshRun(s: State, actions: seq<Action>)
    decreases |actions|
  {
    actions == [] || (Fresh(s, actions[0]) && FreshRun(Step(s, actions[0]), actions[1..]))
  }

  /** The transactions of a step, as if each took place at its commit. */
  function Serial(s: State, a: Action): seq<A.Action> {
    match a
    case SignUp(id) => [A.Join(id)]
    case Commit(i) => if Commits(s, i) then [s.txs[i].call] else []
    case Refuse(i) => if Refuses(s, i) && s.txs[i].call.Finalize? then [s.txs[i].call] else []
    case _ => []
  }

  function SerialRun(s: State, actions: seq<Action>): seq<A.Action>
    decreases |actions|
  {
    if actions == [] then [] else Serial(s, actions[0]) + SerialRun(Step(s, actions[0]), actions[1..])
  }

  lemma WriteIsAtomic(s: A.Accounts, call: A.Action, row: A.User)
    requires call.id in s.users && s.users[call.id] == row && Proceeds(row, call)
    requires Guarded(row, call) ==> |A.ActiveAdmins(s.users)| >= 2
    ensures Write(s, call, row) == A.Step(s, call)
  {
    hide A.ActiveAdmins;
    assert s.deletions + [] == s.deletions && s.statuses + [] == s.statuses && s.roles + [] == s.roles;
  }

  lemma RefusalIsAtomic(s: A.Accounts, call: A.Action, row: A.User)
    requires call.id in s.users && s.users[call.id] == row && Proceeds(row, call) && call.Finalize?
    requires Guarded(row, call) && |A.ActiveAdmins(s.users)| <= 1
    ensures Refusal(s, call, row) == A.Step(s, call)
  {
    hide A.ActiveAdmins;
  }

  lemma OneAtomic(s: A.Accounts, call: A.Action)
    ensures A.Run(s, [call]) == A.Step(s, call) && A.Run(s, []) == s
  {
    hide A.Step;
    assert [call][1..] == [];
  }

  lemma OthersLeaveNoTrace(s: A.Accounts, call: A.Action, row: A.User)
    requires !call.Finalize?
    ensures Refusal(s, call, row) == s
  {
  }

  lemma FreshStepIsAtomic(s: State, a: Action)
    requires Inv(s) && Fresh(s, a)
    ensures Step(s, a).accounts == A.Run(s.accounts, Serial(s, a))
  {
    hide Write, Refusal, Guarded, Proceeds, A.ActiveAdmins, A.Run, A.SignUp;
    var i := if a.SignUp? || a.Spawn? then 0 else a.pid;
    OneAtomic(s.accounts, if a.SignUp? then A.Join(a.id) else if i < |s.txs| && !s.txs[i].Ended? then s.txs[i].call
      else A.Join(0));
    if i < |s.txs| && s.txs[i].Writing? {
      var t := s.txs[i];
      assert TxOk(s.accounts.users, t);
      if a.Commit? && Commits(s, i) { WriteIsAtomic(s.accounts, t.call, t.row); }
      if a.Refuse? && Refuses(s, i) {
        if t.call.Finalize? {
          RefusalIsAtomic(s.accounts, t.call, t.row);
        } else {
          OthersLeaveNoTrace(s.accounts, t.call, t.row);
        }
      }
    }
  }

  lemma {:induction false} AtomicConcat(s: A.Accounts, p: seq<A.Action>, q: seq<A.Action>)
    ensures A.Run(s, p + q) == A.Run(A.Run(s, p), q)
    decreases |p|
  {
    hide A.Step;
    if p == [] {
      assert p + q == q;
    } else {
      assert (p + q)[1..] == p[1..] + q;
      AtomicConcat(A.Step(s, p[0]), p[1..], q);
    }
  }

  lemma {:induction false} FreshRunsFrom(s: State, actions: seq<Action>)
    requires Inv(s) && FreshRun(s, actions)
    ensures Run(s, actions).accounts == A.Run(s.accounts, SerialRun(s, actions))
    decreases |actions|
  {
    hide Inv, Step, Fresh, Serial;
    if actions == [] {
      OneAtomic(s.accounts, A.Join(0));
    } else {
      FreshStepIsAtomic(s, actions[0]);
      StepKeeps(s, actions[0]);
      FreshRunsFrom(Step(s, actions[0]), actions[1..]);
      AtomicConcat(s.accounts, Serial(s, actions[0]), SerialRun(Step(s, actions[0]), actions[1..]));
    }
  }

  /** A run in which no row changes between a transaction's read and its commit is a run of
      atomic transactions, in the order of their commits: what holds of every run of those
      holds of it. */
  lemma FreshRunsAreSerial(actions: seq<Action>)
    requires FreshRun(START, actions)
    ensures Run(START, actions).accounts == A.Run(A.INIT, SerialRun(START, actions))
  {
    FreshRunsFrom(START, actions);
  }

  // ----- What overtaking does to the deletion requests -----

  /** Requested, and neither canceled nor finalized nor pending. */
  function Unaccounted(s: A.Accounts, id: A.UserId): int {
    A.Count(s.deletions, id, A.REQUESTED) - A.Count(s.deletions, id, A.CANCELED)
    - A.Count(s.deletions, id, A.FINALIZED) - if id in s.users then A.Pending(s.users[id]) else 0
  }

  predicate CommitsOn(s: State, a: Action, id: A.UserId) {
    a.Commit? && Commits(s, a.pid) && s.txs[a.pid].call.id == id
  }

  /** This step commits a request although another was committed since it looked, or a
      finalization although the request it read was canceled or finalized since. */
  function Overtaken(s: State, a: Action, id: A.UserId): int {
    if !CommitsOn(s, a, id) then 0
    else if s.txs[a.pid].call.Request? && s.accounts.users[id].deletionScheduledFor.Some? then 1
    else if s.txs[a.pid].call.Finalize? && s.accounts.users[id].deletionScheduledFor.None? then -1
    else 0
  }

  function Overtakes(s: State, actions: seq<Action>, id: A.UserId): int
    decreases |actions|
  {
    if actions == [] then 0 else Overtaken(s, actions[0], id) + Overtakes(Step(s, actions[0]), actions[1..], id)
  }

  lemma CountAppends(deletions: seq<A.DeletionAudit>, more: seq<A.DeletionAudit>, id: A.UserId,
      action: A.DeletionAction)
    requires |more| <= 1
    ensures A.Count(deletions + more, id, action) ==
      A.Count(deletions, id, action) + if more == [] then 0 else A.Hit(more[0], id, action)
  {
    if more == [] {
      assert deletions + more == deletions;
    } else {
      assert (deletions + more)[..|deletions|] == deletions;
    }
  }

  lemma UnaccountedAfter(s: A.Accounts, t: A.Accounts, more: seq<A.DeletionAudit>, id: A.UserId)
    requires t.deletions == s.deletions + more && |more| <= 1 && (id in s.users <==> id in t.users)
    ensures Unaccounted(t, id) == Unaccounted(s, id)
      + (if more == [] then 0
         else A.Hit(more[0], id, A.REQUESTED) - A.Hit(more[0], id, A.CANCELED) - A.Hit(more[0], id, A.FINALIZED))
      - (if id in s.users then A.Pending(t.users[id]) - A.Pending(s.users[id]) else 0)
  {
    hide A.Count, A.Hit, A.Pending;
    CountAppends(s.deletions, more, id, A.REQUESTED);
    CountAppends(s.deletions, more, id, A.CANCELED);
    CountAppends(s.deletions, more, id, A.FINALIZED);
  }

  lemma WriteAccounts(s: A.Accounts, call: A.Action, row: A.User, id: A.UserId)
    requires call.id in s.users && Proceeds(row, call) && (call.Cancel? ==> s.users[call.id] == row)
    ensures Unaccounted(Write(s, call, row), id) - Unaccounted(s, id) ==
      if call.id != id then 0
      else if call.Request? && s.users[id].deletionScheduledFor.Some? then 1
      else if call.Finalize? && s.users[id].deletionScheduledFor.None? then -1
      else 0
  {
    hide A.Count, Unaccounted;
    UnaccountedAfter(s, Write(s, call, row), DeletionRows(row, call), id);
  }

  lemma StepAccounts(s: State, a: Action, id: A.UserId)
    requires Inv(s)
    ensures Unaccounted(Step(s, a).accounts, id) - Unaccounted(s.accounts, id) == Overtaken(s, a, id)
  {
    hide Unaccounted, Write, Proceeds, Guarded, Updated, A.ActiveAdmins;
    match a
    case Commit(i) =>
      if Commits(s, i) {
        assert TxOk(s.accounts.users, s.txs[i]);
        WriteAccounts(s.accounts, s.txs[i].call, s.txs[i].row, id);
      }
    case Refuse(i) => if Refuses(s, i) { RefusalAccounts(s.accounts, s.txs[i].call, s.txs[i].row, id); }
    case SignUp(u) => SignUpAccounts(s.accounts, u, id);
    case _ =>
  }

  lemma RefusalAccounts(s: A.Accounts, call: A.Action, row: A.User, id: A.UserId)
    ensures Unaccounted(Refusal(s, call, row), id) == Unaccounted(s, id)
  {
    hide A.Count, Unaccounted;
    if call.Finalize? {
      UnaccountedAfter(s, Refusal(s, call, row),
        [FinalizeRow(row, call.id, call.jobId, call.now, A.FINALIZE_BLOCKED_LAST_ADMIN)], id);
    }
  }

  lemma SignUpAccounts(s: A.Accounts, u: A.UserId, id: A.UserId)
    ensures Unaccounted(A.SignUp(s, u), id) == Unaccounted(s, id)
  {
    hide A.Count;
  }

  lemma {:induction false} OffByOvertakes(s: State, actions: seq<Action>, id: A.UserId)
    requires Inv(s)
    ensures Unaccounted(Run(s, actions).accounts, id) == Unaccounted(s.accounts, id) + Overtakes(s, actions, id)
    decreases |actions|
  {
    hide Inv, Step, Unaccounted, Overtaken;
    if actions != [] {
      StepAccounts(s, actions[0], id);
      StepKeeps(s, actions[0]);
      OffByOvertakes(Step(s, actions[0]), actions[1..], id);
    }
  }

  /** In every interleaving the requests of a user that are neither canceled nor finalized nor
      pending are exactly as many as the overtaken requests less the overtaken finalizations. */
  lemma RequestsOffByOvertakes(actions: seq<Action>, id: A.UserId)
    ensures Unaccounted(Run(START, actions).accounts, id) == Overtakes(START, actions, id)
  {
    OffByOvertakes(START, actions, id);
  }

  // ----- A deleted account may come back -----

  ghost predicate Reachable(s: State) {
    exists actions :: Run(START, actions) == s
  }

  lemma ReachableInv(s: State)
    requires Reachable(s)
    ensures Inv(s)
  {
    hide Run, Step;
    var actions :| Run(START, actions) == s;
    RunKeeps(START, actions);
  }

  predicate Deleted(s: State, id: A.UserId) {
    id in s.accounts.users && s.accounts.users[id].status == DELETED
  }

  /** A status change that read the account before it was deleted. */
  predicate StatusChangeUnderWay(s: State, id: A.UserId) {
    exists i :: 0 <= i < |s.txs| && s.txs[i].Writing? && s.txs[i].call.ChangeStatus? && s.txs[i].call.id == id
  }

  lemma DeletedStep(s: State, a: Action, id: A.UserId)
    requires Deleted(s, id) && !StatusChangeUnderWay(s, id)
    ensures Deleted(Step(s, a), id) && !StatusChangeUnderWay(Step(s, a), id)
  {
    var t := Step(s, a);
    assert Deleted(t, id) by { hide Refuses; }
    hide Step;
    forall i | 0 <= i < |t.txs|
      ensures !(t.txs[i].Writing? && t.txs[i].call.ChangeStatus? && t.txs[i].call.id == id)
    {
      TxAfter(s, a, i);
    }
  }

  lemma {:induction false} DeletedStays(s: State, actions: seq<Action>, id: A.UserId)
    requires Deleted(s, id) && !StatusChangeUnderWay(s, id)
    ensures Deleted(Run(s, actions), id)
    decreases |actions|
  {
    hide Deleted, StatusChangeUnderWay, Step;
    if actions != [] {
      DeletedStep(s, actions[0], id);
      DeletedStays(Step(s, actions[0]), actions[1..], id);
    }
  }

  /** A deleted account stays deleted in every continuation exactly when no suspension or
      reactivation that read it before is still to commit. */
  lemma DeletedForGoodExactlyWhen(s: State, id: A.UserId)
    requires Reachable(s) && Deleted(s, id)
    ensures (forall actions :: Deleted(Run(s, actions), id)) <==> !StatusChangeUnderWay(s, id)
  {
    ReachableInv(s);
    if StatusChangeUnderWay(s, id) {
      var i :| 0 <= i < |s.txs| && s.txs[i].Writing? && s.txs[i].call.ChangeStatus? && s.txs[i].call.id == id;
      hide Run;
      RunOfOne(s, Commit(i));
      assert !Deleted(Run(s, [Commit(i)]), id);
    } else {
      hide Run, Deleted, StatusChangeUnderWay;
      forall actions ensures Deleted(Run(s, actions), id) { DeletedStays(s, actions, id); }
    }
  }

  lemma RunOfOne(s: State, a: Action)
    ensures Run(s, [a]) == Step(s, a)
  {
    hide Step;
    assert [a][1..] == [];
  }

  // ----- Three runs -----

  lemma {:induction false} RunAppend(s: State, actions: seq<Action>, a: Action)
    ensures Run(s, actions + [a]) == Step(Run(s, actions), a)
    decreases |actions|
  {
    hide Step;
    var more := actions + [a];
    if actions == [] {
      assert more[1..] == [];
    } else {
      assert more[1..] == actions[1..] + [a];
      RunAppend(Step(s, actions[0]), actions[1..], a);
    }
  }

  lemma ReachesNext(s: State, a: Action, t: State)
    requires Reachable(s) && Step(s, a) == t
    ensures Reachable(t)
  {
    hide Step;
    var actions :| Run(START, actions) == s;
    RunAppend(START, actions, a);
  }

  lemma Waits(s: State, call: A.Action)
    requires Reachable(s)
    ensures Reachable(s.(txs := s.txs + [Begun(call)]))
  {
    ReachesNext(s, Spawn(call), s.(txs := s.txs + [Begun(call)]));
  }

  lemma Reads(s: State, i: nat)
    requires Reachable(s) && i < |s.txs| && s.txs[i].Begun?
    ensures Reachable(s.(txs := s.txs[i := ReadUser(s.accounts.users, s.txs[i].call)]))
  {
    hide ReadUser;
    ReachesNext(s, Read(i), s.(txs := s.txs[i := ReadUser(s.accounts.users, s.txs[i].call)]));
  }

  lemma Writes(s: State, i: nat)
    requires Reachable(s) && Commits(s, i)
    ensures Reachable(State(Write(s.accounts, s.txs[i].call, s.txs[i].row), s.txs[i := Ended]))
  {
    hide Write;
    ReachesNext(s, Commit(i), State(Write(s.accounts, s.txs[i].call, s.txs[i].row), s.txs[i := Ended]));
  }

  /** A transaction that nothing comes between. */
  lemma Atomically(s: State, call: A.Action)
    requires Reachable(s) && call.id in s.accounts.users && Proceeds(s.accounts.users[call.id], call)
    ensures Reachable(State(Write(s.accounts, call, s.accounts.users[call.id]), s.txs + [Ended]))
  {
    hide Write, Proceeds, Reachable;
    var n, row := |s.txs|, s.accounts.users[call.id];
    Waits(s, call);
    var t := s.(txs := s.txs + [Begun(call)]);
    Reads(t, n);
    assert t.txs[n := Writing(call, row)] == s.txs + [Writing(call, row)];
    var u := s.(txs := s.txs + [Writing(call, row)]);
    Writes(u, n);
    assert u.txs[n := Ended] == s.txs + [Ended];
  }

  /** One that has read its user and waits. */
  lemma UnderWay(s: State, call: A.Action)
    requires Reachable(s) && call.id in s.accounts.users && Proceeds(s.accounts.users[call.id], call)
    ensures Reachable(s.(txs := s.txs + [Writing(call, s.accounts.users[call.id])]))
  {
    hide Proceeds, Reachable;
    var n, row := |s.txs|, s.accounts.users[call.id];
    Waits(s, call);
    var t := s.(txs := s.txs + [Begun(call)]);
    Reads(t, n);
    assert t.txs[n := Writing(call, row)] == s.txs + [Writing(call, row)];
  }

  lemma NewAccount(id: A.UserId)
    ensures Reachable(State(A.Accounts(map[id := A.NEW_USER], [], [], []), []))
  {
    assert Run(START, []) == START;
    ReachesNext(START, SignUp(id), State(A.Accounts(map[id := A.NEW_USER], [], [], []), []));
  }

  /** Two first requests of one user overlap: both are recorded, one is pending. */
  lemma RequestedTwice(id: A.UserId, session: nat, trace: string, now: int) returns (s: State)
    ensures Reachable(s) && id in s.accounts.users && A.Pending(s.accounts.users[id]) == 1
    ensures var row := A.DeletionAudit(id, session, A.REQUESTED, trace, now); s.accounts.deletions == [row, row]
  {
    NewAccount(id);
    s := State(A.Accounts(map[id := A.NEW_USER], [], [], []), []);
    var call := A.Request(id, session, trace, now);
    UnderWay(s, call);
    s := s.(txs := s.txs + [Writing(call, A.NEW_USER)]);
    hide Reachable;
    Atomically(s, call);
    s := State(Write(s.accounts, call, A.NEW_USER), s.txs + [Ended]);
    Writes(s, 0);
    s := State(Write(s.accounts, call, A.NEW_USER), s.txs[0 := Ended]);
  }

  /** A user cancels in time, after the worker has read the due request: the account is
      deleted all the same. */
  lemma CanceledYetDeleted(id: A.UserId, session: nat, trace: string, jobId: string, now: int) returns (s: State)
    ensures Reachable(s) && Deleted(s, id)
    ensures var due := now + A.GRACE_PERIOD_MS; s.accounts.deletions == [
      A.DeletionAudit(id, session, A.REQUESTED, trace, now),
      A.DeletionAudit(id, session, A.CANCELED, trace, due),
      A.DeletionAudit(id, session, A.FINALIZED, trace, due)]
  {
    NewAccount(id);
    s := State(A.Accounts(map[id := A.NEW_USER], [], [], []), []);
    hide Reachable;
    var due := now + A.GRACE_PERIOD_MS;
    var request := A.Request(id, session, trace, now);
    Atomically(s, request);
    s := State(Write(s.accounts, request, A.NEW_USER), s.txs + [Ended]);
    var row := s.accounts.users[id];
    var job, cancel := A.Finalize(id, jobId, due), A.Cancel(id, session, trace, due);
    UnderWay(s, job);
    s := s.(txs := s.txs + [Writing(job, row)]);
    Atomically(s, cancel);
    s := State(Write(s.accounts, cancel, row), s.txs + [Ended]);
    Writes(s, 1);
    s := State(Write(s.accounts, job, row), s.txs[1 := Ended]);
  }

  /** A reactivation reads the suspended account, then the worker deletes it, then the
      reactivation commits: the account is active again, with nothing left of it. */
  lemma DeletedYetActive(id: A.UserId, session: nat, trace: string, jobId: string, now: int)
    returns (before: State, s: State)
    ensures Reachable(before) && Deleted(before, id)
    ensures Reachable(s) && id in s.accounts.users && s.accounts.users[id].status == ACTIVE
    ensures s.accounts.users[id].deletedAt.Some?
  {
    NewAccount(id);
    s := State(A.Accounts(map[id := A.NEW_USER], [], [], []), []);
    hide Reachable;
    var request, suspend := A.Request(id, session, trace, now), A.ChangeStatus(id, true);
    Atomically(s, request);
    s := State(Write(s.accounts, request, A.NEW_USER), s.txs + [Ended]);
    var pending := s.accounts.users[id];
    Atomically(s, suspend);
    s := State(Write(s.accounts, suspend, pending), s.txs + [Ended]);
    var row := s.accounts.users[id];
    var reactivate, job := A.ChangeStatus(id, false), A.Finalize(id, jobId, now + A.GRACE_PERIOD_MS);
    UnderWay(s, reactivate);
    s := s.(txs := s.txs + [Writing(reactivate, row)]);
    Atomically(s, job);
    s := State(Write(s.accounts, job, row), s.txs + [Ended]);
    before := s;
    Writes(s, 2);
    s := State(Write(s.accounts, reactivate, row), s.txs[2 := Ended]);
  }
}
