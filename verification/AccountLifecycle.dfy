/** Role, status and deletion of accounts, with their audit rows: what each
    transaction commits, and what holds of any sequence of them. */
module AccountLifecycle {
  import opened UserModel
  import opened Wrappers

  type UserId = nat

  datatype User = User(
    role: Role,
    status: Status,
    deletionRequestedAt: Option<int>,
    deletionScheduledFor: Option<int>,
    deletionRequestedSessionId: Option<nat>,
    deletionRequestedTraceId: Option<string>,
    deletedAt: Option<int>)

  datatype DeletionAction = REQUESTED | CANCELED | FINALIZED | FINALIZE_BLOCKED_LAST_ADMIN

  /** `at` is the time the transaction worked with. */
  datatype DeletionAudit = DeletionAudit(user: UserId, session: nat, action: DeletionAction, trace: string, at: int)
  datatype StatusAudit = StatusAudit(target: UserId, oldStatus: Status, newStatus: Status)
  datatype RoleAudit = RoleAudit(target: UserId, oldRole: Role, newRole: Role)

  datatype Accounts = Accounts(
    users: map<UserId, User>,
    deletions: seq<DeletionAudit>,
    statuses: seq<StatusAudit>,
    roles: seq<RoleAudit>)

  const GRACE_PERIOD_MS := 30 * 24 * 60 * 60 * 1000

  const NEW_USER := User(USER, ACTIVE, None, None, None, None, None)

  predicate ActiveAdmin(u: User) {
    u.role == ADMIN && u.status == ACTIVE
  }

  function ActiveAdmins(users: map<UserId, User>): set<UserId> {
    set u | u in users && ActiveAdmin(users[u])
  }

  function WithoutRequest(u: User): User {
    u.(deletionRequestedAt := None, deletionScheduledFor := None, deletionRequestedSessionId := None,
       deletionRequestedTraceId := None)
  }

  datatype RequestResult = RequestOk | AlreadyRequested(scheduledFor: int) | RequestNotFound | RequestLastAdmin

  function RequestDeletion(s: Accounts, id: UserId, session: nat, trace: string, now: int, scheduledFor: int)
    : (Accounts, RequestResult)
  {
    if id !in s.users || s.users[id].status == DELETED then (s, RequestNotFound)
    else
      var u := s.users[id];
      if u.deletionScheduledFor.Some? then (s, AlreadyRequested(u.deletionScheduledFor.value))
      else if ActiveAdmin(u) && |ActiveAdmins(s.users)| <= 1 then (s, RequestLastAdmin)
      else
        (s.(users := s.users[id := u.(deletionRequestedAt := Some(now), deletionScheduledFor := Some(scheduledFor),
                                      deletionRequestedSessionId := Some(session),
                                        deletionRequestedTraceId := Some(trace))],
            deletions := s.deletions + [DeletionAudit(id, session, REQUESTED, trace, now)]),
         RequestOk)
  }

  datatype CancelResult = CancelOk | NotRequested | CancelNotFound

  function CancelDeletion(s: Accounts, id: UserId, session: nat, trace: string, now: int): (Accounts, CancelResult) {
    if id !in s.users || s.users[id].status == DELETED then (s, CancelNotFound)
    else if s.users[id].deletionScheduledFor.None? then (s, NotRequested)
    else
      (s.(users := s.users[id := WithoutRequest(s.users[id])],
          deletions := s.deletions + [DeletionAudit(id, session, CANCELED, trace, now)]),
       CancelOk)
  }

  datatype FinalizeResult = Finalized | BlockedLastAdmin | NotDue | Skipped | MissingSessionId

  function FinalizeDeletion(s: Accounts, id: UserId, jobId: string, now: int): (Accounts, FinalizeResult) {
    if id !in s.users || s.users[id].status == DELETED || s.users[id].deletedAt.Some? then (s, Skipped)
    else
      var u := s.users[id];
      var trace := u.deletionRequestedTraceId.GetOr("job:" + jobId);
      if u.deletionScheduledFor.None? then (s, Skipped)
      else if u.deletionScheduledFor.value > now then (s, NotDue)
      else if u.deletionRequestedSessionId.None? then (s, MissingSessionId)
      else if ActiveAdmin(u) && |ActiveAdmins(s.users)| <= 1 then
        (s.(deletions := s.deletions
              + [DeletionAudit(id, u.deletionRequestedSessionId.value, FINALIZE_BLOCKED_LAST_ADMIN, trace, now)]),
         BlockedLastAdmin)
      else
        (Accounts(
           s.users[id := User(USER, DELETED, None, None, None, None, Some(now))],
           s.deletions + [DeletionAudit(id, u.deletionRequestedSessionId.value, FINALIZED, trace, now)],
           s.statuses + [StatusAudit(id, u.status, DELETED)],
           s.roles),
         Finalized)
  }

  datatype AdminResult = AdminOk | AdminNotFound | AdminLastAdmin

  function SetRole(s: Accounts, id: UserId, role: Role): (Accounts, AdminResult) {
    if id !in s.users || s.users[id].status == DELETED then (s, AdminNotFound)
    else
      var u := s.users[id];
      if u.role == role then (s, AdminOk)
      else if ActiveAdmin(u) && |ActiveAdmins(s.users)| <= 1 then (s, AdminLastAdmin)
      else (s.(users := s.users[id := u.(role := role)], roles := s.roles + [RoleAudit(id, u.role, role)]), AdminOk)
  }

  function SetStatus(s: Accounts, id: UserId, suspend: bool): (Accounts, AdminResult) {
    var status := if suspend then SUSPENDED else ACTIVE;
    if id !in s.users || s.users[id].status == DELETED then (s, AdminNotFound)
    else
      var u := s.users[id];
      if u.status == status then (s, AdminOk)
      else if ActiveAdmin(u) && |ActiveAdmins(s.users)| <= 1 then (s, AdminLastAdmin)
      else (s.(users := s.users[id := u.(status := status)], statuses := s.statuses + [StatusAudit(id, u.status,
        status)]),
            AdminOk)
  }

  function SignUp(s: Accounts, id: UserId): Accounts {
    if id in s.users then s else s.(users := s.users[id := NEW_USER])
  }

  // ----- What each transaction is asked to do -----

  predicate Existing(users: map<UserId, User>, id: UserId) {
    id in users && users[id].status != DELETED
  }

  /** Without this account nobody would administer. */
  predicate OnlyActiveAdmin(users: map<UserId, User>, id: UserId) {
    id in users && ActiveAdmin(users[id]) && forall u :: u in users && ActiveAdmin(users[u]) ==> u == id
  }

  predicate OthersStay(a: map<UserId, User>, b: map<UserId, User>, id: UserId) {
    b.Keys == a.Keys && forall u :: u in a && u != id ==> b[u] == a[u]
  }

  /** A request is refused for an account that is missing, that has one pending or that is the
      only active admin; otherwise it is pending from then on, with one REQUESTED row. */
  predicate Requested(s: Accounts, t: Accounts, id: UserId, session: nat, trace: string, now: int, scheduledFor: int,
      r: RequestResult)
  {
    && (r.RequestNotFound? <==> !Existing(s.users, id))
    && (r.AlreadyRequested? <==> Existing(s.users, id) && s.users[id].deletionScheduledFor.Some?)
    && (r.RequestLastAdmin? <==>
          Existing(s.users, id) && s.users[id].deletionScheduledFor.None? && OnlyActiveAdmin(s.users, id))
    && (r.AlreadyRequested? ==> s.users[id].deletionScheduledFor == Some(r.scheduledFor))
    && (!r.RequestOk? ==> t == s)
    && (r.RequestOk? ==>
          && OthersStay(s.users, t.users, id) && t.statuses == s.statuses && t.roles == s.roles
          && t.users[id].role == s.users[id].role && t.users[id].status == s.users[id].status
          && t.users[id].deletedAt == s.users[id].deletedAt && t.users[id].deletionRequestedAt == Some(now)
          && t.users[id].deletionScheduledFor == Some(scheduledFor)
          && t.users[id].deletionRequestedSessionId == Some(session)
          && t.users[id].deletionRequestedTraceId == Some(trace)
          && t.deletions == s.deletions + [DeletionAudit(id, session, REQUESTED, trace, now)])
  }

  predicate Canceled(s: Accounts, t: Accounts, id: UserId, session: nat, trace: string, now: int, r: CancelResult) {
    && (r.CancelNotFound? <==> !Existing(s.users, id))
    && (r.NotRequested? <==> Existing(s.users, id) && s.users[id].deletionScheduledFor.None?)
    && (!r.CancelOk? ==> t == s)
    && (r.CancelOk? ==>
          && OthersStay(s.users, t.users, id) && t.statuses == s.statuses && t.roles == s.roles
          && t.users[id] == User(s.users[id].role, s.users[id].status, None, None, None, None, s.users[id].deletedAt)
          && t.deletions == s.deletions + [DeletionAudit(id, session, CANCELED, trace, now)])
  }

  /** The deletion of this account is due. */
  predicate Due(users: map<UserId, User>, id: UserId, now: int) {
    Existing(users, id) && users[id].deletedAt.None? && users[id].deletionScheduledFor.Some? &&
    users[id].deletionScheduledFor.value <= now
  }

  /** A due account is deleted unless it is the only active admin, which leaves a row. */
  predicate FinalizedWhenDue(s: Accounts, t: Accounts, id: UserId, jobId: string, now: int, r: FinalizeResult) {
    && (r.Skipped? <==> !Existing(s.users, id) || s.users[id].deletedAt.Some? || s.users[id].deletionScheduledFor.None?)
    && (r.NotDue? || r.Skipped? <==> !Due(s.users, id, now))
    && (r.MissingSessionId? <==> Due(s.users, id, now) && s.users[id].deletionRequestedSessionId.None?)
    && (r.BlockedLastAdmin? <==>
          Due(s.users, id, now) && s.users[id].deletionRequestedSessionId.Some? && OnlyActiveAdmin(s.users, id))
    && (r.Skipped? || r.NotDue? || r.MissingSessionId? ==> t == s)
    && (r.BlockedLastAdmin? || r.Finalized? ==>
          && t.deletions == s.deletions + [DeletionAudit(id, s.users[id].deletionRequestedSessionId.value,
               if r.Finalized? then FINALIZED else FINALIZE_BLOCKED_LAST_ADMIN,
               s.users[id].deletionRequestedTraceId.GetOr("job:" + jobId), now)]
          && t.roles == s.roles && OthersStay(s.users, t.users, id))
    && (r.BlockedLastAdmin? ==> t.users == s.users && t.statuses == s.statuses)
    && (r.Finalized? ==>
          && t.users[id] == User(USER, DELETED, None, None, None, None, Some(now))
          && t.statuses == s.statuses + [StatusAudit(id, s.users[id].status, DELETED)])
  }

  /** Only the role of this account changes, unless it would leave no active admin. */
  predicate RoleChanged(s: Accounts, t: Accounts, id: UserId, role: Role, r: AdminResult) {
    && (r.AdminNotFound? <==> !Existing(s.users, id))
    && (r.AdminLastAdmin? <==> Existing(s.users, id) && OnlyActiveAdmin(s.users, id) && role != ADMIN)
    && (!r.AdminOk? ==> t == s)
    && (r.AdminOk? ==>
          && OthersStay(s.users, t.users, id) && t.users[id] == s.users[id].(role := role)
          && t.deletions == s.deletions && t.statuses == s.statuses
          && t.roles == s.roles + if s.users[id].role == role then [] else [RoleAudit(id, s.users[id].role, role)])
  }

  /** Only the status of this account changes, unless it would leave no active admin. */
  predicate StatusChanged(s: Accounts, t: Accounts, id: UserId, suspend: bool, r: AdminResult) {
    && (r.AdminNotFound? <==> !Existing(s.users, id))
    && (r.AdminLastAdmin? <==> Existing(s.users, id) && OnlyActiveAdmin(s.users, id) && suspend)
    && (!r.AdminOk? ==> t == s)
    && (r.AdminOk? ==>
          var status := if suspend then SUSPENDED else ACTIVE;
          && OthersStay(s.users, t.users, id) && t.users[id] == s.users[id].(status := status)
          && t.deletions == s.deletions && t.roles == s.roles
          && t.statuses == s.statuses +
               if s.users[id].status == status then [] else [StatusAudit(id, s.users[id].status, status)])
  }

  lemma OnlyOneCounted(users: map<UserId, User>, id: UserId)
    requires id in users && ActiveAdmin(users[id])
    ensures |ActiveAdmins(users)| <= 1 <==> OnlyActiveAdmin(users, id)
  {
    var admins := ActiveAdmins(users);
    assert id in admins;
    if OnlyActiveAdmin(users, id) {
      assert admins == {id};
    } else {
      var u :| u in users && ActiveAdmin(users[u]) && u != id;
      assert u in admins - {id} && |admins - {id}| == |admins| - 1;
    }
  }

  lemma RequestMeans(s: Accounts, id: UserId, session: nat, trace: string, now: int, scheduledFor: int)
    ensures var (t, r) := RequestDeletion(s, id, session, trace, now, scheduledFor);
      Requested(s, t, id, session, trace, now, scheduledFor, r)
  {
    hide ActiveAdmins;
    if id in s.users && ActiveAdmin(s.users[id]) { OnlyOneCounted(s.users, id); }
  }

  lemma CancelMeans(s: Accounts, id: UserId, session: nat, trace: string, now: int)
    ensures var (t, r) := CancelDeletion(s, id, session, trace, now); Canceled(s, t, id, session, trace, now, r)
  {
  }

  lemma FinalizeMeans(s: Accounts, id: UserId, jobId: string, now: int)
    ensures var (t, r) := FinalizeDeletion(s, id, jobId, now); FinalizedWhenDue(s, t, id, jobId, now, r)
  {
    hide ActiveAdmins;
    if id in s.users && ActiveAdmin(s.users[id]) { OnlyOneCounted(s.users, id); }
  }

  lemma SetRoleMeans(s: Accounts, id: UserId, role: Role)
    ensures var (t, r) := SetRole(s, id, role); RoleChanged(s, t, id, role, r)
  {
    hide ActiveAdmins;
    if id in s.users && ActiveAdmin(s.users[id]) { OnlyOneCounted(s.users, id); }
    assert s.roles + [] == s.roles;
  }

  lemma SetStatusMeans(s: Accounts, id: UserId, suspend: bool)
    ensures var (t, r) := SetStatus(s, id, suspend); StatusChanged(s, t, id, suspend, r)
  {
    hide ActiveAdmins;
    if id in s.users && ActiveAdmin(s.users[id]) { OnlyOneCounted(s.users, id); }
    assert s.statuses + [] == s.statuses;
  }

  /** The tables, and the transactions as they run on them. */
  class AccountStore {
    var users: map<UserId, User>
    var deletions: seq<DeletionAudit>
    var statuses: seq<StatusAudit>
    var roles: seq<RoleAudit>

    ghost function State(): Accounts
      reads this
    {
      Accounts(users, deletions, statuses, roles)
    }

    constructor ()
      ensures State() == Accounts(map[], [], [], [])
    {
      users, deletions, statuses, roles := map[], [], [], [];
    }

    /** SELECT id ... WHERE role = 'ADMIN' AND status = 'ACTIVE' FOR UPDATE */
    method LockActiveAdminInvariant() returns (count: nat)
      ensures count == |ActiveAdmins(users)|
    {
      var locked := set u | u in users && users[u].role == ADMIN && users[u].status == ACTIVE;
      assert locked == ActiveAdmins(users);
      count := |locked|;
    }

    method RequestAccountDeletion(id: UserId, session: nat, trace: string, now: int, scheduledFor: int)
      returns (r: RequestResult)
      modifies this
      ensures (State(), r) == RequestDeletion(old(State()), id, session, trace, now, scheduledFor)
      ensures Requested(old(State()), State(), id, session, trace, now, scheduledFor, r)
    {
      RequestMeans(State(), id, session, trace, now, scheduledFor);
      hide Requested;
      if id !in users { return RequestNotFound; }
      var user := users[id];
      if user.status == DELETED { return RequestNotFound; }
      if user.role == ADMIN && user.status == ACTIVE && user.deletionScheduledFor == None {
        var count := LockActiveAdminInvariant();
        if count <= 1 { return RequestLastAdmin; }
      }
      if user.deletionScheduledFor != None { return AlreadyRequested(user.deletionScheduledFor.value); }
      users := users[id := user.(deletionRequestedAt := Some(now), deletionScheduledFor := Some(scheduledFor),
                                 deletionRequestedSessionId := Some(session), deletionRequestedTraceId := Some(trace))];
      deletions := deletions + [DeletionAudit(id, session, REQUESTED, trace, now)];
      return RequestOk;
    }

    /** The users service on top of it: thirty days of grace. */
    method RequestWithGracePeriod(id: UserId, session: nat, trace: string, now: int)
      returns (r: RequestResult, due: int, newlyRequested: bool)
      modifies this
      ensures (State(), r) == RequestDeletion(old(State()), id, session, trace, now, now + GRACE_PERIOD_MS)
      ensures Requested(old(State()), State(), id, session, trace, now, now + GRACE_PERIOD_MS, r)
      ensures newlyRequested <==> r.RequestOk?
      ensures r.RequestOk? ==> due == now + GRACE_PERIOD_MS
      ensures r.AlreadyRequested? ==> due == r.scheduledFor
    {
      hide Requested;
      var scheduledFor := now + GRACE_PERIOD_MS;
      r := RequestAccountDeletion(id, session, trace, now, scheduledFor);
      due := if r.AlreadyRequested? then r.scheduledFor else scheduledFor;
      newlyRequested := r.RequestOk?;
    }

    method CancelAccountDeletion(id: UserId, session: nat, trace: string, now: int) returns (r: CancelResult)
      modifies this
      ensures (State(), r) == CancelDeletion(old(State()), id, session, trace, now)
      ensures Canceled(old(State()), State(), id, session, trace, now, r)
    {
      CancelMeans(State(), id, session, trace, now);
      hide Canceled;
      if id !in users { return CancelNotFound; }
      var user := users[id];
      if user.status == DELETED { return CancelNotFound; }
      if user.deletionScheduledFor == None { return NotRequested; }
      users := users[id := user.(deletionRequestedAt := None, deletionScheduledFor := None,
                                 deletionRequestedSessionId := None, deletionRequestedTraceId := None)];
      deletions := deletions + [DeletionAudit(id, session, CANCELED, trace, now)];
      return CancelOk;
    }

    method RunFinalizeAccountDeletion(id: UserId, jobId: string, now: int) returns (r: FinalizeResult)
      modifies this
      ensures (State(), r) == FinalizeDeletion(old(State()), id, jobId, now)
      ensures FinalizedWhenDue(old(State()), State(), id, jobId, now, r)
    {
      FinalizeMeans(State(), id, jobId, now);
      hide FinalizedWhenDue;
      if id !in users { return Skipped; }
      var user := users[id];
      if user.status == DELETED || user.deletedAt != None { return Skipped; }
      if user.deletionScheduledFor == None { return Skipped; }
      if user.deletionScheduledFor.value > now { return NotDue; }
      if user.role == ADMIN && user.status == ACTIVE {
        var activeAdminCount := LockActiveAdminInvariant();
        if activeAdminCount <= 1 {
          if user.deletionRequestedSessionId == None { return MissingSessionId; }
          var trace := user.deletionRequestedTraceId.GetOr("job:" + jobId);
          deletions := deletions
            + [DeletionAudit(id, user.deletionRequestedSessionId.value, FINALIZE_BLOCKED_LAST_ADMIN, trace, now)];
          return BlockedLastAdmin;
        }
      }
      if user.deletionRequestedSessionId == None { return MissingSessionId; }
      var trace := user.deletionRequestedTraceId.GetOr("job:" + jobId);
      users := users[id := user.(role := USER, status := DELETED, deletedAt := Some(now), deletionRequestedAt := None,
                                 deletionScheduledFor := None, deletionRequestedSessionId := None,
                                 deletionRequestedTraceId := None)];
      statuses := statuses + [StatusAudit(id, user.status, DELETED)];
      deletions := deletions + [DeletionAudit(id, user.deletionRequestedSessionId.value, FINALIZED, trace, now)];
      return Finalized;
    }

    method SetUserRole(id: UserId, role: Role) returns (r: AdminResult)
      modifies this
      ensures (State(), r) == SetRole(old(State()), id, role)
      ensures RoleChanged(old(State()), State(), id, role, r)
    {
      SetRoleMeans(State(), id, role);
      hide RoleChanged;
      if id !in users { return AdminNotFound; }
      var found := users[id];
      if found.status == DELETED { return AdminNotFound; }
      if found.role == role { return AdminOk; }
      if found.role == ADMIN && found.status == ACTIVE && role != ADMIN {
        var adminCount := LockActiveAdminInvariant();
        if adminCount <= 1 { return AdminLastAdmin; }
      }
      users := users[id := found.(role := role)];
      roles := roles + [RoleAudit(id, found.role, role)];
      return AdminOk;
    }

    method SetUserStatus(id: UserId, suspend: bool) returns (r: AdminResult)
      modifies this
      ensures (State(), r) == SetStatus(old(State()), id, suspend)
      ensures StatusChanged(old(State()), State(), id, suspend, r)
    {
      SetStatusMeans(State(), id, suspend);
      hide StatusChanged;
      var nextStatus := if suspend then SUSPENDED else ACTIVE;
      if id !in users { return AdminNotFound; }
      var found := users[id];
      if found.status == DELETED { return AdminNotFound; }
      if found.status == nextStatus { return AdminOk; }
      if found.role == ADMIN && found.status == ACTIVE && nextStatus == SUSPENDED {
        var activeAdminCount := LockActiveAdminInvariant();
        if activeAdminCount <= 1 { return AdminLastAdmin; }
      }
      users := users[id := found.(status := nextStatus)];
      statuses := statuses + [StatusAudit(id, found.status, nextStatus)];
      return AdminOk;
    }
  }

  // ----- Runs -----

  datatype Action =
    | Request(id: UserId, session: nat, trace: string, now: int)
    | Cancel(id: UserId, session: nat, trace: string, now: int)
    | Finalize(id: UserId, jobId: string, now: int)
    | ChangeRole(id: UserId, role: Role)
    | ChangeStatus(id: UserId, suspend: bool)
    | Join(id: UserId)

  function Step(s: Accounts, a: Action): Accounts {
    match a
    case Request(id, session, trace, now) => RequestDeletion(s, id, session, trace, now, now + GRACE_PERIOD_MS).0
    case Cancel(id, session, trace, now) => CancelDeletion(s, id, session, trace, now).0
    case Finalize(id, jobId, now) => FinalizeDeletion(s, id, jobId, now).0
    case ChangeRole(id, role) => SetRole(s, id, role).0
    case ChangeStatus(id, suspend) => SetStatus(s, id, suspend).0
    case Join(id) => SignUp(s, id)
  }

  function Run(s: Accounts, actions: seq<Action>): Accounts
    decreases |actions|
  {
    if actions == [] then s else Run(Step(s, actions[0]), actions[1..])
  }

  const INIT := Accounts(map[], [], [], [])

  // ----- What the audit rows say -----

  function Hit(a: DeletionAudit, id: UserId, action: DeletionAction): nat {
    if a.user == id && a.action == action then 1 else 0
  }

  function NowOpen(a: DeletionAudit, id: UserId, before: Option<int>): Option<int> {
    if a.user != id || a.action == FINALIZE_BLOCKED_LAST_ADMIN then before
    else if a.action == REQUESTED then Some(a.at)
    else None
  }

  function Count(deletions: seq<DeletionAudit>, id: UserId, action: DeletionAction): nat {
    if deletions == [] then 0
    else Count(deletions[..|deletions| - 1], id, action) + Hit(deletions[|deletions| - 1], id, action)
  }

  /** When the request was made that no later row cancels or finalizes. */
  function OpenRequest(deletions: seq<DeletionAudit>, id: UserId): Option<int> {
    if deletions == [] then None
    else NowOpen(deletions[|deletions| - 1], id, OpenRequest(deletions[..|deletions| - 1], id))
  }

  function AuditedStatus(statuses: seq<StatusAudit>, id: UserId): Status {
    if statuses == [] then ACTIVE
    else if statuses[|statuses| - 1].target == id then statuses[|statuses| - 1].newStatus
    else AuditedStatus(statuses[..|statuses| - 1], id)
  }

  function AuditedRole(roles: seq<RoleAudit>, id: UserId): Role {
    if roles == [] then USER
    else if roles[|roles| - 1].target == id then roles[|roles| - 1].newRole
    else AuditedRole(roles[..|roles| - 1], id)
  }

  // ----- The invariant -----

  function Pending(u: User): nat {
    if u.deletionScheduledFor.Some? then 1 else 0
  }

  /** The four deletion fields are set together, and never on a deleted account. */
  predicate UserOk(u: User) {
    && u.deletionRequestedAt.Some? == u.deletionScheduledFor.Some?
    && u.deletionRequestedSessionId.Some? == u.deletionScheduledFor.Some?
    && u.deletionRequestedTraceId.Some? == u.deletionScheduledFor.Some?
    && (u.deletionScheduledFor.Some? ==> u.deletionScheduledFor.value == u.deletionRequestedAt.value + GRACE_PERIOD_MS)
    && (u.status == DELETED <==> u.deletedAt.Some?)
    && (u.status == DELETED ==> u.role == USER && u.deletionScheduledFor.None?)
  }

  ghost predicate Balanced(s: Accounts, id: UserId) {
    var u := if id in s.users then s.users[id] else NEW_USER;
    && Count(s.deletions, id, REQUESTED) ==
       Count(s.deletions, id, CANCELED) + Count(s.deletions, id, FINALIZED) + Pending(u)
    && Count(s.deletions, id, FINALIZED) == (if u.status == DELETED then 1 else 0)
    && OpenRequest(s.deletions, id) == u.deletionRequestedAt
    && AuditedStatus(s.statuses, id) == u.status
    && (u.status != DELETED ==> AuditedRole(s.roles, id) == u.role)
  }

  /** A finalization row is preceded by an open request at least the grace period older. */
  predicate FinalizedInTime(deletions: seq<DeletionAudit>, i: int)
    requires 0 <= i < |deletions|
  {
    deletions[i].action == FINALIZED ==>
      var open := OpenRequest(deletions[..i], deletions[i].user);
      open.Some? && open.value + GRACE_PERIOD_MS <= deletions[i].at
  }

  ghost predicate AllInTime(deletions: seq<DeletionAudit>) {
    forall i :: 0 <= i < |deletions| ==> FinalizedInTime(deletions, i)
  }

  predicate StatusLinked(statuses: seq<StatusAudit>, i: int)
    requires 0 <= i < |statuses|
  {
    statuses[i].oldStatus == AuditedStatus(statuses[..i], statuses[i].target) &&
      statuses[i].oldStatus != statuses[i].newStatus
  }

  /** The status rows of a user form a chain: each starts where the one before ended. */
  ghost predicate AllLinked(statuses: seq<StatusAudit>) {
    forall i :: 0 <= i < |statuses| ==> StatusLinked(statuses, i)
  }

  ghost predicate Inv(s: Accounts) {
    && (forall id :: id in s.users ==> UserOk(s.users[id]))
    && (forall id :: Balanced(s, id))
    && AllInTime(s.deletions)
    && AllLinked(s.statuses)
  }

  lemma AppendDeletion(s: Accounts, a: DeletionAudit)
    requires AllInTime(s.deletions)
    requires a.action == FINALIZED ==>
      OpenRequest(s.deletions, a.user).Some? && OpenRequest(s.deletions, a.user).value + GRACE_PERIOD_MS <= a.at
    ensures AllInTime(s.deletions + [a])
    ensures forall id, act :: Count(s.deletions + [a], id, act) == Count(s.deletions, id, act) + Hit(a, id, act)
    ensures forall id :: OpenRequest(s.deletions + [a], id) == NowOpen(a, id, OpenRequest(s.deletions, id))
  {
    var all := s.deletions + [a];
    assert all[..|all| - 1] == s.deletions;
    forall i | 0 <= i < |all|
      ensures FinalizedInTime(all, i)
    {
      if i < |s.deletions| {
        assert FinalizedInTime(s.deletions, i) && all[..i] == s.deletions[..i];
      }
    }
  }

  lemma AppendStatus(statuses: seq<StatusAudit>, a: StatusAudit)
    requires AllLinked(statuses) && a.oldStatus == AuditedStatus(statuses, a.target) && a.oldStatus != a.newStatus
    ensures AllLinked(statuses + [a])
    ensures forall id :: AuditedStatus(statuses + [a], id) == if a.target == id then a.newStatus
      else AuditedStatus(statuses, id)
  {
    var all := statuses + [a];
    assert all[..|all| - 1] == statuses;
    forall i | 0 <= i < |all|
      ensures StatusLinked(all, i)
    {
      if i < |statuses| {
        assert StatusLinked(statuses, i) && all[..i] == statuses[..i];
      }
    }
  }

  lemma AppendRole(roles: seq<RoleAudit>, a: RoleAudit)
    ensures forall id :: AuditedRole(roles + [a], id) == if a.target == id then a.newRole else AuditedRole(roles, id)
  {
    assert (roles + [a])[..|roles + [a]| - 1] == roles;
  }

  /** A step that appends one deletion row about `a.user` and touches no other user. */
  lemma DeletionRowKeeps(s: Accounts, t: Accounts, a: DeletionAudit)
    requires Inv(s) && t.deletions == s.deletions + [a]
    requires a.action == FINALIZED ==>
      OpenRequest(s.deletions, a.user).Some? && OpenRequest(s.deletions, a.user).value + GRACE_PERIOD_MS <= a.at
    requires a.user in s.users && a.user in t.users && t.users == s.users[a.user := t.users[a.user]]
    requires UserOk(t.users[a.user])
    requires forall id :: id != a.user ==> AuditedStatus(t.statuses, id) == AuditedStatus(s.statuses, id)
    requires t.roles == s.roles && AllLinked(t.statuses)
    requires AuditedStatus(t.statuses, a.user) == t.users[a.user].status
    requires t.users[a.user].status != DELETED ==>
      t.users[a.user].role == s.users[a.user].role && s.users[a.user].status != DELETED
    requires NowOpen(a, a.user, s.users[a.user].deletionRequestedAt) == t.users[a.user].deletionRequestedAt
    requires Hit(a, a.user, REQUESTED) + Pending(s.users[a.user])
      == Hit(a, a.user, CANCELED) + Hit(a, a.user, FINALIZED) + Pending(t.users[a.user])
    requires (if t.users[a.user].status == DELETED then 1 else 0)
      == (if s.users[a.user].status == DELETED then 1 else 0) + Hit(a, a.user, FINALIZED)
    ensures Inv(t)
  {
    hide AllInTime, AllLinked, UserOk;
    AppendDeletion(s, a);
    forall id ensures Balanced(t, id) { assert Balanced(s, id); }
  }

  lemma RequestKeeps(s: Accounts, id: UserId, session: nat, trace: string, now: int)
    requires Inv(s)
    ensures Inv(RequestDeletion(s, id, session, trace, now, now + GRACE_PERIOD_MS).0)
  {
    hide AllInTime, AllLinked;
    var (t, r) := RequestDeletion(s, id, session, trace, now, now + GRACE_PERIOD_MS);
    if r.RequestOk? {
      assert Balanced(s, id) && UserOk(s.users[id]);
      DeletionRowKeeps(s, t, DeletionAudit(id, session, REQUESTED, trace, now));
    }
  }

  lemma CancelKeeps(s: Accounts, id: UserId, session: nat, trace: string, now: int)
    requires Inv(s)
    ensures Inv(CancelDeletion(s, id, session, trace, now).0)
  {
    hide AllInTime, AllLinked;
    var (t, r) := CancelDeletion(s, id, session, trace, now);
    if r.CancelOk? {
      assert Balanced(s, id) && UserOk(s.users[id]);
      DeletionRowKeeps(s, t, DeletionAudit(id, session, CANCELED, trace, now));
    }
  }

  lemma FinalizeKeeps(s: Accounts, id: UserId, jobId: string, now: int)
    requires Inv(s)
    ensures Inv(FinalizeDeletion(s, id, jobId, now).0) && FinalizeDeletion(s, id, jobId, now).1 != MissingSessionId
  {
    hide AllInTime, AllLinked;
    var (t, r) := FinalizeDeletion(s, id, jobId, now);
    assert id in s.users ==> UserOk(s.users[id]) && Balanced(s, id);
    if r == Finalized { AppendStatus(s.statuses, StatusAudit(id, s.users[id].status, DELETED)); }
    if r == Finalized || r == BlockedLastAdmin { DeletionRowKeeps(s, t, t.deletions[|t.deletions| - 1]); }
  }

  lemma SetRoleKeeps(s: Accounts, id: UserId, role: Role)
    requires Inv(s)
    ensures Inv(SetRole(s, id, role).0)
  {
    hide AllInTime, AllLinked;
    if id in s.users && s.users[id].status != DELETED {
      AppendRole(s.roles, RoleAudit(id, s.users[id].role, role));
      forall other ensures Balanced(SetRole(s, id, role).0, other) { assert Balanced(s, other); }
    }
  }

  lemma SetStatusKeeps(s: Accounts, id: UserId, suspend: bool)
    requires Inv(s)
    ensures Inv(SetStatus(s, id, suspend).0)
  {
    hide AllInTime, AllLinked;
    var t := SetStatus(s, id, suspend).0;
    if t != s {
      assert UserOk(s.users[id]) && Balanced(s, id);
      AppendStatus(s.statuses, StatusAudit(id, s.users[id].status, if suspend then SUSPENDED else ACTIVE));
      forall other ensures Balanced(t, other) { assert Balanced(s, other); }
    }
  }

  lemma SignUpKeeps(s: Accounts, id: UserId)
    requires Inv(s)
    ensures Inv(SignUp(s, id))
  {
    hide AllInTime, AllLinked;
    forall other ensures Balanced(SignUp(s, id), other) { assert Balanced(s, other); }
  }

  lemma StepKeeps(s: Accounts, a: Action)
    requires Inv(s)
    ensures Inv(Step(s, a))
  {
    hide Inv, RequestDeletion, CancelDeletion, FinalizeDeletion, SetRole, SetStatus, SignUp;
    match a
    case Request(id, session, trace, now) => RequestKeeps(s, id, session, trace, now);
    case Cancel(id, session, trace, now) => CancelKeeps(s, id, session, trace, now);
    case Finalize(id, jobId, now) => FinalizeKeeps(s, id, jobId, now);
    case ChangeRole(id, role) => SetRoleKeeps(s, id, role);
    case ChangeStatus(id, suspend) => SetStatusKeeps(s, id, suspend);
    case Join(id) => SignUpKeeps(s, id);
  }

  lemma {:induction false} RunKeeps(s: Accounts, actions: seq<Action>)
    requires Inv(s)
    ensures Inv(Run(s, actions))
    decreases |actions|
  {
    if actions != [] {
      StepKeeps(s, actions[0]);
      RunKeeps(Step(s, actions[0]), actions[1..]);
    }
  }

  // ----- What holds in every run -----

  /** REQUESTED rows are exactly the canceled, the finalized and the pending ones. */
  lemma RequestsAreConserved(actions: seq<Action>, id: UserId)
    requires id in Run(INIT, actions).users
    ensures var s := Run(INIT, actions);
      && Count(s.deletions, id, REQUESTED)
           == Count(s.deletions, id, CANCELED) + Count(s.deletions, id, FINALIZED) + Pending(s.users[id])
      && Count(s.deletions, id, FINALIZED) == (if s.users[id].status == DELETED then 1 else 0)
  {
    RunKeeps(INIT, actions);
    assert Balanced(Run(INIT, actions), id);
  }

  /** So the throw for a missing session id cannot happen. */
  lemma MissingSessionIdUnreachable(actions: seq<Action>, id: UserId, jobId: string, now: int)
    ensures FinalizeDeletion(Run(INIT, actions), id, jobId, now).1 != MissingSessionId
    ensures id in Run(INIT, actions).users ==> UserOk(Run(INIT, actions).users[id])
  {
    RunKeeps(INIT, actions);
    FinalizeKeeps(Run(INIT, actions), id, jobId, now);
  }

  /** Every finalization row comes at least thirty days after a request of that user
      that nothing canceled or finalized in between. */
  lemma FinalizedOnlyAfterGracePeriod(actions: seq<Action>, i: nat)
    requires i < |Run(INIT, actions).deletions| && Run(INIT, actions).deletions[i].action == FINALIZED
    ensures var rows := Run(INIT, actions).deletions;
      exists j :: 0 <= j < i && rows[j].user == rows[i].user && rows[j].action == REQUESTED
        && rows[j].at + GRACE_PERIOD_MS <= rows[i].at && Uninterrupted(rows, rows[i].user, j, i)
  {
    RunKeeps(INIT, actions);
    var rows := Run(INIT, actions).deletions;
    assert FinalizedInTime(rows, i);
    var j := OpenRequestRow(rows[..i], rows[i].user);
    assert rows[..i][j] == rows[j];
    assert forall k :: j < k < i ==> rows[..i][k] == rows[k];
    assert Uninterrupted(rows, rows[i].user, j, i);
  }

  predicate Uninterrupted(rows: seq<DeletionAudit>, id: UserId, j: int, i: int)
    requires 0 <= j <= i <= |rows|
  {
    forall k :: j < k < i ==> rows[k].user != id || rows[k].action == FINALIZE_BLOCKED_LAST_ADMIN
  }

  lemma {:induction false} OpenRequestRow(rows: seq<DeletionAudit>, id: UserId) returns (j: nat)
    requires OpenRequest(rows, id).Some?
    ensures j < |rows| && rows[j].user == id && rows[j].action == REQUESTED && rows[j].at == OpenRequest(rows, id).value
    ensures Uninterrupted(rows, id, j, |rows|)
    decreases |rows|
  {
    var n := |rows| - 1;
    if rows[n].user != id || rows[n].action == FINALIZE_BLOCKED_LAST_ADMIN {
      j := OpenRequestRow(rows[..n], id);
      assert forall k :: j < k < n ==> rows[..n][k] == rows[k];
    } else {
      j := n;
    }
  }

  /** The current status is where the user's chain of status rows ends, and the current
      role of an account that is not deleted is where its role rows end. */
  lemma AuditsExplainTheAccount(actions: seq<Action>, id: UserId)
    requires id in Run(INIT, actions).users
    ensures var s := Run(INIT, actions);
      && AuditedStatus(s.statuses, id) == s.users[id].status
      && AllLinked(s.statuses)
      && (s.users[id].status != DELETED ==> AuditedRole(s.roles, id) == s.users[id].role)
  {
    RunKeeps(INIT, actions);
    assert Balanced(Run(INIT, actions), id);
  }

  /** No transaction takes the last active admin away. */
  lemma AdminStays(s: Accounts, a: Action)
    requires ActiveAdmins(s.users) != {}
    ensures ActiveAdmins(Step(s, a).users) != {}
  {
    hide RequestDeletion, CancelDeletion, FinalizeDeletion, SetRole, SetStatus;
    match a {
      case Request(id, session, trace, now) => RequestMeans(s, id, session, trace, now, now + GRACE_PERIOD_MS);
      case Cancel(id, session, trace, now) => CancelMeans(s, id, session, trace, now);
      case Finalize(id, jobId, now) => FinalizeMeans(s, id, jobId, now);
      case ChangeRole(id, role) => SetRoleMeans(s, id, role);
      case ChangeStatus(id, suspend) => SetStatusMeans(s, id, suspend);
      case Join(_) =>
    }
    AnotherStays(s.users, Step(s, a).users, a.id);
  }

  lemma AnotherStays(a: map<UserId, User>, b: map<UserId, User>, id: UserId)
    requires ActiveAdmins(a) != {} && (forall u :: u in a && u != id ==> u in b && b[u] == a[u])
    requires id in a && ActiveAdmin(a[id]) && !OnlyActiveAdmin(a, id) ==> id in b
    requires id in a && OnlyActiveAdmin(a, id) ==> id in b && ActiveAdmin(b[id])
    ensures ActiveAdmins(b) != {}
  {
    if u :| u in a && ActiveAdmin(a[u]) && u != id {
      assert u in ActiveAdmins(b);
    } else {
      var u :| u in ActiveAdmins(a);
      assert id in ActiveAdmins(b);
    }
  }

  /** So an active admin remains in every run of these transactions. */
  lemma {:induction false} AdminRemains(s: Accounts, actions: seq<Action>)
    requires ActiveAdmins(s.users) != {}
    ensures ActiveAdmins(Run(s, actions).users) != {}
    decreases |actions|
  {
    hide Step, ActiveAdmins;
    if actions != [] {
      AdminStays(s, actions[0]);
      AdminRemains(Step(s, actions[0]), actions[1..]);
    }
  }

  /** A deleted account stays exactly as it is. */
  lemma {:induction false} DeletedIsTerminal(s: Accounts, id: UserId, actions: seq<Action>)
    requires id in s.users && s.users[id].status == DELETED
    ensures id in Run(s, actions).users && Run(s, actions).users[id] == s.users[id]
    decreases |actions|
  {
    if actions != [] {
      DeletedIsTerminal(Step(s, actions[0]), id, actions[1..]);
    }
  }
}
