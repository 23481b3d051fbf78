/** Profile images: stored files, the profile's reference to the current one, and the
    requests and worker jobs that move them, one database call at a time. */
module ProfileImage {
  import opened Wrappers

  import U = UserModel

  type UserId = nat
  type FileId = nat

  datatype FileStatus = UPLOADING | ACTIVE | DELETED
  datatype File = File(owner: UserId, status: FileStatus, uploadedAt: Option<int>, deletedAt: Option<int>)

  /** `attached` holds profileImageFileId where it is not null. */
  datatype Db = Db(users: map<UserId, U.Status>, files: map<FileId, File>, attached: map<UserId, FileId>)

  // ----- Transactions and single calls -----

  predicate Present(db: Db, user: UserId) {
    user in db.users && db.users[user] != U.DELETED
  }

  function Attached(db: Db, user: UserId): Option<FileId> {
    if user in db.attached then Some(db.attached[user]) else None
  }

  predicate Owned(files: map<FileId, File>, file: FileId, owner: UserId) {
    file in files && files[file].owner == owner
  }

  function MarkDeleted(files: map<FileId, File>, file: FileId, owner: UserId, now: int): map<FileId, File> {
    if Owned(files, file, owner) && files[file].status != DELETED
    then files[file := files[file].(status := DELETED, deletedAt := Some(now))]
    else files
  }

  function Activate(files: map<FileId, File>, file: FileId, owner: UserId, now: int): map<FileId, File> {
    if Owned(files, file, owner) && files[file].status != DELETED &&
      (files[file].status == UPLOADING || files[file].uploadedAt.None?)
    then files[file := files[file].(status := ACTIVE, uploadedAt := Some(now))]
    else files
  }

  function Attach(db: Db, user: UserId, file: FileId, now: int): Db {
    if !Present(db, user) then db
    else
      var previous := Attached(db, user);
      var files := Activate(db.files, file, user, now);
      var others := previous.Some? && previous.value != file;
      db.(files := if others then MarkDeleted(files, previous.value, user, now) else files,
          attached := db.attached[user := file])
  }

  function Clear(db: Db, user: UserId, now: int): Db {
    var file := Attached(db, user);
    if !Present(db, user) || file.None? then db
    else db.(files := MarkDeleted(db.files, file.value, user, now), attached := db.attached - {user})
  }

  /** What getCurrentProfileImageFile finds when nothing changes between its reads. */
  function Current(db: Db, user: UserId): Option<Option<FileId>> {
    if !Present(db, user) then None
    else if Attached(db, user).None? then Some(None)
    else
      var file := Attached(db, user).value;
      Some(if Owned(db.files, file, user) && db.files[file].status == ACTIVE then Some(file) else None)
  }

  /** A scan of the stored files. */
  function Scan(db: Db, user: UserId): set<FileId> {
    set f | f in db.files && db.files[f].owner == user && db.files[f].status == ACTIVE
  }

  // ----- What each of them is asked to do -----

  predicate OthersStay(a: map<FileId, File>, b: map<FileId, File>, changed: set<FileId>) {
    b.Keys == a.Keys && forall f :: f in a && f !in changed ==> b[f] == a[f]
  }

  /** The owner's file becomes DELETED unless it already is, and nothing else changes. */
  predicate Deletes(a: Db, b: Db, file: FileId, owner: UserId, now: int) {
    && b.users == a.users && b.attached == a.attached && OthersStay(a.files, b.files, {file})
    && (file in a.files ==> b.files[file] == Removed(a.files[file], owner, now))
  }

  function Removed(f: File, owner: UserId, now: int): File {
    if f.owner == owner && f.status != DELETED then File(owner, DELETED, f.uploadedAt, Some(now)) else f
  }

  function Uploaded(f: File, owner: UserId, now: int): File {
    if f.owner == owner && (f.status == UPLOADING || (f.status == ACTIVE && f.uploadedAt.None?))
    then File(owner, ACTIVE, Some(now), f.deletedAt) else f
  }

  /** The file becomes ACTIVE and the user's image, unless it is deleted; the file it replaces
      is deleted. Nothing happens to a user who is gone. */
  predicate Attaches(a: Db, b: Db, user: UserId, file: FileId, now: int) {
    if !(user in a.users && a.users[user] != U.DELETED) then b == a
    else
      && b.users == a.users && b.attached == a.attached[user := file]
      && OthersStay(a.files, b.files, {file} + if user in a.attached then {a.attached[user]} else {})
      && (file in a.files ==> b.files[file] == Uploaded(a.files[file], user, now))
      && (user in a.attached && a.attached[user] != file && a.attached[user] in a.files ==>
            b.files[a.attached[user]] == Removed(a.files[a.attached[user]], user, now))
  }

  /** The reference goes, and the file it named is deleted. */
  predicate Clears(a: Db, b: Db, user: UserId, now: int) {
    if user !in a.attached || !(user in a.users && a.users[user] != U.DELETED) then b == a
    else Deletes(a.(attached := a.attached - {user}), b, a.attached[user], user, now)
  }

  lemma MarkMeans(db: Db, file: FileId, owner: UserId, now: int)
    ensures Deletes(db, db.(files := MarkDeleted(db.files, file, owner, now)), file, owner, now)
  {
  }

  lemma AttachMeans(db: Db, user: UserId, file: FileId, now: int)
    ensures Attaches(db, Attach(db, user, file, now), user, file, now)
  {
  }

  lemma ClearMeans(db: Db, user: UserId, now: int)
    ensures Clears(db, Clear(db, user, now), user, now)
  {
  }

  class ProfileImageRepository {
    var users: map<UserId, U.Status>
    var files: map<FileId, File>
    var attached: map<UserId, FileId>

    constructor ()
      ensures State() == Db(map[], map[], map[])
    {
      users, files, attached := map[], map[], map[];
    }

    function State(): Db
      reads this
    {
      Db(users, files, attached)
    }

    method MarkStoredFileDeleted(fileId: FileId, ownerUserId: UserId, now: int)
      modifies this`files
      ensures State() == old(State()).(files := MarkDeleted(old(files), fileId, ownerUserId, now))
      ensures Deletes(old(State()), State(), fileId, ownerUserId, now)
    {
      if fileId in files && files[fileId].owner == ownerUserId && files[fileId].status != DELETED {
        files := files[fileId := files[fileId].(status := DELETED, deletedAt := Some(now))];
      }
    }

    method AttachProfileImageFile(userId: UserId, fileId: FileId, now: int) returns (result: Option<Option<FileId>>)
      modifies this
      ensures State() == Attach(old(State()), userId, fileId, now)
      ensures Attaches(old(State()), State(), userId, fileId, now)
      ensures result == if Present(old(State()), userId) then Some(Attached(old(State()), userId)) else None
    {
      AttachMeans(State(), userId, fileId, now);
      hide Attaches, Deletes;
      if userId !in users || users[userId] == U.DELETED { return None; }
      var previousFileId := if userId in attached then Some(attached[userId]) else None;
      if fileId in files && files[fileId].owner == userId && files[fileId].status != DELETED
         && (files[fileId].status == UPLOADING || files[fileId].uploadedAt == None) {
        files := files[fileId := files[fileId].(status := ACTIVE, uploadedAt := Some(now))];
      }
      attached := attached[userId := fileId];
      if previousFileId.Some? && previousFileId.value != fileId {
        MarkStoredFileDeleted(previousFileId.value, userId, now);
      }
      return Some(previousFileId);
    }

    method ClearProfileImage(userId: UserId, now: int) returns (cleared: Option<Option<FileId>>)
      modifies this
      ensures State() == Clear(old(State()), userId, now) && Clears(old(State()), State(), userId, now)
      ensures cleared == if !Present(old(State()), userId) then None
                         else Some(match Attached(old(State()), userId)
                                   case Some(f) => if Owned(old(files), f, userId) then Some(f) else None
                                   case None => None)
    {
      ClearMeans(State(), userId, now);
      hide Clears, Deletes;
      if userId !in users || users[userId] == U.DELETED { return None; }
      if userId !in attached { return Some(None); }
      var fileId := attached[userId];
      attached := attached - {userId};
      cleared := Some(if fileId in files && files[fileId].owner == userId then Some(fileId) else None);
      MarkStoredFileDeleted(fileId, userId, now);
    }

    method GetCurrentProfileImageFile(userId: UserId) returns (result: Option<Option<FileId>>)
      ensures result == Current(State(), userId)
    {
      if userId !in users || users[userId] == U.DELETED { return None; }
      if userId !in attached { return Some(None); }
      var fileId := attached[userId];
      if fileId in files && files[fileId].owner == userId && files[fileId].status == ACTIVE {
        return Some(Some(fileId));
      }
      return Some(None);
    }
  }

  // ----- Requests and jobs, one database call at a time -----

  datatype Proc =
    | ToRead(user: UserId)                        // createProfileImageFile
    | ToInsert(user: UserId)
    | ToFind(user: UserId, file: FileId)          // completeUpload
    | ToCompare(user: UserId, file: FileId, seen: FileStatus)
    | ToHead(user: UserId, file: FileId)
    | ToAttach(user: UserId, file: FileId)
    | ToClear(user: UserId)
    | JobDelete(user: UserId, file: FileId)       // worker
    | JobExpire(user: UserId, file: FileId)
    | ToMark(user: UserId, file: FileId)
    | ToCheckUser(user: UserId)                   // getCurrentProfileImageFile
    | ToFollow(user: UserId)
    | ToLoad(user: UserId, file: FileId)
    | Shown(user: UserId, image: Option<FileId>)
    | Finished

  datatype State = State(db: Db, next: FileId, procs: seq<Proc>)

  /** What the object store says of an upload: it is absent, wrong, or as promised; or the
      store is not configured. */
  datatype Upload = Disabled | Missing | Mismatch | Matching

  datatype Action =
    | SignUp(user: UserId)
    | SetStatus(user: UserId, status: U.Status)
    | Spawn(proc: Proc)
    | Advance(pid: nat, now: int, upload: Upload)

  /** What a request or a job may start with. */
  predicate Initial(p: Proc) {
    p.ToRead? || p.ToFind? || p.ToClear? || p.JobDelete? || p.JobExpire? || p.ToCheckUser?
  }

  function Call(db: Db, next: FileId, p: Proc, now: int, upload: Upload): (Db, FileId, Proc) {
    match p
    case ToRead(u) => (db, next, if Present(db, u) then ToInsert(u) else Finished)
    case ToInsert(u) => (db.(files := db.files[next := File(u, UPLOADING, None, None)]), next + 1, Finished)
    case ToFind(u, f) =>
      (db, next,
       if upload.Disabled? || !Owned(db.files, f, u) || db.files[f].status == DELETED then Finished
       else ToCompare(u, f, db.files[f].status))
    case ToCompare(u, f, seen) =>
      (db, next, if seen == ACTIVE && Attached(db, u) == Some(f) then Finished else ToHead(u, f))
    case ToHead(u, f) =>
      (db, next, match upload case Mismatch => ToMark(u, f) case Matching => ToAttach(u, f) case _ => Finished)
    case ToAttach(u, f) => (Attach(db, u, f, now), next, Finished)
    case ToClear(u) => (Clear(db, u, now), next, Finished)
    case JobDelete(u, f) => (db, next, if Owned(db.files, f, u) && !upload.Disabled? then ToMark(u, f) else Finished)
    case JobExpire(u, f) =>
      (db, next, if Owned(db.files, f, u) && db.files[f].status == UPLOADING then ToMark(u, f) else Finished)
    case ToMark(u, f) => (db.(files := MarkDeleted(db.files, f, u, now)), next, Finished)
    case ToCheckUser(u) => (db, next, if Present(db, u) then ToFollow(u) else Finished)
    case ToFollow(u) => (db, next, if Attached(db, u).Some? then ToLoad(u, Attached(db, u).value) else Shown(u, None))
    case ToLoad(u, f) =>
      (db, next, Shown(u, if Owned(db.files, f, u) && db.files[f].status == ACTIVE then Some(f) else None))
    case Shown(_, _) => (db, next, p)
    case Finished => (db, next, p)
  }

  function Step(s: State, a: Action): State {
    match a
    case SignUp(u) => if u in s.db.users then s else s.(db := s.db.(users := s.db.users[u := U.ACTIVE]))
    // Suspension, reactivation and finalized deletion touch neither files nor profile reference.
    case SetStatus(u, status) => if Present(s.db, u) then s.(db := s.db.(users := s.db.users[u := status])) else s
    case Spawn(p) => if Initial(p) then s.(procs := s.procs + [p]) else s
    case Advance(pid, now, upload) =>
      if pid < |s.procs| then
        var (db, next, p) := Call(s.db, s.next, s.procs[pid], now, upload);
        State(db, next, s.procs[pid := p])
      else s
  }

  function Run(s: State, actions: seq<Action>): State
    decreases |actions|
  {
    if actions == [] then s else Run(Step(s, actions[0]), actions[1..])
  }

  const START := State(Db(map[], map[], map[]), 0, [])

  // ----- The invariant -----

  predicate DbInv(db: Db, next: FileId) {
    && (forall f :: f in db.files ==> f < next)
    && (forall f :: f in db.files && db.files[f].status == ACTIVE ==>
          Attached(db, db.files[f].owner) == Some(f) && db.files[f].uploadedAt.Some?)
    && (forall u :: u in db.attached ==> Owned(db.files, db.attached[u], u))
  }

  predicate ProcInv(db: Db, p: Proc) {
    && (p.ToCompare? || p.ToHead? || p.ToAttach? ==> Owned(db.files, p.file, p.user))
    && (p.ToCompare? && p.seen == ACTIVE ==> p.file in db.files && db.files[p.file].status != UPLOADING)
  }

  predicate Inv(s: State) {
    DbInv(s.db, s.next) && forall i :: 0 <= i < |s.procs| ==> ProcInv(s.db, s.procs[i])
  }

  function Rank(status: FileStatus): nat {
    match status case UPLOADING => 0 case ACTIVE => 1 case DELETED => 2
  }

  /** Files stay, keep their owner, and their status only moves forward. */
  predicate Forward(a: Db, b: Db) {
    forall f :: f in a.files ==>
      Owned(b.files, f, a.files[f].owner) && Rank(a.files[f].status) <= Rank(b.files[f].status)
  }

  lemma MarkKeeps(db: Db, next: FileId, f: FileId, owner: UserId, now: int)
    requires DbInv(db, next)
    ensures var d := db.(files := MarkDeleted(db.files, f, owner, now)); DbInv(d, next) && Forward(db, d)
  {
  }

  lemma InsertKeeps(db: Db, next: FileId, u: UserId)
    requires DbInv(db, next)
    ensures var d := db.(files := db.files[next := File(u, UPLOADING, None, None)]);
      DbInv(d, next + 1) && Forward(db, d)
  {
  }

  /** Where an attach leaves each file. */
  lemma AttachedFile(db: Db, next: FileId, user: UserId, file: FileId, now: int, f: FileId)
    requires DbInv(db, next) && Present(db, user) && Owned(db.files, file, user) && f in db.files
    ensures var d := Attach(db, user, file, now);
      && f in d.files && d.files[f].owner == db.files[f].owner
      && d.files[f].status ==
           (if f == file then if db.files[f].status == DELETED then DELETED else ACTIVE
            else if Attached(db, user) == Some(f) then DELETED else db.files[f].status)
      && (d.files[f].status == ACTIVE ==> d.files[f].uploadedAt.Some?)
  {
  }

  lemma AttachKeeps(db: Db, next: FileId, user: UserId, file: FileId, now: int)
    requires DbInv(db, next) && Owned(db.files, file, user)
    ensures var d := Attach(db, user, file, now); DbInv(d, next) && Forward(db, d)
  {
    if Present(db, user) {
      var d := Attach(db, user, file, now);
      forall f | f in db.files ensures f in d.files { AttachedFile(db, next, user, file, now, f); }
      assert d.files.Keys == db.files.Keys;
      assert d.attached == db.attached[user := file];
      hide Attach;
      forall f | f in d.files
        ensures Rank(db.files[f].status) <= Rank(d.files[f].status) && d.files[f].owner == db.files[f].owner
        ensures d.files[f].status == ACTIVE ==> Attached(d, d.files[f].owner) == Some(f) && d.files[f].uploadedAt.Some?
      {
        AttachedFile(db, next, user, file, now, f);
      }
      forall u | u in d.attached ensures Owned(d.files, d.attached[u], u) {
        if u != user { assert Owned(db.files, db.attached[u], u); }
      }
    }
  }

  lemma ClearKeeps(db: Db, next: FileId, user: UserId, now: int)
    requires DbInv(db, next)
    ensures var d := Clear(db, user, now); DbInv(d, next) && Forward(db, d)
  {
  }

  lemma CallKeeps(db: Db, next: FileId, p: Proc, now: int, upload: Upload)
    requires DbInv(db, next) && ProcInv(db, p)
    ensures var (d, n, q) := Call(db, next, p, now, upload);
      DbInv(d, n) && ProcInv(d, q) && Forward(db, d)
  {
    assert Forward(db, db);
    if p.ToMark? { MarkKeeps(db, next, p.file, p.user, now); }
    if p.ToInsert? { InsertKeeps(db, next, p.user); }
    if p.ToAttach? { AttachKeeps(db, next, p.user, p.file, now); }
    if p.ToClear? { ClearKeeps(db, next, p.user, now); }
    hide DbInv, Forward, MarkDeleted, Attach, Clear;
  }

  lemma StepKeeps(s: State, a: Action)
    requires Inv(s)
    ensures Inv(Step(s, a)) && Forward(s.db, Step(s, a).db)
  {
    hide Call;
    if a.Advance? && a.pid < |s.procs| { CallKeeps(s.db, s.next, s.procs[a.pid], a.now, a.upload); }
  }

  lemma {:induction false} RunKeeps(s: State, actions: seq<Action>)
    requires Inv(s)
    ensures Inv(Run(s, actions)) && Forward(s.db, Run(s, actions).db)
    decreases |actions|
  {
    hide Inv, Step;
    if actions != [] {
      StepKeeps(s, actions[0]);
      RunKeeps(Step(s, actions[0]), actions[1..]);
    }
  }

  // ----- Theorems -----

  /** In any run a file's status only moves from UPLOADING to ACTIVE to DELETED. */
  lemma StatusMovesForward(past: seq<Action>, future: seq<Action>, f: FileId)
    requires f in Run(START, past).db.files
    ensures var s := Run(START, past); var u := Run(s, future);
      && f in u.db.files && u.db.files[f].owner == s.db.files[f].owner
      && Rank(s.db.files[f].status) <= Rank(u.db.files[f].status)
  {
    RunKeeps(START, past);
    RunKeeps(Run(START, past), future);
  }

  /** In every reachable state the profile's image is the one a scan of the files finds:
      a user has at most one ACTIVE file, and it is the attached one. */
  lemma CurrentAgreesWithScan(actions: seq<Action>, user: UserId)
    ensures var db := Run(START, actions).db;
      && (forall f :: f in Scan(db, user) ==> Scan(db, user) == {f} && Attached(db, user) == Some(f))
      && (Present(db, user) ==> forall f :: Current(db, user) == Some(Some(f)) <==> f in Scan(db, user))
      && (Present(db, user) ==> (Current(db, user) == Some(None) <==> Scan(db, user) == {}))
  {
    RunKeeps(START, actions);
    var db := Run(START, actions).db;
    var scan := Scan(db, user);
    forall f | f in scan ensures scan == {f} && Attached(db, user) == Some(f) {
      assert forall g :: g in scan ==> Attached(db, user) == Some(g);
    }
    if Present(db, user) && Current(db, user) == Some(None) && Attached(db, user).Some? {
      assert forall g :: g in scan ==> Attached(db, user) == Some(g);
    }
  }

  /** Even when other calls come between its three reads, a file it shows was the user's
      ACTIVE and attached file at the last of them. */
  lemma ShownFileIsCurrent(past: seq<Action>, pid: nat, now: int, upload: Upload)
    requires var s := Run(START, past); pid < |s.procs| && s.procs[pid].ToLoad?
    ensures var s := Run(START, past); var p := s.procs[pid]; var q := Step(s, Advance(pid, now, upload)).procs[pid];
      && q.Shown? && (q.image == Some(p.file) <==> Scan(s.db, p.user) == {p.file})
      && (q.image.Some? ==> Attached(s.db, p.user) == q.image)
  {
    CurrentAgreesWithScan(past, Run(START, past).procs[pid].user);
    RunKeeps(START, past);
    var s := Run(START, past);
    var p := s.procs[pid];
    assert Scan(s.db, p.user) == {p.file} ==> p.file in Scan(s.db, p.user);
  }

  /** completeUpload is about to answer with success: it attaches the file to a present user,
      or it read the file ACTIVE and finds it attached. */
  predicate Completes(s: State, pid: nat) {
    pid < |s.procs| &&
    match s.procs[pid]
    case ToAttach(user, _) => Present(s.db, user)
    case ToCompare(user, file, seen) => seen == ACTIVE && Attached(s.db, user) == Some(file)
    case _ => false
  }

  /** A completed upload leaves its file as the user's only image, unless the file was deleted
      after completeUpload read it: then the user is left with no image at all. */
  lemma CompletionLeaves(past: seq<Action>, pid: nat, now: int, upload: Upload)
    requires Completes(Run(START, past), pid)
    ensures var s := Run(START, past); var p := s.procs[pid]; var t := Step(s, Advance(pid, now, upload));
      && t.procs[pid] == Finished && p.file in s.db.files
      && Scan(t.db, p.user) == (if s.db.files[p.file].status == DELETED then {} else {p.file})
      && Attached(t.db, p.user) == Some(p.file)
  {
    RunKeeps(START, past);
    hide Run;
    var s := Run(START, past);
    var p := s.procs[pid];
    assert ProcInv(s.db, p);
    if p.ToAttach? {
      AttachScan(s.db, s.next, p.user, p.file, now);
    } else {
      AttachedScan(s.db, s.next, p.user, p.file);
    }
  }

  lemma AttachedScan(db: Db, next: FileId, user: UserId, file: FileId)
    requires DbInv(db, next) && Owned(db.files, file, user) && Attached(db, user) == Some(file)
    requires db.files[file].status != UPLOADING
    ensures Scan(db, user) == if db.files[file].status == DELETED then {} else {file}
  {
    assert forall f :: f in Scan(db, user) ==> Attached(db, user) == Some(f);
  }

  lemma AttachScan(db: Db, next: FileId, user: UserId, file: FileId, now: int)
    requires DbInv(db, next) && Present(db, user) && Owned(db.files, file, user)
    ensures var d := Attach(db, user, file, now);
      Scan(d, user) == (if db.files[file].status == DELETED then {} else {file}) && Attached(d, user) == Some(file)
  {
    AttachKeeps(db, next, user, file, now);
    AttachedFile(db, next, user, file, now, file);
    var d := Attach(db, user, file, now);
    assert Attached(d, user) == Some(file);
    hide Attach;
    assert forall f :: f in Scan(d, user) ==> Attached(d, user) == Some(f);
  }

  /** A rejected, expired or cleaned-up file is gone whatever became of it since the job
      looked: when it was attached in between, the user keeps a reference to no image. */
  lemma MarkTakesEvenAttachedImage(past: seq<Action>, pid: nat, now: int, upload: Upload)
    requires var s := Run(START, past); pid < |s.procs| && s.procs[pid].ToMark?
    ensures var s := Run(START, past); var p := s.procs[pid]; var t := Step(s, Advance(pid, now, upload));
      && Scan(t.db, p.user) == Scan(s.db, p.user) - {p.file} && Attached(t.db, p.user) == Attached(s.db, p.user)
      && (p.file in Scan(s.db, p.user) ==> Scan(t.db, p.user) == {} && Attached(t.db, p.user) == Some(p.file))
  {
    CurrentAgreesWithScan(past, Run(START, past).procs[pid].user);
    hide Run;
    var s := Run(START, past);
    var p := s.procs[pid];
    MarkScan(s.db, p.file, p.user, now);
  }

  lemma MarkScan(db: Db, f: FileId, user: UserId, now: int)
    ensures Scan(db.(files := MarkDeleted(db.files, f, user, now)), user) == Scan(db, user) - {f}
  {
  }

  /** A cleared profile shows no image, and the file that was shown is DELETED. */
  lemma ClearLeavesNothing(past: seq<Action>, user: UserId, now: int)
    requires Present(Run(START, past).db, user)
    ensures var db := Run(START, past).db; var d := Clear(db, user, now);
      && Current(d, user) == Some(None) && Scan(d, user) == {}
      && forall f :: f in Scan(db, user) ==>
         f in d.files && d.files[f].status == DELETED && d.files[f].deletedAt == Some(now)
  {
    RunKeeps(START, past);
    var s := Run(START, past);
    ClearScan(s.db, s.next, user, now);
  }

  lemma ClearScan(db: Db, next: FileId, user: UserId, now: int)
    requires DbInv(db, next) && Present(db, user)
    ensures var d := Clear(db, user, now);
      && Attached(d, user) == None && Scan(d, user) == {}
      && forall f :: f in Scan(db, user) ==>
         f in d.files && d.files[f].status == DELETED && d.files[f].deletedAt == Some(now)
  {
    ClearKeeps(db, next, user, now);
    var d := Clear(db, user, now);
    forall f | f in Scan(db, user)
      ensures f in d.files && d.files[f].status == DELETED && d.files[f].deletedAt == Some(now)
    {
      assert Attached(db, user) == Some(f);
    }
    assert Attached(d, user) == None;
    hide Clear;
    assert forall f :: f in Scan(d, user) ==> Attached(d, user) == Some(f);
  }
}
