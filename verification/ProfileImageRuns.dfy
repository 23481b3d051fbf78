/** Runs in which a user ends up without the image the service reported, and what becomes of
    the image of a deleted account. */
module ProfileImageRuns {
  import opened Wrappers
  import opened ProfileImage
  import U = UserModel

  // ----- Runs from the start -----

  ghost predicate Reachable(s: State) {
    exists actions :: Run(START, actions) == s
  }

  lemma {:induction false} RunAppend(s: State, actions: seq<Action>, a: Action)
    ensures Run(s, actions + [a]) == Step(Run(s, actions), a)
    decreases |actions|
  {
    hide Step;
    var more := actions + [a];
    if actions == [] {
      assert more[1..] == [];
    } else {
      assert more[1..] == actions[1..] + [a];
      RunAppend(Step(s, actions[0]), actions[1..], a);
    }
  }

  lemma ReachesNext(s: State, a: Action, t: State)
    requires Reachable(s) && Step(s, a) == t
    ensures Reachable(t)
  {
    hide Step;
    var actions :| Run(START, actions) == s;
    RunAppend(START, actions, a);
  }

  lemma ReachableInv(s: State)
    requires Reachable(s)
    ensures Inv(s)
  {
    hide Inv, Run;
    var actions :| Run(START, actions) == s;
    assert Inv(START) by { StartInv(); }
    RunKeeps(START, actions);
  }

  lemma StartInv()
    ensures Inv(START)
  {
  }

  function With(s: State, p: Proc): State {
    s.(procs := s.procs + [p])
  }

  lemma Starts(s: State, p: Proc)
    requires Reachable(s) && Initial(p)
    ensures Reachable(With(s, p))
  {
    ReachesNext(s, Spawn(p), With(s, p));
  }

  /** One call of the newest request. */
  lemma Advances(s: State, p: Proc, now: int, upload: Upload, db: Db, next: FileId, q: Proc)
    requires Reachable(With(s, p)) && Call(s.db, s.next, p, now, upload) == (db, next, q)
    ensures Reachable(With(State(db, next, s.procs), q))
  {
    hide Call;
    assert With(s, p).procs[|s.procs| := q] == s.procs + [q];
    ReachesNext(With(s, p), Advance(|s.procs|, now, upload), With(State(db, next, s.procs), q));
  }

  // ----- Requests, up to where they are interrupted -----

  function Uploading(db: Db, u: UserId, f: FileId): Db {
    db.(files := db.files[f := File(u, UPLOADING, None, None)])
  }

  lemma UploadIsPlanned(s: State, u: UserId)
    requires Reachable(s) && Present(s.db, u)
    ensures Reachable(State(Uploading(s.db, u, s.next), s.next + 1, s.procs + [Finished]))
  {
    Starts(s, ToRead(u));
    Advances(s, ToRead(u), 0, Missing, s.db, s.next, ToInsert(u));
    Advances(s, ToInsert(u), 0, Missing, Uploading(s.db, u, s.next), s.next + 1, Finished);
  }

  predicate Pending(db: Db, f: FileId, u: UserId) {
    Owned(db.files, f, u) && db.files[f].status == UPLOADING
  }

  lemma CompletionIsUnderWay(s: State, u: UserId, f: FileId)
    requires Reachable(s) && Pending(s.db, f, u)
    ensures Reachable(With(s, ToAttach(u, f)))
  {
    Starts(s, ToFind(u, f));
    Advances(s, ToFind(u, f), 0, Matching, s.db, s.next, ToCompare(u, f, UPLOADING));
    Advances(s, ToCompare(u, f, UPLOADING), 0, Matching, s.db, s.next, ToHead(u, f));
    Advances(s, ToHead(u, f), 0, Matching, s.db, s.next, ToAttach(u, f));
  }

  lemma RetryIsUnderWay(s: State, u: UserId, f: FileId)
    requires Reachable(s) && Owned(s.db.files, f, u) && s.db.files[f].status == ACTIVE
    ensures Reachable(With(s, ToCompare(u, f, ACTIVE)))
  {
    Starts(s, ToFind(u, f));
    Advances(s, ToFind(u, f), 0, Matching, s.db, s.next, ToCompare(u, f, ACTIVE));
  }

  lemma UploadIsCompleted(s: State, u: UserId, f: FileId)
    requires Reachable(s) && Pending(s.db, f, u)
    ensures Reachable(State(Attach(s.db, u, f, 0), s.next, s.procs + [Finished]))
  {
    hide Attach;
    CompletionIsUnderWay(s, u, f);
    Advances(s, ToAttach(u, f), 0, Matching, Attach(s.db, u, f, 0), s.next, Finished);
  }

  lemma ExpiryIsUnderWay(s: State, u: UserId, f: FileId)
    requires Reachable(s) && Pending(s.db, f, u)
    ensures Reachable(With(s, ToMark(u, f)))
  {
    Starts(s, JobExpire(u, f));
    Advances(s, JobExpire(u, f), 0, Matching, s.db, s.next, ToMark(u, f));
  }

  /** The job or the request at `pid` makes its last call while others wait. */
  lemma MarkEnds(s: State, pid: nat, u: UserId, f: FileId)
    requires Reachable(s) && pid < |s.procs| && s.procs[pid] == ToMark(u, f)
    ensures Reachable(State(Marked(s.db, u, f), s.next, s.procs[pid := Finished]))
  {
    hide MarkDeleted;
    ReachesNext(s, Advance(pid, 0, Matching), State(Marked(s.db, u, f), s.next, s.procs[pid := Finished]));
  }

  lemma AttachEnds(s: State, pid: nat, u: UserId, f: FileId)
    requires Reachable(s) && pid < |s.procs| && s.procs[pid] == ToAttach(u, f)
    ensures Reachable(State(Attach(s.db, u, f, 0), s.next, s.procs[pid := Finished]))
  {
    hide Attach;
    ReachesNext(s, Advance(pid, 0, Matching), State(Attach(s.db, u, f, 0), s.next, s.procs[pid := Finished]));
  }

  function Marked(db: Db, u: UserId, f: FileId): Db {
    db.(files := MarkDeleted(db.files, f, u, 0))
  }

  const USER: UserId := 0
  const ONE_USER := Db(map[USER := U.ACTIVE], map[], map[])

  lemma UserWithImage()
    ensures Reachable(State(Attach(Uploading(ONE_USER, USER, 0), USER, 0, 0), 1, [Finished, Finished]))
  {
    assert Run(START, []) == START;
    ReachesNext(START, SignUp(USER), State(ONE_USER, 0, []));
    UploadIsPlanned(State(ONE_USER, 0, []), USER);
    UploadIsCompleted(State(Uploading(ONE_USER, USER, 0), 1, [Finished]), USER, 0);
  }

  /** A user's image 0, and a second upload 1. */
  function TwoFiles(first: FileStatus, second: FileStatus, current: FileId): Db {
    Db(map[USER := U.ACTIVE],
       map[0 := File(USER, first, Some(0), if first == DELETED then Some(0) else None),
           1 := File(USER, second, if second == ACTIVE then Some(0) else None,
                     if second == DELETED then Some(0) else None)],
       map[USER := current])
  }

  lemma SecondUpload() returns (s: State)
    ensures Reachable(s) && s.db == TwoFiles(ACTIVE, UPLOADING, 0) && s.next == 2
  {
    UserWithImage();
    var t := State(Attach(Uploading(ONE_USER, USER, 0), USER, 0, 0), 1, [Finished, Finished]);
    UploadIsPlanned(t, USER);
    s := State(Uploading(t.db, USER, 1), 2, t.procs + [Finished]);
  }

  // ----- Runs that lose an image -----

  /** The profile refers to file 1, and neither file is an image any more. */
  predicate ImageLost(db: Db) {
    && Present(db, USER) && {0, 1} <= db.files.Keys && db.files[0].status == DELETED && db.files[1].status == DELETED
    && Scan(db, USER) == {} && Attached(db, USER) == Some(1) && Current(db, USER) == Some(None)
  }

  lemma BothOrdersLose(db: Db)
    requires db == TwoFiles(ACTIVE, UPLOADING, 0)
    ensures ImageLost(Attach(Marked(db, USER, 1), USER, 1, 0)) && ImageLost(Marked(Attach(db, USER, 1, 0), USER, 1))
  {
  }

  /** completeUpload has read the file and checked the upload, then the expiry job deletes
      it, then completeUpload attaches it and answers with success: the user is left without
      any image, the one they had included. */
  lemma ExpiryDuringCompletion() returns (last: State)
    ensures Reachable(last) && ImageLost(last.db)
  {
    var s := SecondUpload();
    BothOrdersLose(s.db);
    CompletionIsUnderWay(s, USER, 1);
    var t := With(s, ToAttach(USER, 1));
    ExpiryIsUnderWay(t, USER, 1);
    hide Attach, Marked, TwoFiles, ImageLost;
    MarkEnds(With(t, ToMark(USER, 1)), |t.procs|, USER, 1);
    var u := State(Marked(s.db, USER, 1), 2, With(t, ToMark(USER, 1)).procs[|t.procs| := Finished]);
    last := State(Attach(u.db, USER, 1, 0), 2, u.procs[|s.procs| := Finished]);
    AttachEnds(u, |s.procs|, USER, 1);
  }

  /** The expiry job has seen the file UPLOADING, then it is attached, then the job deletes
      it: the profile refers to a deleted file. */
  lemma CompletionDuringExpiry() returns (last: State)
    ensures Reachable(last) && ImageLost(last.db)
  {
    var s := SecondUpload();
    BothOrdersLose(s.db);
    ExpiryIsUnderWay(s, USER, 1);
    var t := With(s, ToMark(USER, 1));
    UploadIsCompleted(t, USER, 1);
    hide Attach, Marked, TwoFiles, ImageLost;
    var u := State(Attach(s.db, USER, 1, 0), 2, t.procs + [Finished]);
    last := State(Marked(u.db, USER, 1), 2, u.procs[|s.procs| := Finished]);
    MarkEnds(u, |s.procs|, USER, 1);
  }

  /** A client repeats completeUpload, which reads the file ACTIVE; then an expiry job that
      saw it UPLOADING deletes it; the repeated call finds it attached and answers with
      success, attaching nothing. */
  lemma ExpiryDuringRetry() returns (before: State, pid: nat)
    ensures Reachable(before) && Completes(before, pid) && before.procs[pid] == ToCompare(USER, 1, ACTIVE)
    ensures ImageLost(before.db)
    ensures var after := Step(before, Advance(pid, 0, Matching));
      Reachable(after) && after.procs[pid] == Finished && ImageLost(after.db)
  {
    before, pid := RetryAfterExpiry();
    hide ImageLost, Step;
    var after := Step(before, Advance(pid, 0, Matching));
    RetryEnds(before, pid);
    ReachesNext(before, Advance(pid, 0, Matching), after);
  }

  lemma RetryAfterExpiry() returns (before: State, pid: nat)
    ensures Reachable(before) && Completes(before, pid) && before.procs[pid] == ToCompare(USER, 1, ACTIVE)
    ensures ImageLost(before.db)
  {
    var s := SecondUpload();
    BothOrdersLose(s.db);
    SecondIsActive(s.db);
    assert Reachable(With(s, ToMark(USER, 1))) by { ExpiryIsUnderWay(s, USER, 1); }
    var t := With(s, ToMark(USER, 1));
    UploadIsCompleted(t, USER, 1);
    hide Attach, Marked, TwoFiles, Reachable;
    var u := State(Attach(s.db, USER, 1, 0), 2, t.procs + [Finished]);
    RetryIsUnderWay(u, USER, 1);
    var v := With(u, ToCompare(USER, 1, ACTIVE));
    MarkEnds(v, |s.procs|, USER, 1);
    pid := |u.procs|;
    before := State(Marked(v.db, USER, 1), 2, v.procs[|s.procs| := Finished]);
  }

  lemma SecondIsActive(db: Db)
    requires db == TwoFiles(ACTIVE, UPLOADING, 0)
    ensures var d := Attach(db, USER, 1, 0);
      Owned(d.files, 1, USER) && d.files[1].status == ACTIVE
    ensures Pending(db, 1, USER)
  {
  }

  lemma RetryEnds(s: State, pid: nat)
    requires Completes(s, pid) && s.procs[pid].ToCompare?
    ensures var t := Step(s, Advance(pid, 0, Matching)); t.db == s.db && t.procs[pid] == Finished
  {
  }

  /** An account deleted while it has an image. */
  lemma DeletedAccountWithImage() returns (s: State)
    ensures Reachable(s) && Gone(s.db, USER) && Scan(s.db, USER) == {0}
  {
    UserWithImage();
    var t := State(Attach(Uploading(ONE_USER, USER, 0), USER, 0, 0), 1, [Finished, Finished]);
    s := Step(t, SetStatus(USER, U.DELETED));
    ReachesNext(t, SetStatus(USER, U.DELETED), s);
  }

  // ----- The image of a deleted account -----

  predicate Gone(db: Db, user: UserId) {
    user in db.users && db.users[user] == U.DELETED
  }

  predicate Marks(s: State, a: Action, user: UserId, f: FileId) {
    a.Advance? && a.pid < |s.procs| && s.procs[a.pid] == ToMark(user, f)
  }

  predicate NoMark(s: State, actions: seq<Action>, user: UserId, f: FileId)
    decreases |actions|
  {
    actions == [] || (!Marks(s, actions[0], user, f) && NoMark(Step(s, actions[0]), actions[1..], user, f))
  }

  lemma CallOnDeleted(db: Db, next: FileId, p: Proc, now: int, upload: Upload, user: UserId, f: FileId)
    requires DbInv(db, next) && ProcInv(db, p) && Gone(db, user) && f in Scan(db, user)
    ensures var d := Call(db, next, p, now, upload).0;
      && Gone(d, user) && (f in Scan(d, user) <==> p != ToMark(user, f)) && Attached(d, user) == Some(f)
  {
    hide DbInv;
    assert Attached(db, user) == Some(f) && f < next by { ActiveIsAttached(db, next, user, f); }
    if p.ToAttach? { OthersAttach(db, p.user, p.file, now, user, f); }
    if p.ToClear? { OthersClear(db, p.user, now, user, f); }
    hide Attach, Clear;
  }

  lemma ActiveIsAttached(db: Db, next: FileId, user: UserId, f: FileId)
    requires DbInv(db, next) && f in Scan(db, user)
    ensures Attached(db, user) == Some(f) && f < next
  {
  }

  lemma OthersAttach(db: Db, u: UserId, file: FileId, now: int, user: UserId, f: FileId)
    requires Gone(db, user) && f in Scan(db, user) && Attached(db, user) == Some(f)
    ensures var d := Attach(db, u, file, now); Gone(d, user) && f in Scan(d, user) && Attached(d, user) == Some(f)
  {
  }

  lemma OthersClear(db: Db, u: UserId, now: int, user: UserId, f: FileId)
    requires Gone(db, user) && f in Scan(db, user) && Attached(db, user) == Some(f)
    ensures var d := Clear(db, u, now); Gone(d, user) && f in Scan(d, user) && Attached(d, user) == Some(f)
  {
  }

  /** After the account is deleted its image leaves the ACTIVE files at exactly one kind of
      step, a mark on that file: a job's, or that of a completeUpload that rejects it. */
  lemma OnlyMarkTakesDeletedAccountsImage(s: State, a: Action, user: UserId, f: FileId)
    requires Reachable(s) && Gone(s.db, user) && f in Scan(s.db, user)
    ensures Gone(Step(s, a).db, user)
    ensures f in Scan(Step(s, a).db, user) <==> !Marks(s, a, user, f)
  {
    ReachableInv(s);
    hide Call, Scan;
    if a.Advance? && a.pid < |s.procs| {
      assert ProcInv(s.db, s.procs[a.pid]);
      CallOnDeleted(s.db, s.next, s.procs[a.pid], a.now, a.upload, user, f);
    } else {
      SameFilesSameScan(s.db, Step(s, a).db, user);
    }
  }

  lemma SameFilesSameScan(a: Db, b: Db, user: UserId)
    requires a.files == b.files
    ensures Scan(a, user) == Scan(b, user)
  {
  }

  lemma CallAddsNone(db: Db, next: FileId, p: Proc, now: int, upload: Upload, user: UserId)
    requires Gone(db, user)
    ensures var d := Call(db, next, p, now, upload).0; Gone(d, user) && Scan(d, user) <= Scan(db, user)
  {
    if p.ToAttach? { AttachAddsNone(db, p.user, p.file, now, user); }
    hide Attach;
  }

  lemma AttachAddsNone(db: Db, u: UserId, file: FileId, now: int, user: UserId)
    requires Gone(db, user)
    ensures var d := Attach(db, u, file, now); Gone(d, user) && Scan(d, user) <= Scan(db, user)
  {
  }

  /** No step gives a deleted account an image, whatever requests of it are still under way. */
  lemma DeletedAccountGainsNoImage(s: State, a: Action, user: UserId)
    requires Gone(s.db, user)
    ensures Gone(Step(s, a).db, user) && Scan(Step(s, a).db, user) <= Scan(s.db, user)
  {
    hide Call, Scan;
    if a.Advance? && a.pid < |s.procs| {
      CallAddsNone(s.db, s.next, s.procs[a.pid], a.now, a.upload, user);
    } else {
      SameFilesSameScan(s.db, Step(s, a).db, user);
    }
  }

  /** The images of a deleted account after any run are exactly those it had that no step of
      the run marked. So it has none if and only if it had none when it was deleted, or the
      one it had was marked since. */
  lemma {:induction false} DeletedAccountsImages(s: State, actions: seq<Action>, user: UserId)
    requires Reachable(s) && Gone(s.db, user)
    ensures Gone(Run(s, actions).db, user)
    ensures Scan(Run(s, actions).db, user) == set f | f in Scan(s.db, user) && NoMark(s, actions, user, f)
    decreases |actions|
  {
    if actions != [] {
      hide Scan, Gone, Step, Marks;
      var a, t := actions[0], Step(s, actions[0]);
      DeletedAccountGainsNoImage(s, a, user);
      ReachesNext(s, a, t);
      DeletedAccountsImages(t, actions[1..], user);
      forall f | f in Scan(s.db, user) ensures f in Scan(t.db, user) <==> !Marks(s, a, user, f) {
        OnlyMarkTakesDeletedAccountsImage(s, a, user, f);
      }
    }
  }

  /** So it stays ACTIVE, attached and hidden, whatever else happens, until it is marked. */
  lemma {:induction false} DeletedAccountKeepsImage(s: State, actions: seq<Action>, user: UserId, f: FileId)
    requires Reachable(s) && Gone(s.db, user) && f in Scan(s.db, user) && NoMark(s, actions, user, f)
    ensures var db := Run(s, actions).db;
      Gone(db, user) && Scan(db, user) == {f} && Attached(db, user) == Some(f) && Current(db, user) == None
    decreases |actions|
  {
    if actions == [] {
      ReachableInv(s);
      assert forall g :: g in Scan(s.db, user) ==> Attached(s.db, user) == Some(g);
    } else {
      hide Scan, Gone, Step;
      OnlyMarkTakesDeletedAccountsImage(s, actions[0], user, f);
      ReachesNext(s, actions[0], Step(s, actions[0]));
      DeletedAccountKeepsImage(Step(s, actions[0]), actions[1..], user, f);
    }
  }

  // ----- The jobs -----

  /** A finished request or job changes nothing any more. */
  lemma {:induction false} FinishedStays(s: State, actions: seq<Action>, pid: nat)
    requires pid < |s.procs| && s.procs[pid] == Finished
    ensures var u := Run(s, actions); pid < |u.procs| && u.procs[pid] == Finished
    ensures forall now, upload :: Step(Run(s, actions), Advance(pid, now, upload)) == Run(s, actions)
    decreases |actions|
  {
    if actions == [] {
      forall now, upload ensures Step(s, Advance(pid, now, upload)) == s {
        assert s.procs[pid := Finished] == s.procs;
      }
    } else {
      FinishedStep(s, actions[0], pid);
      hide Step;
      FinishedStays(Step(s, actions[0]), actions[1..], pid);
    }
  }

  lemma FinishedStep(s: State, a: Action, pid: nat)
    requires pid < |s.procs| && s.procs[pid] == Finished
    ensures pid < |Step(s, a).procs| && Step(s, a).procs[pid] == Finished
  {
  }

  predicate Awaited(db: Db, f: FileId, u: UserId) {
    f in db.files && db.files[f].owner == u && db.files[f].status == UPLOADING
  }

  /** An expiry job that finds its file anything but UPLOADING, and a deletion job that finds
      the storage switched off, ends there, and no step of it ever changes a table. */
  lemma JobSpares(s: State, pid: nat, now: int, upload: Upload, actions: seq<Action>)
    requires pid < |s.procs|
    requires var p := s.procs[pid];
      (p.JobExpire? && !Awaited(s.db, p.file, p.user)) || (p.JobDelete? && upload.Disabled?)
    ensures var t := Step(s, Advance(pid, now, upload)); var u := Run(t, actions);
      && t.db == s.db && pid < |u.procs| && u.procs[pid] == Finished
      && forall later, other :: Step(u, Advance(pid, later, other)).db == u.db
  {
    var t := Step(s, Advance(pid, now, upload));
    assert t.db == s.db && pid < |t.procs| && t.procs[pid] == Finished;
    hide Step, Run;
    FinishedStays(t, actions, pid);
  }

  /** So a file that was uploaded is safe from every expiry job that looks at it from then on,
      whenever the job runs and whatever happens in between. */
  lemma {:induction false} UploadedIsSpared(s: State, pid: nat, u: UserId, f: FileId, actions: seq<Action>)
    requires Reachable(s) && pid < |s.procs| && (s.procs[pid] == JobExpire(u, f) || s.procs[pid] == Finished)
    requires f in s.db.files && s.db.files[f].status != UPLOADING
    ensures var t := Run(s, actions);
      && pid < |t.procs| && (t.procs[pid] == JobExpire(u, f) || t.procs[pid] == Finished)
      && forall now, upload :: Step(t, Advance(pid, now, upload)).db == t.db
    decreases |actions|
  {
    if actions != [] {
      var t := Step(s, actions[0]);
      ReachableInv(s);
      StepKeeps(s, actions[0]);
      SparedStep(s, actions[0], pid, u, f);
      hide Step, Inv;
      ReachesNext(s, actions[0], t);
      UploadedIsSpared(t, pid, u, f, actions[1..]);
    }
  }

  lemma SparedStep(s: State, a: Action, pid: nat, u: UserId, f: FileId)
    requires pid < |s.procs| && (s.procs[pid] == JobExpire(u, f) || s.procs[pid] == Finished)
    requires f in s.db.files && s.db.files[f].status != UPLOADING && Forward(s.db, Step(s, a).db)
    ensures var t := Step(s, a);
      && pid < |t.procs| && (t.procs[pid] == JobExpire(u, f) || t.procs[pid] == Finished)
      && f in t.db.files && t.db.files[f].status != UPLOADING
  {
    hide Attach, Clear, MarkDeleted;
    assert Rank(s.db.files[f].status) <= Rank(Step(s, a).db.files[f].status);
  }

  /** And an upload that is still awaited when its expiry job looks is deleted by the job's
      next step, whatever became of it in between. */
  lemma AwaitedExpires(s: State, pid: nat, now: int, upload: Upload)
    requires pid < |s.procs| && s.procs[pid].JobExpire? && Awaited(s.db, s.procs[pid].file, s.procs[pid].user)
    ensures Step(s, Advance(pid, now, upload)) ==
      s.(procs := s.procs[pid := ToMark(s.procs[pid].user, s.procs[pid].file)])
  {
  }
}
