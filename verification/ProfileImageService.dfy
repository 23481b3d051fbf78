/** The profile-image service and the worker's stored-file jobs as they run, one database
    call after another, with anything in between. Each leaves the tables as the
    interleaving model does. */
module ProfileImageService {
  import opened Wrappers
  import opened ProfileImage
  import U = UserModel

  /** How many database and object-store calls may still follow. */
  function CallsLeft(p: Proc): nat {
    match p
    case ToRead(_) => 2
    case ToFind(_, _) => 4
    case ToCompare(_, _, _) => 3
    case ToHead(_, _) => 2
    case JobDelete(_, _) => 2
    case JobExpire(_, _) => 2
    case ToCheckUser(_) => 3
    case ToFollow(_) => 2
    case Shown(_, _) => 0
    case Finished => 0
    case _ => 1
  }

  predicate Over(p: Proc) {
    p.Shown? || p.Finished?
  }

  /** The calls of one request, the i-th of them on the tables `at(i)`: the tables it
      leaves, and how it ends. */
  function Settled(at: nat -> Db, k: nat, next: FileId, p: Proc, now: int, upload: Upload): (Db, Proc)
    requires !Over(p)
    decreases CallsLeft(p)
  {
    var (d, _, q) := Call(at(k), next, p, now, upload);
    if Over(q) then (d, q) else Settled(at, k + 1, next, q, now, upload)
  }

  datatype CompleteResult =
    | StorageNotConfigured | FileNotFound | UploadNotAvailable | UploadNotFound | UploadRejected | UserNotFound
    | Completed(replaced: Option<FileId>)

  /** The file was readable and not deleted, and not yet the user's image: `a` are the tables
      at the read of the file, `b` at that of the profile. */
  predicate ToBeAttached(a: Db, b: Db, u: UserId, f: FileId) {
    Owned(a.files, f, u) && a.files[f].status != DELETED && !(a.files[f].status == ACTIVE && Attached(b, u) == Some(f))
  }

  /** When completeUpload gives which answer, and the tables it leaves; `c` are the tables while
      it asks the object store, `d` at its last call. */
  predicate CompletionAnswered(a: Db, b: Db, c: Db, d: Db, left: Db, u: UserId, f: FileId, now: int, upload: Upload,
      r: CompleteResult)
  {
    && !r.StorageNotConfigured?
    && (r.FileNotFound? <==> !Owned(a.files, f, u))
    && (r.UploadNotAvailable? <==> Owned(a.files, f, u) && a.files[f].status == DELETED)
    && (r.UploadNotFound? <==> ToBeAttached(a, b, u, f) && upload.Missing?)
    && (r.UploadRejected? <==> ToBeAttached(a, b, u, f) && upload.Mismatch?)
    && (r.UserNotFound? <==> ToBeAttached(a, b, u, f) && upload.Matching? && !Present(d, u))
    && (r.Completed? && ToBeAttached(a, b, u, f) ==>
          r.replaced == (if Attached(d, u) == Some(f) then None else Attached(d, u)) && Attaches(d, left, u, f, now))
    && (r.Completed? && !ToBeAttached(a, b, u, f) ==> r.replaced == None && left == b)
    && (r.FileNotFound? || r.UploadNotAvailable? ==> left == a)
    && (r.UploadNotFound? ==> left == c)
    && (r.UploadRejected? ==> Deletes(d, left, f, u, now))
    && (r.UserNotFound? ==> left == d)
  }

  /** The calls of completeUpload in order. */
  function Completion(a: Db, b: Db, c: Db, d: Db, u: UserId, f: FileId, now: int, upload: Upload): (Db, CompleteResult)
    requires !upload.Disabled?
  {
    if !Owned(a.files, f, u) then (a, FileNotFound)
    else if a.files[f].status == DELETED then (a, UploadNotAvailable)
    else if a.files[f].status == ACTIVE && Attached(b, u) == Some(f) then (b, Completed(None))
    else if upload.Missing? then (c, UploadNotFound)
    else if upload.Mismatch? then (d.(files := MarkDeleted(d.files, f, u, now)), UploadRejected)
    else if !Present(d, u) then (d, UserNotFound)
    else (Attach(d, u, f, now), Completed(if Attached(d, u) == Some(f) then None else Attached(d, u)))
  }

  lemma CompletionMeans(a: Db, b: Db, c: Db, d: Db, u: UserId, f: FileId, now: int, upload: Upload)
    requires !upload.Disabled?
    ensures var (left, r) := Completion(a, b, c, d, u, f, now, upload);
      CompletionAnswered(a, b, c, d, left, u, f, now, upload, r)
  {
    MarkMeans(d, f, u, now);
    AttachMeans(d, u, f, now);
    hide Attaches, Deletes, MarkDeleted;
  }

  class UserProfileImageService {
    const repo: ProfileImageRepository

    constructor (repo: ProfileImageRepository)
      ensures this.repo == repo
    {
      this.repo := repo;
    }

    /** What happened to the tables while a call was awaited. */
    method Meanwhile(db: Db)
      modifies repo
      ensures repo.State() == db
    {
      repo.users, repo.files, repo.attached := db.users, db.files, db.attached;
    }

    method CreateProfileImageFile(ownerUserId: UserId, fileId: FileId, at: nat -> Db) returns (ok: bool)
      modifies repo
      ensures (repo.State(), Finished) == Settled(at, 0, fileId, ToRead(ownerUserId), 0, Missing)
      ensures ok <==> ownerUserId in at(0).users && at(0).users[ownerUserId] != U.DELETED
      ensures ok ==> repo.State() == at(1).(files := at(1).files[fileId := File(ownerUserId, UPLOADING, None, None)])
      ensures !ok ==> repo.State() == at(0)
    {
      Meanwhile(at(0));
      if ownerUserId !in repo.users || repo.users[ownerUserId] == U.DELETED { return false; }
      Meanwhile(at(1));
      repo.files := repo.files[fileId := File(ownerUserId, UPLOADING, None, None)];
      return true;
    }

    /** Reads the file, reads the profile, asks the object store, then attaches or rejects. */
    method CompleteUpload(userId: UserId, fileId: FileId, now: int, upload: Upload, at: nat -> Db)
      returns (r: CompleteResult)
      modifies repo
      ensures r.StorageNotConfigured? <==> upload.Disabled?
      ensures upload.Disabled? ==> repo.State() == old(repo.State())
      ensures !upload.Disabled? ==> repo.State() == Settled(at, 0, 0, ToFind(userId, fileId), now, upload).0
      ensures !upload.Disabled? ==>
        CompletionAnswered(at(0), at(1), at(2), at(3), repo.State(), userId, fileId, now, upload, r)
    {
      if upload.Disabled? { return StorageNotConfigured; }
      CompleteSteps(at, userId, fileId, now, upload);
      CompletionMeans(at(0), at(1), at(2), at(3), userId, fileId, now, upload);
      hide CompletionAnswered, Attach, MarkDeleted, Attaches, Deletes, Settled;
      Meanwhile(at(0));
      if fileId !in repo.files || repo.files[fileId].owner != userId { return FileNotFound; }
      var record := repo.files[fileId];
      if record.status == DELETED { return UploadNotAvailable; }
      Meanwhile(at(1));
      var attachedFileId := if userId in repo.attached then Some(repo.attached[userId]) else None;
      if record.status == ACTIVE && attachedFileId == Some(fileId) { return Completed(None); }
      Meanwhile(at(2));
      if upload.Missing? { return UploadNotFound; }
      Meanwhile(at(3));
      if upload.Mismatch? {
        repo.MarkStoredFileDeleted(fileId, userId, now);
        return UploadRejected;
      }
      var attach := repo.AttachProfileImageFile(userId, fileId, now);
      if attach.None? { return UserNotFound; }
      if attach.value.None? || attach.value.value == fileId { return Completed(None); }
      return Completed(attach.value);
    }

    /** The three reads of getCurrentProfileImageFile, apart. */
    method GetProfileImage(userId: UserId, at: nat -> Db) returns (found: Option<Option<FileId>>)
      modifies repo
      ensures var (d, p) := Settled(at, 0, 0, ToCheckUser(userId), 0, Missing);
        repo.State() == d && if p.Shown? then found == Some(p.image) else found == None
      ensures found.None? <==> !(userId in at(0).users && at(0).users[userId] != U.DELETED)
      ensures forall f :: found == Some(Some(f)) <==>
        && userId in at(0).users && at(0).users[userId] != U.DELETED
        && userId in at(1).attached && at(1).attached[userId] == f
        && f in at(2).files && at(2).files[f].owner == userId && at(2).files[f].status == ACTIVE
    {
      Meanwhile(at(0));
      if userId !in repo.users || repo.users[userId] == U.DELETED { return None; }
      Meanwhile(at(1));
      if userId !in repo.attached { return Some(None); }
      var fileId := repo.attached[userId];
      assert Settled(at, 0, 0, ToCheckUser(userId), 0, Missing) ==
        Settled(at, 2, 0, ToLoad(userId, fileId), 0, Missing);
      Meanwhile(at(2));
      if fileId in repo.files && repo.files[fileId].owner == userId && repo.files[fileId].status == ACTIVE {
        return Some(Some(fileId));
      }
      return Some(None);
    }

    method RunDeleteProfileImageStoredFile(ownerUserId: UserId, fileId: FileId, now: int, storage: Upload,
        at: nat -> Db) returns (deleted: bool)
      modifies repo
      ensures repo.State() == Settled(at, 0, 0, JobDelete(ownerUserId, fileId), now, storage).0
      ensures deleted <==> Owned(at(0).files, fileId, ownerUserId) && !storage.Disabled?
      ensures if deleted then Deletes(at(1), repo.State(), fileId, ownerUserId, now) else repo.State() == at(0)
    {
      Meanwhile(at(0));
      if fileId !in repo.files || repo.files[fileId].owner != ownerUserId { return false; }
      if storage.Disabled? { return false; }
      Meanwhile(at(1));
      repo.MarkStoredFileDeleted(fileId, ownerUserId, now);
      return true;
    }

    method RunExpireProfileImageUpload(ownerUserId: UserId, fileId: FileId, now: int, storage: Upload, at: nat -> Db)
      returns (expired: bool)
      modifies repo
      ensures repo.State() == Settled(at, 0, 0, JobExpire(ownerUserId, fileId), now, storage).0
      ensures expired <==> Owned(at(0).files, fileId, ownerUserId) && at(0).files[fileId].status == UPLOADING
      ensures if expired then Deletes(at(1), repo.State(), fileId, ownerUserId, now) else repo.State() == at(0)
    {
      Meanwhile(at(0));
      if fileId !in repo.files || repo.files[fileId].owner != ownerUserId { return false; }
      if repo.files[fileId].status != UPLOADING { return false; }
      Meanwhile(at(1));
      repo.MarkStoredFileDeleted(fileId, ownerUserId, now);
      return true;
    }
  }

  /** Where completeUpload's calls lead. */
  lemma CompleteSteps(at: nat -> Db, u: UserId, f: FileId, now: int, upload: Upload)
    requires !upload.Disabled?
    ensures Settled(at, 0, 0, ToFind(u, f), now, upload).0 ==
      Completion(at(0), at(1), at(2), at(3), u, f, now, upload).0
  {
    hide Attach, MarkDeleted;
    if Owned(at(0).files, f, u) && at(0).files[f].status != DELETED {
      var seen := at(0).files[f].status;
      assert Settled(at, 0, 0, ToFind(u, f), now, upload) == Settled(at, 1, 0, ToCompare(u, f, seen), now, upload);
      if !(seen == ACTIVE && Attached(at(1), u) == Some(f)) {
        assert Settled(at, 1, 0, ToCompare(u, f, seen), now, upload) == Settled(at, 2, 0, ToHead(u, f), now, upload);
        if upload.Mismatch? {
          assert Settled(at, 2, 0, ToHead(u, f), now, upload) == Settled(at, 3, 0, ToMark(u, f), now, upload);
        }
        if upload.Matching? {
          assert Settled(at, 2, 0, ToHead(u, f), now, upload) == Settled(at, 3, 0, ToAttach(u, f), now, upload);
          if !Present(at(3), u) { AttachNothing(at(3), u, f, now); }
        }
      }
    }
  }

  lemma AttachNothing(db: Db, u: UserId, f: FileId, now: int)
    requires !Present(db, u)
    ensures Attach(db, u, f, now) == db
  {
  }
}
