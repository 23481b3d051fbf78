/** begin, complete, release and waitForCompletion as they run, each command at its own
    moment with anything in between: each leaves the key and answers as the command-by-command
    model does. */
module IdempotencyService {
  import opened Wrappers
  import opened Text
  import opened IdempotencyRecord
  import opened JsonValue
  import opened Idempotency

  // ----- Which requests share a key -----

  datatype Http = Http(verb: string, keyHeader: Option<string>, userId: Option<string>, redisEnabled: bool,
    required: bool)

  datatype Admission = Skip | Fail(status: nat) | Proceed(redisKey: string)

  predicate IsWriteMethod(m: string) {
    m == "POST" || m == "PUT" || m == "PATCH" || m == "DELETE"
  }

  function RedisKey(userId: string, scopeHash: string, header: string): string {
    "idempotency:v1:" + (userId + (":" + (scopeHash + (":" + header))))
  }

  function Trimming(s: Option<string>): Option<string> {
    if s.Some? then AsNonEmptyString(s.value) else None
  }

  function Admit(h: Http, scopeHash: string): Admission {
    var header, userId := Trimming(h.keyHeader), Trimming(h.userId);
    if !IsWriteMethod(h.verb) then Fail(500)
    else if header.None? then if h.required then Fail(400) else Skip
    else if !h.redisEnabled then Fail(500)
    else if |header.value| > 128 then Fail(400)
    else if userId.None? then Fail(500)
    else Proceed(RedisKey(userId.value, scopeHash, header.value))
  }

  predicate Blank(s: Option<string>) {
    s.None? || Trim(s.value) == ""
  }

  /** Which requests are let through, skipped or refused, and with which status. */
  lemma AdmissionMeans(h: Http, scopeHash: string)
    ensures var a := Admit(h, scopeHash); var write := IsWriteMethod(h.verb);
      && (a == Skip <==> write && Blank(h.keyHeader) && !h.required)
      && (a.Proceed? <==> write && !Blank(h.keyHeader) && |Trim(h.keyHeader.value)| <= 128 && h.redisEnabled
                          && !Blank(h.userId))
      && (a == Fail(400) <==>
            write && if Blank(h.keyHeader) then h.required else h.redisEnabled && |Trim(h.keyHeader.value)| > 128)
      && (a.Fail? ==> a.status == 400 || a.status == 500)
  {
    hide Trim, RedisKey;
  }

  predicate NoColon(s: string) {
    forall i :: 0 <= i < |s| ==> s[i] != ':'
  }

  lemma StartsWithColon(a: string, x: string)
    requires NoColon(a)
    ensures a == "" <==> (a + (":" + x))[0] == ':'
  {
    if a != "" { assert (a + (":" + x))[0] == a[0]; }
  }

  lemma {:induction false} SplitAtColon(a: string, x: string, b: string, y: string)
    requires NoColon(a) && NoColon(b) && a + (":" + x) == b + (":" + y)
    ensures a == b && x == y
    decreases |a|
  {
    var s, t := a + (":" + x), b + (":" + y);
    StartsWithColon(a, x);
    StartsWithColon(b, y);
    if a == "" {
      assert x == s[1..] && y == t[1..];
    } else {
      assert s[0] == a[0] && t[0] == b[0];
      assert s[1..] == a[1..] + (":" + x) && t[1..] == b[1..] + (":" + y);
      SplitAtColon(a[1..], x, b[1..], y);
      assert a == [a[0]] + a[1..] && b == [b[0]] + b[1..];
    }
  }

  lemma KeyParts(u1: string, s1: string, h1: string, u2: string, s2: string, h2: string)
    requires NoColon(u1) && NoColon(u2) && NoColon(s1) && NoColon(s2)
    ensures RedisKey(u1, s1, h1) == RedisKey(u2, s2, h2) <==> u1 == u2 && s1 == s2 && h1 == h2
  {
    if RedisKey(u1, s1, h1) == RedisKey(u2, s2, h2) {
      var p := "idempotency:v1:";
      var x, y := u1 + (":" + (s1 + (":" + h1))), u2 + (":" + (s2 + (":" + h2)));
      assert x == (p + x)[|p|..] && y == (p + y)[|p|..];
      SplitAtColon(u1, s1 + (":" + h1), u2, s2 + (":" + h2));
      SplitAtColon(s1, h1, s2, h2);
    }
  }

  /** Two requests meet at a key exactly when they come from the same user, for the same
      operation, with the same Idempotency-Key, up to outer spaces. User ids and scope
      hashes hold no colon. */
  lemma KeysAreScoped(a: Http, scopeA: string, b: Http, scopeB: string)
    requires Admit(a, scopeA).Proceed? && Admit(b, scopeB).Proceed?
    requires NoColon(a.userId.value) && NoColon(b.userId.value) && NoColon(scopeA) && NoColon(scopeB)
    ensures Admit(a, scopeA).redisKey == Admit(b, scopeB).redisKey <==>
      Trim(a.userId.value) == Trim(b.userId.value) && scopeA == scopeB &&
        Trim(a.keyHeader.value) == Trim(b.keyHeader.value)
  {
    hide RedisKey, Trim, NoColon;
    TrimKeepsNoColon(a.userId.value);
    TrimKeepsNoColon(b.userId.value);
    KeyParts(Trim(a.userId.value), scopeA, Trim(a.keyHeader.value), Trim(b.userId.value), scopeB,
      Trim(b.keyHeader.value));
  }

  lemma TrimKeepsNoColon(s: string)
    requires NoColon(s)
    ensures NoColon(Trim(s))
  {
    hide Space;
    StartKeepsNoColon(s);
    EndTrimmed(TrimStart(s));
  }

  lemma {:induction false} StartKeepsNoColon(s: string)
    requires NoColon(s)
    ensures NoColon(TrimStart(s))
    decreases |s|
  {
    hide Space;
    if s != "" && Space(s[0]) { StartKeepsNoColon(s[1..]); }
  }

  // ----- One command after another -----

  /** The key and the clock as a command finds them: between two commands other requests
      and time have their way. */
  datatype Moment = Moment(cell: Option<Cell>, now: nat)

  predicate Opening(p: Proc) {
    p.Arrived? || p.Refused? || p.Vanished?
  }

  /** How many commands may still follow. */
  function CommandsLeft(p: Proc): nat {
    match p
    case Arrived(_) => 3
    case Refused(_) => 2
    case Vanished(_) => 1
    case Running(_, _) => 3
    case Caching(_, _, _) => 2
    case Releasing(_, _) => 2
    case Deleting(_, _) => 1
    case _ => 0
  }

  /** The commands of begin, each at its own moment. */
  function Begun(at: nat -> Moment, k: nat, p: Proc): (Option<Cell>, Proc)
    requires Opening(p)
    decreases CommandsLeft(p)
  {
    var (c, q) := Command(at(k).cell, at(k).now, p, Threw);
    if Opening(q) then Begun(at, k + 1, q) else (c, q)
  }

  /** The handler's return and the commands of complete or release, each at its own moment. */
  function Finished(at: nat -> Moment, k: nat, p: Proc, reply: Reply): (Option<Cell>, Proc)
    requires Outstanding(p)
    decreases CommandsLeft(p)
  {
    var (c, q) := Command(at(k).cell, at(k).now, p, reply);
    if Outstanding(q) then Finished(at, k + 1, q, reply) else (c, q)
  }

  lemma NothingParses()
    ensures ParseRecord(None) == None
  {
  }

  /** What the key holds at a moment reads as this record. */
  function Found(m: Moment): Option<StoredRecord> {
    ParseRecord(Visible(m.cell, m.now))
  }

  /** A handler for this payload has acquired the key. */
  predicate Locked(m: Moment, r: Request) {
    Found(m).Some? && Found(m).value.InProgress? && Found(m).value.requestHash == r.hash
  }

  /** When begin acquires the key: the key is absent at its SET NX, or at its GET and at the SET
      NX after it. */
  function AcquiredAt(at: nat -> Moment): Option<nat> {
    if Visible(at(0).cell, at(0).now).None? then Some(at(0).now)
    else if Visible(at(1).cell, at(1).now).None? && Visible(at(2).cell, at(2).now).None? then Some(at(2).now)
    else None
  }

  /** What begin reports of a record it did not write. */
  function Reported(r: Request, found: Option<StoredRecord>): Proc {
    if found.None? then Done(r, StillInProgress)
    else if found.value.requestHash != r.hash then Done(r, PayloadConflict)
    else if found.value.Completed? then Done(r, Replayed(found.value))
    else ToWait(r)
  }

  /** How begin ends. */
  predicate Begins(at: nat -> Moment, r: Request, p: Proc, cell: Option<Cell>) {
    && (p.Running? <==> AcquiredAt(at).Some?)
    && (p.Running? ==>
          && p.req == r && AcquiredAt(at) == Some(p.since) && cell.Some?
          && cell.value.expiresAt == p.since + r.lockTtlSeconds * 1000
          && ParseRecord(Some(cell.value.raw)) == Some(InProgress(r.hash, r.startedAt as real)))
    && (!p.Running? && Visible(at(1).cell, at(1).now).Some? ==> p == Reported(r, Found(at(1))) && cell == at(1).cell)
    && (!p.Running? && Visible(at(1).cell, at(1).now).None? ==> p == Done(r, StillInProgress) && cell == at(2).cell)
  }

  lemma BeginMeans(at: nat -> Moment, r: Request)
    ensures var (cell, p) := Begun(at, 0, Arrived(r)); Begins(at, r, p, cell)
  {
    hide ParseRecord, Serialize;
    LockReads(r, at(0).now);
    LockReads(r, at(2).now);
    if Visible(at(0).cell, at(0).now).Some? {
      if Visible(at(1).cell, at(1).now).None? {
        assert Begun(at, 0, Arrived(r)) == Begun(at, 2, Vanished(r));
      } else {
        assert Begun(at, 0, Arrived(r)) == Begun(at, 1, Refused(r));
      }
    }
  }

  /** How a release ends that reads the key at moment k and deletes at the next. */
  lemma ReleaseMeans(at: nat -> Moment, k: nat, r: Request, since: nat, reply: Reply)
    ensures Finished(at, k, Releasing(r, since), reply)
      == (if Locked(at(k), r) then None else at(k).cell, Done(r, Executed(None)))
  {
    hide ParseRecord;
    if Locked(at(k), r) {
      assert Finished(at, k, Releasing(r, since), reply) == Finished(at, k + 1, Deleting(r, since), reply);
    }
  }

  /** How complete ends: it caches a replayable reply and releases the key after any other. */
  predicate Completes(at: nat -> Moment, r: Request, reply: Reply, p: Proc, cell: Option<Cell>) {
    if Replayable(reply) then
      && p.Done? && p.req == r && p.outcome.Executed? && p.outcome.cached.Some?
      && Records(p.outcome.cached.value, r, reply) && cell.Some?
      && cell.value.expiresAt == at(1).now + r.ttlSeconds * 1000
      && ParseRecord(Some(cell.value.raw)) == p.outcome.cached
    else
      p == Done(r, Executed(None)) && cell == if Locked(at(1), r) then None else at(1).cell
  }

  lemma CompleteMeans(at: nat -> Moment, r: Request, since: nat, reply: Reply)
    ensures var (cell, p) := Finished(at, 0, Running(r, since), reply); Completes(at, r, reply, p, cell)
  {
    hide ParseRecord, Serialize, AfterHandler, Records, Canonical;
    ReplyMeans(r, since, reply, at(0).now);
    var q := AfterHandler(r, since, reply, at(0).now);
    assert Finished(at, 0, Running(r, since), reply) == Finished(at, 1, q, reply);
    if Replayable(reply) {
      RecordRoundTrip(q.record);
    } else {
      ReleaseMeans(at, 1, r, since, reply);
    }
  }

  class IdempotencyStore {
    var cell: Option<Cell>
    var now: nat

    constructor ()
      ensures cell == None && now == 0
    {
      cell, now := None, 0;
    }

    /** What happened while a reply was awaited. */
    method Meanwhile(m: Moment)
      modifies this
      ensures cell == m.cell && now == m.now
    {
      cell, now := m.cell, m.now;
    }

    method SetIfAbsent(raw: Value, seconds: Seconds) returns (ok: bool)
      modifies this`cell
      ensures ok <==> Visible(old(cell), now).None?
      ensures cell == if ok then Some(Cell(raw, now + seconds * 1000)) else old(cell)
    {
      ok := Visible(cell, now).None?;
      if ok { cell := Some(Cell(raw, now + seconds * 1000)); }
    }

    method Begin(r: Request, at: nat -> Moment) returns (p: Proc)
      modifies this
      ensures (cell, p) == Begun(at, 0, Arrived(r)) && Begins(at, r, p, cell)
    {
      BeginMeans(at, r);
      hide Begins;
      hide ParseRecord, Serialize;
      var inProgress := Serialize(CreateInProgressRecord(r.hash, r.startedAt as real));
      Meanwhile(at(0));
      var created := SetIfAbsent(inProgress, r.lockTtlSeconds);
      if created { return Running(r, now); }
      Meanwhile(at(1));
      var existingRaw := Visible(cell, now);
      if existingRaw.None? {
        assert Begun(at, 0, Arrived(r)) == Begun(at, 2, Vanished(r));
        Meanwhile(at(2));
        var retry := SetIfAbsent(inProgress, r.lockTtlSeconds);
        if retry { return Running(r, now); }
        return Done(r, StillInProgress);
      }
      var existing := ParseStoredRecord(existingRaw);
      if existing.None? { return Done(r, StillInProgress); }
      if existing.value.requestHash != r.hash { return Done(r, PayloadConflict); }
      if existing.value.Completed? { return Done(r, Replayed(existing.value)); }
      return ToWait(r);
    }

    /** The DEL does not look again: it removes whatever the key holds by then. */
    method Release(r: Request, since: nat, at: nat -> Moment, k: nat, reply: Reply) returns (p: Proc)
      modifies this
      ensures (cell, p) == Finished(at, k, Releasing(r, since), reply)
      ensures p == Done(r, Executed(None)) && cell == if Locked(at(k), r) then None else at(k).cell
    {
      ReleaseMeans(at, k, r, since, reply);
      hide ParseRecord, Serialize;
      p := Done(r, Executed(None));
      Meanwhile(at(k));
      var raw := Visible(cell, now);
      NothingParses();
      if raw.None? { return; }
      var record := ParseStoredRecord(raw);
      if record.None? || record.value.requestHash != r.hash || !record.value.InProgress? { return; }
      assert Finished(at, k, Releasing(r, since), reply) == Finished(at, k + 1, Deleting(r, since), reply);
      Meanwhile(at(k + 1));
      cell := None;
    }

    method Complete(r: Request, since: nat, reply: Reply, at: nat -> Moment) returns (p: Proc)
      requires reply.Returned?
      modifies this
      ensures (cell, p) == Finished(at, 0, Running(r, since), reply) && Completes(at, r, reply, p, cell)
    {
      CompleteMeans(at, r, since, reply);
      hide Completes;
      hide ParseRecord, Serialize;
      Meanwhile(at(0));
      if reply.status >= 400 {
        p := Release(r, since, at, 1, reply);
        return;
      }
      var headers := PickReplayHeaders(reply.location);
      var completed := CreateCompletedRecord(r.hash, reply.status as real, reply.body, headers, now as real);
      if reply.chars > MAX_REPLAY_RECORD_CHARS {
        p := Release(r, since, at, 1, reply);
        return;
      }
      Meanwhile(at(1));
      cell := Some(Cell(Serialize(completed), now + r.ttlSeconds * 1000));
      return Done(r, Executed(Some(completed)));
    }
  }

  // ----- Waiting -----

  function DelayAt(i: nat): nat {
    if i == 0 then 50 else NextDelay(DelayAt(i - 1))
  }

  function SleptBefore(i: nat): nat {
    if i == 0 then 0 else SleptBefore(i - 1) + DelayAt(i - 1)
  }

  /** Turn i of the waiting loop checks the deadline at moment 2 * i + 1 and, after its
      sleep, reads the key at moment 2 * i + 2. */
  function CheckedAt(at: nat -> Moment, i: nat): nat {
    at(2 * i + 1).now
  }

  function Read(at: nat -> Moment, i: nat): Option<Value> {
    Visible(at(2 * i + 2).cell, at(2 * i + 2).now)
  }

  /** Time does not run back, and a sleep lasts at least its delay. */
  predicate SleepsEnough(at: nat -> Moment, i: nat) {
    CheckedAt(at, i) >= at(2 * i).now && at(2 * i + 2).now >= CheckedAt(at, i) + DelayAt(i)
  }

  ghost predicate Sleeps(at: nat -> Moment) {
    forall i: nat :: SleepsEnough(at, i)
  }

  /** The loop ended after n turns with this outcome, and could not have ended otherwise. */
  ghost predicate EndsWith(r: Request, deadline: int, at: nat -> Moment, n: nat, outcome: Outcome) {
    && (forall i: nat :: i < n ==> CheckedAt(at, i) < deadline)
    && (forall i: nat :: i + 1 < n ==> Judge(r, Read(at, i)).None?)
    && if n > 0 && Judge(r, Read(at, n - 1)).Some? then outcome == Judge(r, Read(at, n - 1)).value
       else outcome == StillInProgress && CheckedAt(at, n) >= deadline
  }

  lemma SleepsNext(at: nat -> Moment, n: nat)
    requires Sleeps(at) && DelayAt(n) >= 50
    ensures CheckedAt(at, n + 1) >= CheckedAt(at, n) + DelayAt(n)
    ensures SleptBefore(n + 1) == SleptBefore(n) + DelayAt(n) && DelayAt(n + 1) == NextDelay(DelayAt(n)) >= 50
  {
    assert SleepsEnough(at, n) && SleepsEnough(at, n + 1);
  }

  /** The first n turns were in time and showed a handler still running. */
  ghost predicate Waited(r: Request, deadline: int, at: nat -> Moment, n: nat) {
    forall i: nat :: i < n ==> CheckedAt(at, i) < deadline && Judge(r, Read(at, i)).None?
  }

  lemma WaitedEnds(r: Request, deadline: int, at: nat -> Moment, n: nat)
    requires Waited(r, deadline, at, n)
    ensures CheckedAt(at, n) >= deadline ==> EndsWith(r, deadline, at, n, StillInProgress)
    ensures var verdict := Judge(r, Read(at, n));
      CheckedAt(at, n) < deadline ==>
        if verdict.Some? then EndsWith(r, deadline, at, n + 1, verdict.value)
        else Waited(r, deadline, at, n + 1)
  {
    hide Judge, CheckedAt, Read;
  }

  /** n commands of a request, each at its own moment, the first of them at moment k. */
  function Commanded(at: nat -> Moment, k: nat, p: Proc, n: nat): Proc
    decreases n
  {
    if n == 0 then p else Commanded(at, k + 1, Command(at(k).cell, at(k).now, p, Threw).1, n - 1)
  }

  lemma {:induction false} CommandedAppends(at: nat -> Moment, k: nat, p: Proc, n: nat)
    ensures Commanded(at, k, p, n + 1) ==
      Command(at(k + n).cell, at(k + n).now, Commanded(at, k, p, n), Threw).1
    decreases n
  {
    hide Command;
    if n > 0 {
      CommandedAppends(at, k + 1, Command(at(k).cell, at(k).now, p, Threw).1, n - 1);
    }
  }

  /** The commands of one turn. */
  lemma TurnIsTwoCommands(r: Request, deadline: int, at: nat -> Moment, n: nat)
    requires Sleeps(at) && Commanded(at, 0, ToWait(r), 2 * n + 1) == Looping(r, DelayAt(n), deadline)
    ensures CheckedAt(at, n) >= deadline ==> Commanded(at, 0, ToWait(r), 2 * n + 2) == Done(r, StillInProgress)
    ensures var verdict := Judge(r, Read(at, n));
      CheckedAt(at, n) < deadline ==>
        Commanded(at, 0, ToWait(r), 2 * n + 3) ==
          (if verdict.Some? then Done(r, verdict.value) else Looping(r, DelayAt(n + 1), deadline))
  {
    hide Judge, Commanded, DelayAt, Sleeps;
    CommandedAppends(at, 0, ToWait(r), 2 * n + 1);
    CommandedAppends(at, 0, ToWait(r), 2 * n + 2);
    assert SleepsEnough(at, n) by { SleepsThen(at, n); }
    assert DelayAt(n + 1) == NextDelay(DelayAt(n)) by { DelayNext(n); }
  }

  lemma DoneStays(at: nat -> Moment, p: Proc, n: nat)
    requires Commanded(at, 0, p, n).Done?
    ensures Commanded(at, 0, p, n + 1) == Commanded(at, 0, p, n)
  {
    hide Commanded;
    CommandedAppends(at, 0, p, n);
  }

  lemma SleepsThen(at: nat -> Moment, n: nat)
    requires Sleeps(at)
    ensures SleepsEnough(at, n)
  {
  }

  lemma DelayNext(n: nat)
    ensures DelayAt(n + 1) == NextDelay(DelayAt(n))
  {
  }

  lemma FirstCommand(r: Request, at: nat -> Moment)
    ensures Commanded(at, 0, ToWait(r), 1) ==
      if r.waitMs <= 0 then Done(r, StillInProgress) else Looping(r, 50, at(0).now + r.waitMs)
  {
    CommandedAppends(at, 0, ToWait(r), 0);
  }

  /** Before the first turn. */
  lemma NoneWaited(r: Request, deadline: int, at: nat -> Moment)
    requires Sleeps(at)
    ensures Waited(r, deadline, at, 0) && CheckedAt(at, 0) >= at(0).now && SleptBefore(0) == 0 && DelayAt(0) == 50
  {
    assert SleepsEnough(at, 0);
  }

  /** Polls until a reading decides or the deadline has passed: the model's commands end in
      the same answer. */
  method WaitForCompletion(r: Request, at: nat -> Moment) returns (outcome: Outcome, n: nat)
    requires Sleeps(at)
    ensures r.waitMs > 0 ==> EndsWith(r, at(0).now + r.waitMs, at, n, outcome)
    ensures r.waitMs <= 0 ==> n == 0 && outcome == StillInProgress
    ensures n > 0 ==> SleptBefore(n - 1) < r.waitMs
    ensures Commanded(at, 0, ToWait(r), 2 * n + 2) == Done(r, outcome)
  {
    hide Judge, Command, Sleeps, DelayAt, SleptBefore, EndsWith, Waited, Commanded, CheckedAt, Read;
    n := 0;
    FirstCommand(r, at);
    if r.waitMs <= 0 {
      DoneStays(at, ToWait(r), 1);
      return StillInProgress, 0;
    }
    var deadline := at(0).now + r.waitMs;
    var delay := 50;
    NoneWaited(r, deadline, at);
    while CheckedAt(at, n) < deadline
      invariant delay == DelayAt(n) && delay >= 50
      invariant CheckedAt(at, n) >= at(0).now + SleptBefore(n)
      invariant Waited(r, deadline, at, n)
      invariant n > 0 ==> SleptBefore(n - 1) < r.waitMs
      invariant Commanded(at, 0, ToWait(r), 2 * n + 1) == Looping(r, delay, deadline)
      decreases deadline - CheckedAt(at, n)
    {
      SleepsNext(at, n);
      WaitedEnds(r, deadline, at, n);
      TurnIsTwoCommands(r, deadline, at, n);
      delay := NextDelay(delay);
      var verdict := Judge(r, Read(at, n));
      n := n + 1;
      if verdict.Some? {
        DoneStays(at, ToWait(r), 2 * n + 1);
        return verdict.value, n;
      }
    }
    WaitedEnds(r, deadline, at, n);
    TurnIsTwoCommands(r, deadline, at, n);
    return StillInProgress, n;
  }

  /** The outcome and the number of turns are determined by what the clock and the key showed. */
  lemma OneWayToEnd(r: Request, deadline: int, at: nat -> Moment, n: nat, o: Outcome, m: nat, q: Outcome)
    requires EndsWith(r, deadline, at, n, o) && EndsWith(r, deadline, at, m, q)
    ensures n == m && o == q
  {
    hide Judge;
    EndsNoLater(r, deadline, at, n, o, m, q);
    EndsNoLater(r, deadline, at, m, q, n, o);
  }

  lemma EndsNoLater(r: Request, deadline: int, at: nat -> Moment, n: nat, o: Outcome, m: nat, q: Outcome)
    requires EndsWith(r, deadline, at, n, o) && EndsWith(r, deadline, at, m, q)
    ensures m <= n
  {
    hide Judge, CheckedAt, Read;
  }

  lemma {:induction false} SleptInTotal(i: nat)
    requires i >= 3
    ensures SleptBefore(i) == 350 + 250 * (i - 3) && DelayAt(i) == 250
    decreases i
  {
    if i == 3 {
      assert DelayAt(0) == 50 && DelayAt(1) == 100 && DelayAt(2) == 200;
      assert SleptBefore(1) == 50 && SleptBefore(2) == 150;
    } else {
      SleptInTotal(i - 1);
    }
  }

  /** With the default of two seconds a waiting request reads the key at most ten times. */
  lemma DefaultWaitReadsTenTimes(n: nat)
    requires n > 0 && SleptBefore(n - 1) < 2000
    ensures n <= 10
  {
    if n > 4 { SleptInTotal(n - 1); }
  }
}
