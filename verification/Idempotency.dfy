/** Idempotency keys: the life of one Redis key shared by any number of requests. A
    request issues one Redis command at a time; commands of different requests
    interleave, and the key expires by itself. */
module Idempotency {
  import opened Wrappers
  import opened Text
  import opened IdempotencyRecord
  import opened JsonValue

  const MAX_REPLAY_RECORD_CHARS := 65536

  type Hash = s: string | Word(s) witness "h"
  /** Redis refuses a time to live that is not positive. */
  type Seconds = n: nat | n >= 1 witness 1

  datatype Request = Request(hash: Hash, startedAt: nat, ttlSeconds: Seconds, lockTtlSeconds: Seconds, waitMs: int)

  /** What the handler did; `chars` is the length of the record that would be cached. */
  datatype Reply = Threw | Returned(status: int, body: Option<Value>, location: Option<string>, chars: nat)

  datatype Cell = Cell(raw: Value, expiresAt: nat)

  datatype Outcome =
    | Executed(cached: Option<StoredRecord>)
    | Replayed(record: StoredRecord)
    | PayloadConflict
    | StillInProgress

  datatype Proc =
    // begin
    | Arrived(req: Request)
    | Refused(req: Request)
    | Vanished(req: Request)
    // an acquisition is outstanding
    | Running(req: Request, since: nat)
    | Caching(req: Request, since: nat, record: StoredRecord)
    | Releasing(req: Request, since: nat)
    | Deleting(req: Request, since: nat)
    // waitForCompletion
    | ToWait(req: Request)
    | Looping(req: Request, delay: nat, deadline: int)
    | Sleeping(req: Request, delay: nat, wakeAt: nat, deadline: int)
    | Done(req: Request, outcome: Outcome)

  predicate Outstanding(p: Proc) {
    p.Running? || p.Caching? || p.Releasing? || p.Deleting?
  }

  // ----- One key: Redis commands -----

  function Visible(cell: Option<Cell>, now: nat): Option<Value> {
    if cell.Some? && now < cell.value.expiresAt then Some(cell.value.raw) else None
  }

  function Lock(r: Request, now: nat): Cell {
    Cell(Serialize(CreateInProgressRecord(r.hash, r.startedAt as real)), now + r.lockTtlSeconds * 1000)
  }

  function PickReplayHeaders(location: Option<string>): Headers {
    var trimmed := if location.Some? then AsNonEmptyString(location.value) else None;
    if trimmed.Some? then map["Location" := trimmed.value] else map[]
  }

  // ----- One request, command by command -----

  /** What a request makes of a stored text while its own handler is not running. */
  function Judge(r: Request, raw: Option<Value>): Option<Outcome> {
    var record := ParseRecord(raw);
    if record.None? then Some(StillInProgress)
    else if record.value.requestHash != r.hash then Some(PayloadConflict)
    else if record.value.Completed? then Some(Replayed(record.value))
    else None
  }

  function AfterHandler(r: Request, since: nat, reply: Reply, now: nat): Proc {
    if reply.Threw? || reply.status >= 400 || reply.chars > MAX_REPLAY_RECORD_CHARS then Releasing(r, since)
    else Caching(r, since, CreateCompletedRecord(r.hash, reply.status as real, reply.body,
      PickReplayHeaders(reply.location), now as real))
  }

  function NextDelay(delay: nat): nat {
    if delay * 2 < 250 then delay * 2 else 250
  }

  function Command(cell: Option<Cell>, now: nat, p: Proc, reply: Reply): (Option<Cell>, Proc) {
    var raw := Visible(cell, now);
    match p
    case Arrived(r) => if raw.None? then (Some(Lock(r, now)), Running(r, now)) else (cell, Refused(r))
    case Refused(r) =>
      if raw.None? then (cell, Vanished(r))
      else (cell, if Judge(r, raw).Some? then Done(r, Judge(r, raw).value) else ToWait(r))
    case Vanished(r) => if raw.None? then (Some(Lock(r, now)), Running(r, now)) else (cell, Done(r, StillInProgress))
    case Running(r, since) => (cell, AfterHandler(r, since, reply, now))
    case Caching(r, since, record) =>
      (Some(Cell(Serialize(record), now + r.ttlSeconds * 1000)), Done(r, Executed(Some(record))))
    case Releasing(r, since) =>
      var record := ParseRecord(raw);
      if record.None? || record.value.requestHash != r.hash || !record.value.InProgress?
        then (cell, Done(r, Executed(None)))
      else (cell, Deleting(r, since))
    case Deleting(r, _) => (None, Done(r, Executed(None)))
    case ToWait(r) => (cell, if r.waitMs <= 0 then Done(r, StillInProgress) else Looping(r, 50, now + r.waitMs))
    case Looping(r, delay, deadline) =>
      (cell, if now < deadline then Sleeping(r, delay, now + delay, deadline) else Done(r, StillInProgress))
    case Sleeping(r, delay, wakeAt, deadline) =>
      if now < wakeAt then (cell, p)
      else (cell, if Judge(r, raw).Some? then Done(r, Judge(r, raw).value) else Looping(r, NextDelay(delay), deadline))
    case Done(_, _) => (cell, p)
  }

  // ----- Runs -----

  datatype State = State(now: nat, cell: Option<Cell>, procs: seq<Proc>)

  datatype Action = Arrive(req: Request) | Advance(pid: nat, reply: Reply) | Tick(ms: nat)

  function Start(now: nat): State {
    State(now, None, [])
  }

  function Step(s: State, a: Action): State {
    match a
    case Arrive(r) => s.(procs := s.procs + [Arrived(r)])
    case Advance(pid, reply) =>
      if pid < |s.procs| then
        var (cell, p) := Command(s.cell, s.now, s.procs[pid], reply);
        State(s.now, cell, s.procs[pid := p])
      else s
    case Tick(ms) => s.(now := s.now + ms)
  }

  function Run(s: State, actions: seq<Action>): State
    decreases |actions|
  {
    if actions == [] then s else Run(Step(s, actions[0]), actions[1..])
  }

  /** Every outstanding acquisition is still within its lock's time to live. */
  predicate InTime(p: Proc, now: nat) {
    Outstanding(p) ==> now < p.since + p.req.lockTtlSeconds * 1000
  }

  predicate Punctual(s: State) {
    forall i :: 0 <= i < |s.procs| ==> InTime(s.procs[i], s.now)
  }

  /** The assumption on the handlers: no acquisition outlives its lock. */
  predicate PunctualRun(s: State, actions: seq<Action>)
    decreases |actions|
  {
    Punctual(s) && (actions == [] || PunctualRun(Step(s, actions[0]), actions[1..]))
  }

  // ----- The invariant -----

  /** An outstanding acquisition owns the cell; what it is about to cache reads back. */
  predicate Owns(cell: Option<Cell>, p: Proc) {
    Outstanding(p) ==>
      && cell == Some(Lock(p.req, p.since))
      && (p.Caching? ==> p.record.Completed? && p.record.requestHash == p.req.hash && Canonical(p.record))
  }

  predicate Idle(procs: seq<Proc>) {
    forall i :: 0 <= i < |procs| ==> !Outstanding(procs[i])
  }

  predicate OnlyCompleted(cell: Option<Cell>, now: nat) {
    var record := ParseRecord(Visible(cell, now));
    Visible(cell, now).Some? ==> record.Some? && record.value.Completed?
  }

  predicate Inv(s: State) {
    && (forall i :: 0 <= i < |s.procs| ==> Owns(s.cell, s.procs[i]))
    && (forall i, j ::
          0 <= i < |s.procs| && 0 <= j < |s.procs| && Outstanding(s.procs[i]) && Outstanding(s.procs[j]) ==> i == j)
    && (Idle(s.procs) ==> OnlyCompleted(s.cell, s.now))
  }

  lemma LockReads(r: Request, since: nat)
    ensures ParseRecord(Some(Lock(r, since).raw)) == Some(InProgress(r.hash, r.startedAt as real))
  {
    hide ParseRecord, Serialize, Word;
    RecordRoundTrip(InProgress(r.hash, r.startedAt as real));
  }

  lemma HeadersWords(location: Option<string>)
    ensures Readable(PickReplayHeaders(location))
  {
    hide AsNonEmptyString, Word;
    assert |PROTO| == 9 && |"Location"| == 8;
    if location.Some? { Accepted(location.value); }
  }

  /** The request that owns the cell keeps owning it until it completes or deletes. */
  lemma OwnerAdvances(cell: Option<Cell>, now: nat, p: Proc, reply: Reply)
    requires Outstanding(p) && Owns(cell, p) && InTime(p, now)
    ensures var (c, q) := Command(cell, now, p, reply);
      Owns(c, q) && (!Outstanding(q) ==> OnlyCompleted(c, now))
  {
    hide ParseRecord, Serialize, Word, PickReplayHeaders;
    LockReads(p.req, p.since);
    if p.Running? && reply.Returned? { HeadersWords(reply.location); }
    if p.Caching? { RecordRoundTrip(p.record); }
  }

  /** Any other request leaves a visible cell alone; on an absent one it may acquire. */
  lemma OtherAdvances(cell: Option<Cell>, now: nat, p: Proc, reply: Reply)
    requires !Outstanding(p)
    ensures var (c, q) := Command(cell, now, p, reply);
      if Outstanding(q) then Visible(cell, now).None? && Owns(c, q) else c == cell
  {
    hide ParseRecord, Serialize, Judge;
  }

  predicate Alone(procs: seq<Proc>, pid: nat) {
    forall i :: 0 <= i < |procs| && i != pid ==> !Outstanding(procs[i])
  }

  lemma OwnersAreVisible(s: State, i: nat)
    requires Inv(s) && Punctual(s) && i < |s.procs| && Outstanding(s.procs[i])
    ensures Visible(s.cell, s.now).Some? && Alone(s.procs, i)
  {
    assert Owns(s.cell, s.procs[i]) && InTime(s.procs[i], s.now);
  }

  lemma AdvanceKeeps(s: State, pid: nat, reply: Reply)
    requires Inv(s) && Punctual(s) && pid < |s.procs|
    ensures Inv(Step(s, Advance(pid, reply)))
  {
    hide Command, Visible, Outstanding, OnlyCompleted;
    var t := Step(s, Advance(pid, reply));
    var p := s.procs[pid];
    if Outstanding(p) {
      OwnersAreVisible(s, pid);
      assert Owns(s.cell, p) && InTime(p, s.now);
      OwnerAdvances(s.cell, s.now, p, reply);
      OneAlone(t, pid);
    } else {
      OtherAdvances(s.cell, s.now, p, reply);
      if Outstanding(t.procs[pid]) {
        forall i | 0 <= i < |s.procs| ensures !Outstanding(s.procs[i]) {
          if Outstanding(s.procs[i]) { OwnersAreVisible(s, i); }
        }
        OneAlone(t, pid);
      } else {
        assert Idle(t.procs) ==> Idle(s.procs) by {
          forall i | Idle(t.procs) && 0 <= i < |s.procs|
            ensures !Outstanding(s.procs[i])
          {
            assert i != pid ==> t.procs[i] == s.procs[i];
          }
        }
      }
    }
  }

  lemma OneAlone(s: State, pid: nat)
    requires pid < |s.procs| && Alone(s.procs, pid) && Owns(s.cell, s.procs[pid])
    requires !Outstanding(s.procs[pid]) ==> OnlyCompleted(s.cell, s.now)
    ensures Inv(s)
  {
    hide Outstanding, OnlyCompleted;
  }

  lemma StepKeeps(s: State, a: Action)
    requires Inv(s) && Punctual(s)
    ensures Inv(Step(s, a))
  {
    hide Owns, OnlyCompleted, Command;
    match a
    case Arrive(r) =>
      var t := Step(s, a);
      assert forall c :: Owns(c, Arrived(r)) by { ArrivedOwnsNothing(r); }
      assert Idle(t.procs) ==> Idle(s.procs) by {
        forall i | Idle(t.procs) && 0 <= i < |s.procs|
          ensures !Outstanding(s.procs[i])
        {
          assert t.procs[i] == s.procs[i];
        }
      }
    case Advance(pid, reply) => if pid < |s.procs| { AdvanceKeeps(s, pid, reply); }
    case Tick(ms) => if Idle(s.procs) { VisibleFades(s.cell, s.now, ms); }
  }

  lemma ArrivedOwnsNothing(r: Request)
    ensures forall c :: Owns(c, Arrived(r))
  {
  }

  lemma VisibleFades(cell: Option<Cell>, now: nat, ms: nat)
    requires OnlyCompleted(cell, now)
    ensures OnlyCompleted(cell, now + ms)
  {
    hide ParseRecord;
  }

  lemma {:induction false} RunKeeps(s: State, actions: seq<Action>)
    requires Inv(s) && PunctualRun(s, actions)
    ensures Inv(Run(s, actions)) && Punctual(Run(s, actions))
    decreases |actions|
  {
    hide Inv, Step, Punctual;
    if actions != [] {
      StepKeeps(s, actions[0]);
      RunKeeps(Step(s, actions[0]), actions[1..]);
    }
  }

  // ----- Theorems -----

  /** When no acquisition outlives its lock, at most one is outstanding in any state. */
  lemma OneExecutionAtATime(now: nat, actions: seq<Action>, i: nat, j: nat)
    requires PunctualRun(Start(now), actions)
    requires var s := Run(Start(now), actions);
      i < |s.procs| && j < |s.procs| && Outstanding(s.procs[i]) && Outstanding(s.procs[j])
    ensures i == j
  {
    hide Outstanding;
    RunKeeps(Start(now), actions);
  }

  /** And the assumption is exact: while an acquisition is outstanding, a request whose SET
      NX runs at time T acquires as well if and only if the lock has expired by then. */
  lemma SecondExecutionExactlyAfterExpiry(now: nat, past: seq<Action>, pid: nat, ms: nat, r: Request, reply: Reply)
    requires PunctualRun(Start(now), past)
    requires var s := Run(Start(now), past); pid < |s.procs| && Outstanding(s.procs[pid])
    ensures var s := Run(Start(now), past); var p := s.procs[pid];
      var t := Step(Step(s, Tick(ms)), Arrive(r));
      var u := Step(t, Advance(|s.procs|, reply));
      && u.procs[pid] == p
      && (Outstanding(u.procs[|s.procs|]) <==> s.now + ms >= p.since + p.req.lockTtlSeconds * 1000)
      && (Outstanding(u.procs[|s.procs|]) || u.procs[|s.procs|] == Refused(r))
  {
    hide ParseRecord, Serialize, PunctualRun, Run;
    RunKeeps(Start(now), past);
    var s := Run(Start(now), past);
    assert Owns(s.cell, s.procs[pid]);
  }

  /** The one answer a cached record gives to a request. */
  function Answer(r: Request, record: StoredRecord): Outcome {
    if record.requestHash == r.hash then Replayed(record) else PayloadConflict
  }

  /** Already answered, or already told that the handler is still running: between two
      commands, not asleep. */
  predicate Told(p: Proc) {
    p.Done? || p.Vanished? || p.ToWait? || p.Looping?
  }

  /** Not executing, and answered from the record if answered. */
  predicate Served(p: Proc, record: StoredRecord) {
    !Outstanding(p) && (Told(p) ==> p.Done? && p.outcome == Answer(p.req, record))
  }

  /** Not executing, and answered from the record or sent away if answered. */
  predicate ServedOrSentAway(p: Proc, record: StoredRecord) {
    !Outstanding(p) && (p.Done? ==> p.outcome == Answer(p.req, record) || p.outcome == StillInProgress)
  }

  predicate Standing(p: Proc, i: nat, record: StoredRecord, done: set<nat>, told: set<nat>) {
    if i in done then p.Done? else if i in told then ServedOrSentAway(p, record) else Served(p, record)
  }

  /** The record is in the cell and every request not in `done` gets its answer from it. */
  predicate Holds(s: State, record: StoredRecord, expiresAt: nat, done: set<nat>, told: set<nat>) {
    && s.cell == Some(Cell(Serialize(record), expiresAt))
    && forall i :: 0 <= i < |s.procs| ==> Standing(s.procs[i], i, record, done, told)
  }

  lemma StandingAdvances(cell: Option<Cell>, now: nat, p: Proc, reply: Reply,
                         i: nat, record: StoredRecord, expiresAt: nat, done: set<nat>, told: set<nat>)
    requires cell == Some(Cell(Serialize(record), expiresAt)) && now < expiresAt
    requires record.Completed? && ParseRecord(Some(Serialize(record))) == Some(record)
    requires Standing(p, i, record, done, told)
    ensures var (c, q) := Command(cell, now, p, reply); c == cell && Standing(q, i, record, done, told)
  {
    hide ParseRecord, Serialize;
  }

  lemma {:induction false} RecordIsKept(s: State, actions: seq<Action>, record: StoredRecord, expiresAt: nat,
      done: set<nat>, told: set<nat>)
    requires Holds(s, record, expiresAt, done, told) && Run(s, actions).now < expiresAt
    requires record.Completed? && ParseRecord(Some(Serialize(record))) == Some(record)
    requires forall i :: i in done + told ==> i < |s.procs|
    ensures Holds(Run(s, actions), record, expiresAt, done, told)
    decreases |actions|
  {
    hide ParseRecord, Serialize, Command, Standing;
    if actions != [] {
      var a, t := actions[0], Step(s, actions[0]);
      TimeMovesOn(t, actions[1..]);
      if a.Advance? && a.pid < |s.procs| {
        StandingAdvances(s.cell, s.now, s.procs[a.pid], a.reply, a.pid, record, expiresAt, done, told);
      }
      if a.Arrive? { ArrivedStands(a.req, |s.procs|, record, done, told); }
      RecordIsKept(t, actions[1..], record, expiresAt, done, told);
    }
  }

  lemma ArrivedStands(r: Request, i: nat, record: StoredRecord, done: set<nat>, told: set<nat>)
    requires i !in done + told
    ensures Standing(Arrived(r), i, record, done, told)
  {
  }

  lemma {:induction false} TimeMovesOn(s: State, actions: seq<Action>)
    ensures Run(s, actions).now >= s.now
    decreases |actions|
  {
    hide Command;
    if actions != [] { TimeMovesOn(Step(s, actions[0]), actions[1..]); }
  }

  /** Once a record is cached, and for ttlSeconds after: the stored text reads back as
      exactly that record, no handler runs, and every request not yet answered is answered
      from the record, replayed when its payload is the same and refused when it is not.
      Only those that had just been told that the handler is still running may instead
      give up waiting. */
  lemma CachedReplyAnswersEveryone(now: nat, past: seq<Action>, pid: nat, reply: Reply, future: seq<Action>, i: nat)
    requires PunctualRun(Start(now), past)
    requires var s := Run(Start(now), past); pid < |s.procs| && s.procs[pid].Caching?
    requires var s := Run(Start(now), past); var u := Run(Step(s, Advance(pid, reply)), future);
      u.now < s.now + s.procs[pid].req.ttlSeconds * 1000 && i < |u.procs|
    ensures var s := Run(Start(now), past); var record := s.procs[pid].record;
      var u := Run(Step(s, Advance(pid, reply)), future); var p := u.procs[i];
      && ParseRecord(Visible(u.cell, u.now)) == Some(record)
      && !Outstanding(p)
      && (p.Done? && (i < |s.procs| ==> i != pid && !s.procs[i].Done?) ==>
            p.outcome == Answer(p.req, record) || (i < |s.procs| && Told(s.procs[i]) && p.outcome == StillInProgress))
  {
    hide ParseRecord, Serialize, Command, Punctual, Outstanding, Standing, Told;
    var s := Run(Start(now), past);
    RunKeeps(Start(now), past);
    var p, record := s.procs[pid], s.procs[pid].record;
    var done := set k | 0 <= k < |s.procs| && (k == pid || s.procs[k].Done?);
    var told := set k | 0 <= k < |s.procs| && Told(s.procs[k]);
    CachingSettles(s, pid, reply, done, told);
    var t := Step(s, Advance(pid, reply));
    RecordRoundTrip(record);
    RecordIsKept(t, future, record, s.now + p.req.ttlSeconds * 1000, done, told);
    var u := Run(t, future);
    StandingMeans(u.procs[i], i, record, done, told);
  }

  lemma StandingMeans(p: Proc, i: nat, record: StoredRecord, done: set<nat>, told: set<nat>)
    requires Standing(p, i, record, done, told)
    ensures !Outstanding(p)
    ensures p.Done? && i !in done ==> p.outcome == Answer(p.req, record) || (i in told && p.outcome == StillInProgress)
  {
  }

  lemma CachingSettles(s: State, pid: nat, reply: Reply, done: set<nat>, told: set<nat>)
    requires Inv(s) && Punctual(s) && pid < |s.procs| && s.procs[pid].Caching?
    requires done == set k | 0 <= k < |s.procs| && (k == pid || s.procs[k].Done?)
    requires told == set k | 0 <= k < |s.procs| && Told(s.procs[k])
    ensures var p := s.procs[pid];
      && p.record.Completed? && Canonical(p.record)
      && Holds(Step(s, Advance(pid, reply)), p.record, s.now + p.req.ttlSeconds * 1000, done, told)
  {
    hide ParseRecord, Serialize;
    OwnersAreVisible(s, pid);
    assert Owns(s.cell, s.procs[pid]);
  }

  /** None of these actions is a step of the request `pid`. */
  predicate Spares(actions: seq<Action>, pid: nat) {
    forall k :: 0 <= k < |actions| && actions[k].Advance? ==> actions[k].pid != pid
  }

  /** Nothing others do touches the lock of an outstanding acquisition before it expires. */
  lemma {:induction false} LockIsUndisturbed(s: State, others: seq<Action>, pid: nat)
    requires pid < |s.procs| && Outstanding(s.procs[pid]) && Alone(s.procs, pid) && Spares(others, pid)
    requires s.cell == Some(Lock(s.procs[pid].req, s.procs[pid].since)) && InTime(s.procs[pid], Run(s, others).now)
    ensures var u := Run(s, others);
      u.cell == s.cell && pid < |u.procs| && u.procs[pid] == s.procs[pid] && Alone(u.procs, pid)
    decreases |others|
  {
    hide Command, Serialize;
    if others != [] {
      var a, t := others[0], Step(s, others[0]);
      TimeMovesOn(t, others[1..]);
      if a.Advance? && a.pid < |s.procs| { OtherAdvances(s.cell, s.now, s.procs[a.pid], a.reply); }
      assert Spares(others[1..], pid) by {
        assert forall k :: 0 <= k < |others| - 1 ==> others[1..][k] == others[k + 1];
      }
      LockIsUndisturbed(t, others[1..], pid);
    }
  }

  /** The key holds the lock of this acquisition, whatever others do for the next `ms`. */
  ghost predicate KeepsItsLock(s: State, pid: nat, ms: nat)
    requires pid < |s.procs| && Outstanding(s.procs[pid])
  {
    forall others :: Spares(others, pid) && Run(s, others).now == s.now + ms ==>
      Run(s, others).cell == Some(Lock(s.procs[pid].req, s.procs[pid].since))
  }

  /** Neither the DEL of a release nor the SET of a complete looks at what it overwrites. It
      is the request's own lock, whatever others do in the meantime, exactly until that lock
      expires. */
  lemma OwnLockExactlyUntilExpiry(now: nat, past: seq<Action>, pid: nat, ms: nat)
    requires PunctualRun(Start(now), past)
    requires var s := Run(Start(now), past); pid < |s.procs| && Outstanding(s.procs[pid])
    ensures var s := Run(Start(now), past); var p := s.procs[pid];
      KeepsItsLock(s, pid, ms) <==> s.now + ms < p.since + p.req.lockTtlSeconds * 1000
  {
    RunKeeps(Start(now), past);
    var s := Run(Start(now), past);
    hide Run, PunctualRun, Step;
    OwnersAreVisible(s, pid);
    var p := s.procs[pid];
    assert Owns(s.cell, p);
    hide Outstanding, Alone, Owns, Inv, Punctual, Spares;
    if s.now + ms < p.since + p.req.lockTtlSeconds * 1000 {
      forall others | Spares(others, pid) && Run(s, others).now == s.now + ms ensures Run(s, others).cell == s.cell {
        LockIsUndisturbed(s, others, pid);
      }
    } else {
      var others := AnotherAcquires(s, pid, ms);
    }
  }

  lemma AnotherAcquires(s: State, pid: nat, ms: nat) returns (others: seq<Action>)
    requires pid < |s.procs| && Outstanding(s.procs[pid])
    requires s.cell == Some(Lock(s.procs[pid].req, s.procs[pid].since))
    requires var p := s.procs[pid]; s.now + ms >= p.since + p.req.lockTtlSeconds * 1000
    ensures Spares(others, pid)
    ensures var u := Run(s, others); var r := s.procs[pid].req;
      && u.now == s.now + ms && |u.procs| == |s.procs| + 1 && u.procs[pid] == s.procs[pid]
      && u.procs[|s.procs|] == Running(r, u.now) && u.cell == Some(Lock(r, u.now)) != s.cell
  {
    hide Serialize, ParseRecord;
    var r := s.procs[pid].req;
    others := [Tick(ms), Arrive(r), Advance(|s.procs|, Threw)];
    var s1 := State(s.now + ms, s.cell, s.procs);
    var s2 := State(s.now + ms, s.cell, s.procs + [Arrived(r)]);
    var s3 := State(s.now + ms, Some(Lock(r, s.now + ms)), s.procs + [Running(r, s.now + ms)]);
    assert Step(s, others[0]) == s1;
    assert Step(s1, others[1]) == s2;
    assert Step(s2, others[2]) == s3;
    RunUnfolds(s, others);
    RunUnfolds(s1, others[1..]);
    RunUnfolds(s2, others[2..]);
    assert Run(s3, []) == s3;
  }

  /** A release in time deletes its own lock and frees the key, whatever others do between its
      GET and its DEL: the next request acquires it. */
  lemma ReleaseFreesTheKey(now: nat, past: seq<Action>, pid: nat, reply: Reply, others: seq<Action>, next: Request)
    requires PunctualRun(Start(now), past) && Spares(others, pid)
    requires var s := Run(Start(now), past); pid < |s.procs| && s.procs[pid].Releasing?
    requires var s := Run(Start(now), past);
      InTime(s.procs[pid], Run(Step(s, Advance(pid, reply)), others).now)
    ensures var s := Run(Start(now), past); var p := s.procs[pid];
      var t := Run(Step(s, Advance(pid, reply)), others);
      && pid < |t.procs| && t.procs[pid] == Deleting(p.req, p.since) && t.cell == Some(Lock(p.req, p.since))
      && var u := Step(t, Advance(pid, reply));
      && u.cell.None? && u.procs[pid] == Done(p.req, Executed(None))
      && Command(u.cell, u.now, Arrived(next), reply).1 == Running(next, u.now)
  {
    RunKeeps(Start(now), past);
    hide Run, PunctualRun;
    var s := Run(Start(now), past);
    OwnersAreVisible(s, pid);
    var p, t := s.procs[pid], Step(s, Advance(pid, reply));
    assert Owns(s.cell, p) && InTime(p, s.now);
    GetFindsItsLock(s, pid, reply);
    hide Step, Command, Serialize;
    LockIsUndisturbed(t, others, pid);
    DeleteFrees(Run(t, others), pid, reply, next);
  }

  lemma GetFindsItsLock(s: State, pid: nat, reply: Reply)
    requires pid < |s.procs| && s.procs[pid].Releasing? && Alone(s.procs, pid)
    requires s.cell == Some(Lock(s.procs[pid].req, s.procs[pid].since)) && InTime(s.procs[pid], s.now)
    ensures var p := s.procs[pid]; var t := Step(s, Advance(pid, reply));
      t.cell == s.cell && |t.procs| == |s.procs| && t.procs[pid] == Deleting(p.req, p.since) && Alone(t.procs, pid)
  {
    hide ParseRecord, Serialize;
    LockReads(s.procs[pid].req, s.procs[pid].since);
  }

  lemma DeleteFrees(s: State, pid: nat, reply: Reply, next: Request)
    requires pid < |s.procs| && s.procs[pid].Deleting?
    ensures var u := Step(s, Advance(pid, reply));
      && u.cell.None? && u.procs[pid] == Done(s.procs[pid].req, Executed(None))
      && Command(u.cell, u.now, Arrived(next), reply).1 == Running(next, u.now)
  {
    hide ParseRecord, Serialize;
  }

  // ----- What a handler's reply does to the key -----

  /** A reply that may be replayed: a success whose record is not too long. */
  predicate Replayable(reply: Reply) {
    reply.Returned? && reply.status < 400 && reply.chars <= MAX_REPLAY_RECORD_CHARS
  }

  /** The record holds this reply to this request, a 204 without its body. */
  predicate Records(record: StoredRecord, r: Request, reply: Reply) {
    && record.Completed? && reply.Returned? && record.requestHash == r.hash && record.status == reply.status
    && (record.hasBody <==> reply.body.Some? && reply.status != 204)
    && record.body == (if reply.status == 204 then None else reply.body)
    && record.headers.Keys <= {"Location"}
    && ("Location" in record.headers <==> reply.location.Some? && Trim(reply.location.value) != "")
    && ("Location" in record.headers ==> record.headers["Location"] == Trim(reply.location.value))
  }

  lemma ReplyMeans(r: Request, since: nat, reply: Reply, now: nat)
    ensures var q := AfterHandler(r, since, reply, now);
      && (Replayable(reply) ==>
            q.Caching? && q.req == r && q.since == since && Records(q.record, r, reply) && Canonical(q.record))
      && (!Replayable(reply) ==> q == Releasing(r, since))
  {
    hide Trim;
    if reply.Returned? { HeadersWords(reply.location); }
  }

  /** While others go on, the request that owns the key stays its only owner. */
  lemma OwnerWaits(s: State, others: seq<Action>, pid: nat)
    requires Inv(s) && Punctual(s) && pid < |s.procs| && Outstanding(s.procs[pid]) && Spares(others, pid)
    requires InTime(s.procs[pid], Run(s, others).now)
    ensures var u := Run(s, others);
      && u.cell == s.cell && pid < |u.procs| && u.procs[pid] == s.procs[pid]
      && Inv(u) && Punctual(u)
  {
    OwnersAreVisible(s, pid);
    assert Owns(s.cell, s.procs[pid]);
    hide Run, Visible, ParseRecord, Serialize;
    LockIsUndisturbed(s, others, pid);
    var u := Run(s, others);
    OneAlone(u, pid);
  }

  /** A replayable reply of a handler that answers in time is cached, whatever others do between
      its return and the SET. For ttlSeconds from then on, whatever happens, the key reads back
      that reply, and a next request is answered with it, or told of the conflict when its
      payload is another. */
  lemma SuccessIsReplayed(now: nat, past: seq<Action>, pid: nat, reply: Reply, others: seq<Action>,
                          future: seq<Action>, next: Request)
    requires PunctualRun(Start(now), past) && Spares(others, pid) && Replayable(reply)
    requires var s := Run(Start(now), past); pid < |s.procs| && s.procs[pid].Running?
    requires var s := Run(Start(now), past); InTime(s.procs[pid], Run(Step(s, Advance(pid, reply)), others).now)
    requires var s := Run(Start(now), past); var mid := Run(Step(s, Advance(pid, reply)), others);
      Run(Step(mid, Advance(pid, reply)), future).now < mid.now + s.procs[pid].req.ttlSeconds * 1000
    ensures var s := Run(Start(now), past); var r := s.procs[pid].req;
      var mid := Run(Step(s, Advance(pid, reply)), others);
      var t := Step(mid, Advance(pid, reply));
      var u := Run(t, future);
      && pid < |t.procs| && t.procs[pid].Done? && t.procs[pid].outcome.Executed? && t.procs[pid].outcome.cached.Some?
      && var record := t.procs[pid].outcome.cached.value;
      && Records(record, r, reply) && ParseRecord(Visible(u.cell, u.now)) == Some(record)
      && AskedNext(u, next) == Done(next, if next.hash == r.hash then Replayed(record) else PayloadConflict)
  {
    RunKeeps(Start(now), past);
    var s := Run(Start(now), past);
    var s1 := Step(s, Advance(pid, reply));
    AdvanceKeeps(s, pid, reply);
    HandlerReturns(s, pid, reply);
    hide *;
    OwnerWaits(s1, others, pid);
    var mid := Run(s1, others);
    RecordsHash(s1.procs[pid].record, s.procs[pid].req, reply);
    CachingAnswers(mid, pid, reply, future, next);
  }

  lemma CachingAnswers(mid: State, pid: nat, reply: Reply, future: seq<Action>, next: Request)
    requires Inv(mid) && Punctual(mid) && pid < |mid.procs| && mid.procs[pid].Caching?
    requires Canonical(mid.procs[pid].record) && mid.procs[pid].record.Completed?
    requires Run(Step(mid, Advance(pid, reply)), future).now < mid.now + mid.procs[pid].req.ttlSeconds * 1000
    ensures var record := mid.procs[pid].record;
      var t := Step(mid, Advance(pid, reply));
      var u := Run(t, future);
      && pid < |t.procs| && t.procs[pid] == Done(mid.procs[pid].req, Executed(Some(record)))
      && ParseRecord(Visible(u.cell, u.now)) == Some(record)
      && AskedNext(u, next) ==
           Done(next, if next.hash == record.requestHash then Replayed(record) else PayloadConflict)
  {
    var t, record, expiresAt := Step(mid, Advance(pid, reply)), mid.procs[pid].record,
      mid.now + mid.procs[pid].req.ttlSeconds * 1000;
    var done := set k | 0 <= k < |mid.procs| && (k == pid || mid.procs[k].Done?);
    var told := set k | 0 <= k < |mid.procs| && Told(mid.procs[k]);
    hide *;
    CachingSettles(mid, pid, reply, done, told);
    RecordRoundTrip(record);
    CachedNow(mid, pid, reply);
    RecordIsKept(t, future, record, expiresAt, done, told);
    HeldIsAnswered(Run(t, future), record, expiresAt, done, told, next);
  }

  /** What a request that arrives now is told by its first two commands. */
  function AskedNext(u: State, next: Request): Proc {
    var (c, p) := Command(u.cell, u.now, Arrived(next), Threw);
    Command(c, u.now, p, Threw).1
  }

  lemma HandlerReturns(s: State, pid: nat, reply: Reply)
    requires Inv(s) && Punctual(s) && pid < |s.procs| && s.procs[pid].Running?
    ensures var t := Step(s, Advance(pid, reply)); var p := s.procs[pid];
      && t.now == s.now && t.cell == s.cell && |t.procs| == |s.procs| && Punctual(t) && Outstanding(t.procs[pid])
      && t.procs[pid].req == p.req && t.procs[pid].since == p.since
      && (Replayable(reply) ==>
            t.procs[pid].Caching? && Records(t.procs[pid].record, p.req, reply) && Canonical(t.procs[pid].record))
      && (!Replayable(reply) ==> t.procs[pid] == Releasing(p.req, p.since))
  {
    hide AfterHandler, Records, ParseRecord, Serialize, Canonical;
    ReplyMeans(s.procs[pid].req, s.procs[pid].since, reply, s.now);
    assert InTime(s.procs[pid], s.now);
  }

  lemma CachedNow(s: State, pid: nat, reply: Reply)
    requires pid < |s.procs| && s.procs[pid].Caching?
    ensures var t := Step(s, Advance(pid, reply)); var p := s.procs[pid];
      pid < |t.procs| && t.procs[pid] == Done(p.req, Executed(Some(p.record))) && |t.procs| == |s.procs|
  {
    hide ParseRecord, Serialize;
  }

  lemma RecordsHash(record: StoredRecord, r: Request, reply: Reply)
    requires Records(record, r, reply)
    ensures record.Completed? && record.requestHash == r.hash
  {
  }

  lemma HeldIsAnswered(u: State, record: StoredRecord, expiresAt: nat, done: set<nat>, told: set<nat>, next: Request)
    requires Holds(u, record, expiresAt, done, told) && u.now < expiresAt && record.Completed?
    requires ParseRecord(Some(Serialize(record))) == Some(record)
    ensures ParseRecord(Visible(u.cell, u.now)) == Some(record)
    ensures AskedNext(u, next) ==
      Done(next, if next.hash == record.requestHash then Replayed(record) else PayloadConflict)
  {
    hide ParseRecord, Serialize, Standing;
  }

  /** Any other reply of a handler in time releases the key, whatever others do between its
      commands: nothing is cached, and the next request acquires. */
  lemma FailureIsReleased(now: nat, past: seq<Action>, pid: nat, reply: Reply, others: seq<Action>,
                          more: seq<Action>, next: Request)
    requires PunctualRun(Start(now), past) && Spares(others, pid) && Spares(more, pid) && !Replayable(reply)
    requires var s := Run(Start(now), past); pid < |s.procs| && s.procs[pid].Running?
    requires var s := Run(Start(now), past);
      var mid := Run(Step(s, Advance(pid, reply)), others);
      InTime(s.procs[pid], Run(Step(mid, Advance(pid, reply)), more).now)
    ensures var s := Run(Start(now), past); var r := s.procs[pid].req;
      var mid := Run(Step(s, Advance(pid, reply)), others);
      var t := Step(Run(Step(mid, Advance(pid, reply)), more), Advance(pid, reply));
      && pid < |t.procs| && t.procs[pid] == Done(r, Executed(None)) && t.cell.None?
      && Command(t.cell, t.now, Arrived(next), Threw).1 == Running(next, t.now)
  {
    RunKeeps(Start(now), past);
    var s := Run(Start(now), past);
    var s1 := Step(s, Advance(pid, reply));
    AdvanceKeeps(s, pid, reply);
    HandlerReturns(s, pid, reply);
    hide Run, PunctualRun, Step, Inv, Punctual, Command;
    var mid := Run(s1, others);
    var s2 := Step(mid, Advance(pid, reply));
    TimeMovesOn(s1, others);
    TimeMovesOn(s2, more);
    assert s2.now == mid.now by { AdvanceTakesNoTime(mid, pid, reply); }
    OwnerWaits(s1, others, pid);
    OwnersAreVisible(mid, pid);
    assert Owns(mid.cell, mid.procs[pid]) by { Owner(mid, pid); }
    hide Alone;
    GetFindsItsLock(mid, pid, reply);
    LockIsUndisturbed(s2, more, pid);
    DeleteFrees(Run(s2, more), pid, reply, next);
  }

  lemma Owner(s: State, pid: nat)
    requires Inv(s) && pid < |s.procs|
    ensures Owns(s.cell, s.procs[pid])
  {
  }

  lemma AdvanceTakesNoTime(s: State, pid: nat, reply: Reply)
    ensures Step(s, Advance(pid, reply)).now == s.now
  {
    hide Command;
  }

  /** What a stored text tells a request: to go on waiting exactly while it shows an
      acquisition for the same payload. */
  lemma JudgeMeans(r: Request, raw: Option<Value>)
    ensures var record := ParseRecord(raw);
      && (Judge(r, raw) == None <==> record.Some? && record.value.InProgress? && record.value.requestHash == r.hash)
      && (Judge(r, raw) == Some(PayloadConflict) <==> record.Some? && record.value.requestHash != r.hash)
      && (Judge(r, raw) == Some(StillInProgress) <==> record.None?)
      && (forall c :: Judge(r, raw) == Some(Replayed(c)) <==>
            record == Some(c) && c.Completed? && c.requestHash == r.hash)
  {
    hide ParseRecord;
  }

  /** Without the assumption the lock protects nobody: a handler that outlives its lock
      runs beside the next one, and when it fails it deletes the other's lock. */
  lemma LateHandlerFreesAnothersLock(now: nat, r: Request)
    ensures var late := [Arrive(r), Arrive(r), Advance(0, Threw), Tick(r.lockTtlSeconds * 1000), Advance(1, Threw)];
      var s := Run(Start(now), late);
      && |s.procs| == 2 && s.procs[0].Running? && s.procs[1].Running?
      && var t := Step(Step(Step(s, Advance(0, Threw)), Advance(0, Threw)), Advance(0, Threw));
         t.cell.None? && t.procs[1].Running?
  {
    hide ParseRecord, Serialize;
    var a := [Arrive(r), Arrive(r), Advance(0, Threw), Tick(r.lockTtlSeconds * 1000), Advance(1, Threw)];
    var s1 := State(now, None, [Arrived(r)]);
    var s2 := State(now, None, [Arrived(r), Arrived(r)]);
    var s3 := State(now, Some(Lock(r, now)), [Running(r, now), Arrived(r)]);
    var later := now + r.lockTtlSeconds * 1000;
    var s4 := State(later, s3.cell, s3.procs);
    var s5 := State(later, Some(Lock(r, later)), [Running(r, now), Running(r, later)]);
    assert Step(Start(now), a[0]) == s1;
    assert Step(s1, a[1]) == s2;
    assert Step(s2, a[2]) == s3;
    assert Step(s3, a[3]) == s4;
    assert Step(s4, a[4]) == s5;
    RunUnfolds(Start(now), a);
    RunUnfolds(s1, a[1..]);
    RunUnfolds(s2, a[2..]);
    RunUnfolds(s3, a[3..]);
    RunUnfolds(s4, a[4..]);
    assert Run(Start(now), a) == s5;
    LockReads(r, later);
  }

  lemma RunUnfolds(s: State, actions: seq<Action>)
    requires actions != []
    ensures Run(s, actions) == Run(Step(s, actions[0]), actions[1..])
  {
  }
}
