/** The per-address rate limiter: a counter key that expires with its window, and a block
    key. Calls for one address are taken one after the other; times are milliseconds. */
module RateLimit {
  import opened Wrappers

  type Positive = n: nat | n >= 1 witness 1

  datatype Config = Config(maxAttempts: Positive, windowSeconds: Positive, blockSeconds: Positive)

  /** A key with INCR's value and the time it expires, if any. */
  datatype Counter = Counter(count: nat, expiresAt: Option<int>)

  datatype Keys = Keys(counter: Option<Counter>, blockedUntil: Option<nat>)

  function Live(k: Keys, now: nat): Keys {
    Keys(if k.counter.Some? && (k.counter.value.expiresAt.None? || now < k.counter.value.expiresAt.value)
      then k.counter else None,
         if k.blockedUntil.Some? && now < k.blockedUntil.value then k.blockedUntil else None)
  }

  /** TTL in seconds, rounded as Redis rounds it. */
  function TtlSeconds(expiresAt: nat, now: nat): nat
    requires now < expiresAt
  {
    (expiresAt - now + 500) / 1000
  }

  function RetryAfter(expiresAt: nat, now: nat, fallbackSeconds: nat): nat
    requires now < expiresAt
  {
    if TtlSeconds(expiresAt, now) > 0 then TtlSeconds(expiresAt, now) else fallbackSeconds
  }

  /** One admitted call: when, as which of its window, and when the window began. */
  datatype Admission = Admission(time: nat, count: nat, windowStart: int)

  datatype Verdict = Admitted(at: Admission) | Refused(retryAfter: nat)

  function Apply(c: Config, keys: Keys, now: nat): (Keys, Verdict) {
    var k := Live(keys, now);
    if k.blockedUntil.Some? then (k, Refused(RetryAfter(k.blockedUntil.value, now, c.blockSeconds)))
    else
      var count := if k.counter.Some? then k.counter.value.count + 1 else 1;
      var kept := if k.counter.Some? then k.counter.value.expiresAt else None;
      var expiresAt := if count == 1 then Some(now + c.windowSeconds * 1000) else kept;
      var blocked := if count >= c.maxAttempts then Some(now + c.blockSeconds * 1000) else None;
      (Keys(Some(Counter(count, expiresAt)), blocked),
       Admitted(Admission(now, count, if expiresAt.Some? then expiresAt.value - c.windowSeconds * 1000 else now)))
  }

  class IpRateLimiter {
    const config: Config
    var counter: Option<Counter>
    var blockedUntil: Option<nat>

    constructor (config: Config)
      ensures this.config == config && counter == None && blockedUntil == None
    {
      this.config, counter, blockedUntil := config, None, None;
    }

    function State(): Keys
      reads this
    {
      Keys(counter, blockedUntil)
    }

    method Expire(now: nat)
      modifies this
      ensures State() == Live(old(State()), now)
    {
      if counter.Some? && counter.value.expiresAt.Some? && now >= counter.value.expiresAt.value { counter := None; }
      if blockedUntil.Some? && now >= blockedUntil.value { blockedUntil := None; }
    }

    method ApplyIpRateLimit(now: nat) returns (retryAfter: Option<nat>)
      modifies this
      ensures State() == Apply(config, old(State()), now).0
      ensures match Apply(config, old(State()), now).1
        case Admitted(_) => retryAfter == None
        case Refused(seconds) => retryAfter == Some(seconds)
    {
      Expire(now);
      if blockedUntil.Some? {
        var ttl := TtlSeconds(blockedUntil.value, now);
        return Some(if ttl > 0 then ttl else config.blockSeconds);
      }
      var count := if counter.Some? then counter.value.count + 1 else 1;
      counter := Some(Counter(count, if counter.Some? then counter.value.expiresAt else None));
      if count == 1 { counter := Some(Counter(count, Some(now + config.windowSeconds * 1000))); }
      if count >= config.maxAttempts { blockedUntil := Some(now + config.blockSeconds * 1000); }
      return None;
    }
  }

  // ----- Runs -----

  predicate InOrder(times: seq<nat>) {
    forall i, j :: 0 <= i <= j < |times| ==> times[i] <= times[j]
  }

  function After(c: Config, keys: Keys, times: seq<nat>): Keys
    decreases |times|
  {
    if times == [] then keys else After(c, Apply(c, keys, times[0]).0, times[1..])
  }

  function Verdicts(c: Config, keys: Keys, times: seq<nat>): seq<Verdict>
    decreases |times|
  {
    if times == [] then []
    else [Apply(c, keys, times[0]).1] + Verdicts(c, Apply(c, keys, times[0]).0, times[1..])
  }

  function Admissions(verdicts: seq<Verdict>): seq<Admission>
    decreases |verdicts|
  {
    if verdicts == [] then []
    else if verdicts[0].Admitted? then [verdicts[0].at] + Admissions(verdicts[1..])
    else Admissions(verdicts[1..])
  }

  const NO_KEYS := Keys(None, None)

  // ----- The invariant -----

  /** One admission after another: the next of the same window, or the first of a later
      window, and then only once the block of a full window is over. */
  predicate Follows(c: Config, a: Admission, b: Admission) {
    && a.time <= b.time
    && if b.count == 1 then
         && b.windowStart == b.time
         && b.time >= a.windowStart + c.windowSeconds * 1000
         && (a.count == c.maxAttempts ==> b.time >= a.time + c.blockSeconds * 1000)
       else b.count == a.count + 1 && b.windowStart == a.windowStart
  }

  predicate Proper(c: Config, a: Admission) {
    1 <= a.count <= c.maxAttempts && a.windowStart <= a.time && (a.count == 1 ==> a.windowStart == a.time)
  }

  /** The last admission as the keys and the clock still show it. */
  predicate Shows(c: Config, keys: Keys, last: Option<Admission>, now: nat) {
    match last
    case None => keys == NO_KEYS
    case Some(a) =>
      && Proper(c, a) && a.time <= now
      && (keys.counter.None? ==> now >= a.windowStart + c.windowSeconds * 1000)
      && (keys.counter.Some? ==> keys.counter == Some(Counter(a.count, Some(a.windowStart + c.windowSeconds * 1000))))
      && (a.count == c.maxAttempts ==>
            var until := a.time + c.blockSeconds * 1000;
            keys.blockedUntil == Some(until) || (keys.blockedUntil.None? && now >= until))
      && (keys.blockedUntil.Some? ==> a.count == c.maxAttempts)
  }

  /** Blocking for at least a window: what the guarantee needs. */
  predicate BlocksLongEnough(c: Config) {
    c.blockSeconds >= c.windowSeconds
  }

  /** Each call keeps what the keys show of the last admission. A refusal tells when the block
      ends to half a second, except in the last half second of the block, where the time to
      live rounds to zero and the whole block length is answered. */
  lemma ApplyShows(c: Config, keys: Keys, last: Option<Admission>, before: nat, now: nat)
    requires BlocksLongEnough(c) && Shows(c, keys, last, before) && before <= now
    ensures var (k, v) := Apply(c, keys, now);
      match v
      case Admitted(a) =>
        Proper(c, a) && a.time == now && (last.Some? ==> Follows(c, last.value, a)) && Shows(c, k, Some(a), now)
      case Refused(seconds) =>
        && Shows(c, k, last, now) && last.Some? && 1 <= seconds <= c.blockSeconds
        && var until := last.value.time + c.blockSeconds * 1000;
           && now < until
           && (until - now >= 500 <==> -500 <= seconds * 1000 - (until - now) <= 500)
           && (until - now < 500 ==> seconds == c.blockSeconds)
  {
  }

  predicate Chained(c: Config, log: seq<Admission>) {
    && (forall i :: 0 <= i < |log| ==> Proper(c, log[i]))
    && (forall i :: 0 < i < |log| ==> Follows(c, log[i - 1], log[i]))
  }

  lemma {:induction false} RunChains(c: Config, keys: Keys, last: Option<Admission>, before: nat, times: seq<nat>)
    requires BlocksLongEnough(c) && Shows(c, keys, last, before) && InOrder(times)
    requires (times != [] ==> before <= times[0])
    ensures var log := Admissions(Verdicts(c, keys, times));
      Chained(c, log) && (log != [] && last.Some? ==> Follows(c, last.value, log[0]))
    decreases |times|
  {
    hide Apply, Shows, Follows, Proper;
    if times != [] {
      ApplyShows(c, keys, last, before, times[0]);
      var (k, v) := Apply(c, keys, times[0]);
      var verdicts := Verdicts(c, k, times[1..]);
      assert ([v] + verdicts)[1..] == verdicts;
      RunChains(c, k, if v.Admitted? then Some(v.at) else last, times[0], times[1..]);
    }
  }

  // ----- Theorems -----

  /** Where the window of admission j ends: the first admission of the next one. */
  lemma {:induction false} NextWindow(c: Config, log: seq<Admission>, j: nat) returns (i: nat)
    requires Chained(c, log) && j < |log| && j + (c.maxAttempts - log[j].count) + 1 < |log|
    ensures j < i <= j + (c.maxAttempts - log[j].count) + 1 && log[i].count == 1
    ensures log[i].time >= log[j].windowStart + c.windowSeconds * 1000
    ensures i == j + (c.maxAttempts - log[j].count) + 1 ==> log[i].time >= log[j].time + c.blockSeconds * 1000
    decreases |log| - j
  {
    assert Proper(c, log[j]) && Proper(c, log[j + 1]) && Follows(c, log[j], log[j + 1]);
    if log[j + 1].count == 1 {
      i := j + 1;
    } else {
      i := NextWindow(c, log, j + 1);
    }
  }

  lemma {:induction false} TimesGrow(c: Config, log: seq<Admission>, i: nat, j: nat)
    requires Chained(c, log) && i <= j < |log|
    ensures log[i].time <= log[j].time
    decreases j - i
  {
    if i < j {
      TimesGrow(c, log, i, j - 1);
      assert Follows(c, log[j - 1], log[j]);
    }
  }

  /** How many calls one window's length can see admitted. */
  function Bound(c: Config): nat {
    if c.maxAttempts == 1 then 1 else 2 * c.maxAttempts - 2
  }

  lemma SpreadOut(c: Config, log: seq<Admission>, j: nat)
    requires BlocksLongEnough(c) && Chained(c, log) && j + Bound(c) < |log|
    ensures log[j + Bound(c)].time >= log[j].time + c.windowSeconds * 1000
  {
    hide Chained, Follows;
    ProperAt(c, log, j);
    var i := NextWindow(c, log, j);
    ProperAt(c, log, i);
    if log[j].count == 1 || i == j + (c.maxAttempts - log[j].count) + 1 {
      TimesGrow(c, log, i, j + Bound(c));
    } else {
      var i2 := NextWindow(c, log, i);
      TimesGrow(c, log, j, i);
      TimesGrow(c, log, i2, j + Bound(c));
    }
  }

  lemma ProperAt(c: Config, log: seq<Admission>, j: nat)
    requires Chained(c, log) && j < |log|
    ensures Proper(c, log[j])
  {
  }

  /** The calls admitted in a run from the start. */
  function Log(c: Config, times: seq<nat>): seq<Admission> {
    Admissions(Verdicts(c, NO_KEYS, times))
  }

  /** When a block lasts at least a window, no stretch of windowSeconds sees more than
      max(1, 2 * maxAttempts - 2) admitted calls, so never more than 2 * maxAttempts - 1. */
  lemma AdmissionsAreBounded(c: Config, times: seq<nat>, j: nat)
    requires BlocksLongEnough(c) && InOrder(times) && j + Bound(c) < |Log(c, times)|
    ensures Log(c, times)[j + Bound(c)].time >= Log(c, times)[j].time + c.windowSeconds * 1000
    ensures Bound(c) <= 2 * c.maxAttempts - 1
  {
    hide Chained, Verdicts, Admissions;
    assert Shows(c, NO_KEYS, None, 0);
    RunChains(c, NO_KEYS, None, 0, times);
    SpreadOut(c, Log(c, times), j);
  }

  /** A block was set at a time already past. */
  predicate BlockWasSet(c: Config, keys: Keys, before: nat) {
    keys.blockedUntil.Some? ==> keys.blockedUntil.value <= before + c.blockSeconds * 1000
  }

  lemma ApplyBlocks(c: Config, keys: Keys, before: nat, now: nat)
    requires BlockWasSet(c, keys, before) && before <= now
    ensures var (k, v) := Apply(c, keys, now);
      BlockWasSet(c, k, now) && (v.Refused? ==> 1 <= v.retryAfter <= c.blockSeconds)
  {
  }

  lemma {:induction false} RefusalsFrom(c: Config, keys: Keys, before: nat, times: seq<nat>, i: nat)
    requires BlockWasSet(c, keys, before) && InOrder(times) && (times != [] ==> before <= times[0])
    requires i < |Verdicts(c, keys, times)| && Verdicts(c, keys, times)[i].Refused?
    ensures 1 <= Verdicts(c, keys, times)[i].retryAfter <= c.blockSeconds
    decreases |times|
  {
    hide Apply, BlockWasSet;
    ApplyBlocks(c, keys, before, times[0]);
    if i > 0 { RefusalsFrom(c, Apply(c, keys, times[0]).0, times[0], times[1..], i - 1); }
  }

  /** Every refusal, in any run and whatever the configuration, asks to retry after 1 to
      blockSeconds seconds. */
  lemma RefusalsAreBounded(c: Config, times: seq<nat>, i: nat)
    requires InOrder(times) && i < |Verdicts(c, NO_KEYS, times)| && Verdicts(c, NO_KEYS, times)[i].Refused?
    ensures 1 <= Verdicts(c, NO_KEYS, times)[i].retryAfter <= c.blockSeconds
  {
    hide Verdicts;
    RefusalsFrom(c, NO_KEYS, 0, times, i);
  }

  // ----- The bound is exact, and so is its condition -----

  lemma LogGrows(c: Config, keys: Keys, now: nat, k: Keys, a: Admission, rest: seq<nat>)
    requires Apply(c, keys, now) == (k, Admitted(a))
    ensures Admissions(Verdicts(c, keys, [now] + rest)) == [a] + Admissions(Verdicts(c, k, rest))
  {
    hide Apply;
    assert ([now] + rest)[1..] == rest;
    var v := Admitted(a);
    assert ([v] + Verdicts(c, k, rest))[1..] == Verdicts(c, k, rest);
  }

  function Repeat(n: nat, t: nat): seq<nat> {
    seq(n, i => t)
  }

  /** The keys after `count` admissions of a window, the last of them at `t`. */
  function Counted(c: Config, count: nat, expiresAt: int, t: nat): Keys {
    Keys(Some(Counter(count, Some(expiresAt))), if count >= c.maxAttempts then Some(t + c.blockSeconds * 1000)
      else None)
  }

  /** The admissions `count + 1` to `count + n` of a window, all at `t`. */
  function Group(c: Config, count: nat, expiresAt: int, t: nat, n: nat): (log: seq<Admission>)
    ensures |log| == n
  {
    seq(n, i requires 0 <= i < n => Admission(t, count + 1 + i, expiresAt - c.windowSeconds * 1000))
  }

  lemma OpensWindow(c: Config, keys: Keys, t: nat)
    requires Live(keys, t) == NO_KEYS
    ensures Apply(c, keys, t) == (Counted(c, 1, t + c.windowSeconds * 1000, t), Admitted(Admission(t, 1, t)))
  {
  }

  lemma CountsOn(c: Config, count: nat, expiresAt: int, before: nat, t: nat)
    requires 1 <= count < c.maxAttempts && t < expiresAt
    ensures Apply(c, Counted(c, count, expiresAt, before), t)
      == (Counted(c, count + 1, expiresAt, t), Admitted(Admission(t, count + 1, expiresAt - c.windowSeconds * 1000)))
  {
  }

  /** A window takes as many more calls as it has left, and counts each. */
  lemma {:induction false} FillsWindow(c: Config, count: nat, expiresAt: int, before: nat, t: nat, n: nat,
      rest: seq<nat>)
    requires 1 <= count && count + n <= c.maxAttempts && t < expiresAt
    ensures var last := if n == 0 then before else t;
      Admissions(Verdicts(c, Counted(c, count, expiresAt, before), Repeat(n, t) + rest))
        == Group(c, count, expiresAt, t, n) + Admissions(Verdicts(c, Counted(c, count + n, expiresAt, last), rest))
    decreases n
  {
    hide Apply, Counted, Verdicts, Admissions;
    if n == 0 {
      assert Repeat(0, t) + rest == rest;
      var log := Admissions(Verdicts(c, Counted(c, count, expiresAt, before), rest));
      assert Group(c, count, expiresAt, t, 0) + log == log;
    } else {
      CountsOn(c, count, expiresAt, before, t);
      var a := Admission(t, count + 1, expiresAt - c.windowSeconds * 1000);
      assert Repeat(n, t) + rest == [t] + (Repeat(n - 1, t) + rest);
      LogGrows(c, Counted(c, count, expiresAt, before), t, Counted(c, count + 1, expiresAt, t), a,
               Repeat(n - 1, t) + rest);
      FillsWindow(c, count + 1, expiresAt, t, t, n - 1, rest);
      assert Group(c, count, expiresAt, t, n) == [a] + Group(c, count + 1, expiresAt, t, n - 1);
    }
  }

  /** Two windows: one call at 0 and n calls at t in the first, then the second full at u. */
  function TwoWindows(c: Config, t: nat, n: nat, u: nat): seq<nat> {
    [0] + (Repeat(n, t) + ([u] + (Repeat(c.maxAttempts - 1, u) + [])))
  }

  lemma TwoWindowsAdmitted(c: Config, t: nat, n: nat, u: nat)
    requires var w := c.windowSeconds * 1000; t < w <= u
    requires 1 + n <= c.maxAttempts
    requires (1 + n == c.maxAttempts ==> (if n == 0 then 0 else t) + c.blockSeconds * 1000 <= u)
    ensures var w := c.windowSeconds * 1000;
      Log(c, TwoWindows(c, t, n, u)) == [Admission(0, 1, 0)]
        + (Group(c, 1, w, t, n) + ([Admission(u, 1, u)] + (Group(c, 1, u + w, u, c.maxAttempts - 1) + [])))
  {
    hide Apply, Group, Repeat, Verdicts, Admissions;
    var w: nat, m: nat := c.windowSeconds * 1000, c.maxAttempts;
    var last := if n == 0 then 0 else t;
    OpensWindow(c, NO_KEYS, 0);
    OpensWindow(c, Counted(c, 1 + n, w, last), u);
    hide Counted;
    var tail := Repeat(m - 1, u) + [];
    LogGrows(c, NO_KEYS, 0, Counted(c, 1, w, 0), Admission(0, 1, 0), Repeat(n, t) + ([u] + tail));
    FillsWindow(c, 1, w, 0, t, n, [u] + tail);
    LogGrows(c, Counted(c, 1 + n, w, last), u, Counted(c, 1, u + w, u), Admission(u, 1, u), tail);
    FillsWindow(c, 1, u + w, u, u, m - 1, []);
    NoCalls(c, Counted(c, m, u + w, u));
  }

  lemma NoCalls(c: Config, keys: Keys)
    ensures Admissions(Verdicts(c, keys, [])) == []
  {
  }

  lemma TwoWindowsInOrder(c: Config, t: nat, n: nat, u: nat)
    requires t <= u
    ensures InOrder(TwoWindows(c, t, n, u))
  {
    var all := TwoWindows(c, t, n, u);
    assert forall i :: 0 <= i < |all| ==> all[i] == if i == 0 then 0 else if i <= n then t else u;
  }

  /** No `Bound(c) + 1` admitted calls lie within one window's length. */
  ghost predicate BoundHolds(c: Config) {
    forall times, j: nat :: InOrder(times) && j + Bound(c) < |Log(c, times)| ==>
      Log(c, times)[j + Bound(c)].time >= Log(c, times)[j].time + c.windowSeconds * 1000
  }

  /** A shorter block lets one call too many through: the attempts of one window late in it,
      and those of the next as soon as the block is over. */
  lemma ShortBlockAdmitsMore(c: Config) returns (times: seq<nat>, j: nat)
    requires !BlocksLongEnough(c)
    ensures InOrder(times) && j + Bound(c) < |Log(c, times)|
    ensures Log(c, times)[j + Bound(c)].time < Log(c, times)[j].time + c.windowSeconds * 1000
  {
    hide Log;
    var w: nat, b: nat, m: nat := c.windowSeconds * 1000, c.blockSeconds * 1000, c.maxAttempts;
    if m == 1 {
      times, j := [0, b], 0;
      OneAttempt(c);
    } else {
      var u := w - 1 + b;
      times, j := TwoWindows(c, w - 1, m - 1, u), 1;
      TwoWindowsInOrder(c, w - 1, m - 1, u);
      TwoWindowsAdmitted(c, w - 1, m - 1, u);
    }
  }

  lemma OneAttempt(c: Config)
    requires c.maxAttempts == 1 && !BlocksLongEnough(c)
    ensures InOrder([0, c.blockSeconds * 1000])
    ensures var log := Log(c, [0, c.blockSeconds * 1000]);
      |log| == 2 && log[0].time == 0 && log[1].time == c.blockSeconds * 1000
  {
    var w, b := c.windowSeconds * 1000, c.blockSeconds * 1000;
    OpensWindow(c, NO_KEYS, 0);
    var k := Counted(c, 1, w, 0);
    var a := Admission(b, 2, 0);
    assert Apply(c, k, b).1 == Admitted(a);
    hide Apply, Verdicts, Admissions;
    LogGrows(c, NO_KEYS, 0, k, Admission(0, 1, 0), [b] + []);
    LogGrows(c, k, b, Apply(c, k, b).0, a, []);
    NoCalls(c, Apply(c, k, b).0);
    assert [0] + ([b] + []) == [0, b];
  }

  /** The limit holds in every run exactly when a block lasts at least a window. */
  lemma LimitNeedsLongBlocks(c: Config)
    ensures BoundHolds(c) <==> BlocksLongEnough(c)
  {
    hide Log;
    if BlocksLongEnough(c) {
      forall times, j: nat | InOrder(times) && j + Bound(c) < |Log(c, times)|
        ensures Log(c, times)[j + Bound(c)].time >= Log(c, times)[j].time + c.windowSeconds * 1000
      {
        AdmissionsAreBounded(c, times, j);
      }
    } else {
      var times, j := ShortBlockAdmitsMore(c);
    }
  }

  /** The bound is met by every configuration: that many calls are admitted within one
      window's length. */
  lemma BoundIsMet(c: Config) returns (times: seq<nat>, j: nat)
    ensures InOrder(times) && j + Bound(c) <= |Log(c, times)|
    ensures Log(c, times)[j + Bound(c) - 1].time < Log(c, times)[j].time + c.windowSeconds * 1000
  {
    var w: nat, m: nat := c.windowSeconds * 1000, c.maxAttempts;
    if m == 1 {
      times, j := [0] + [], 0;
      OpensWindow(c, NO_KEYS, 0);
      LogGrows(c, NO_KEYS, 0, Counted(c, 1, w, 0), Admission(0, 1, 0), []);
    } else {
      times, j := TwoWindows(c, w - 1, m - 2, w), 1;
      TwoWindowsInOrder(c, w - 1, m - 2, w);
      TwoWindowsAdmitted(c, w - 1, m - 2, w);
      hide Log;
      assert m > 2 ==> Group(c, 1, w, w - 1, m - 2)[0].time == w - 1;
    }
  }
}
