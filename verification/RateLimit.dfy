/** The two fixed-window rate limit backends, and what they promise over whole runs. */
module RateLimit {
  import opened Wrappers
  import R = RedisCounters

  datatype CheckResult = CheckResult(
    allowed: bool, remaining: int, limit: int, resetAt: int, retryAfter: Option<int>)

  function Max(a: int, b: int): int { if a < b then b else a }

  function Min(a: int, b: int): int { if a < b then a else b }

  // ---------- In-memory backend ----------

  datatype Window = Window(count: int, resetAt: int)

  type Windows = map<string, Window>

  predicate Open(w: Windows, key: string, now: int) {
    key in w && now < w[key].resetAt
  }

  function MemoryCheck(w: Windows, key: string, limit: int, window: int, now: int): (Windows, CheckResult) {
    if !Open(w, key, now) then
      (w[key := Window(1, now + window)], CheckResult(true, limit - 1, limit, now + window, None))
    else if limit <= w[key].count then
      (w, CheckResult(false, 0, limit, w[key].resetAt, Some(Max(1, w[key].resetAt - now))))
    else
      (w[key := w[key].(count := w[key].count + 1)],
       CheckResult(true, limit - w[key].count - 1, limit, w[key].resetAt, None))
  }

  function MemoryRemaining(w: Windows, key: string, limit: int, now: int): int {
    if Open(w, key, now) then Max(0, limit - w[key].count) else limit
  }

  class MemoryBackend {
    var store: Windows

    constructor ()
      ensures store == map[]
    {
      store := map[];
    }

    method Check(key: string, limit: int, window: int, now: int) returns (r: CheckResult)
      modifies this
      ensures (store, r) == MemoryCheck(old(store), key, limit, window, now)
      ensures key !in old(store) || old(store)[key].resetAt <= now ==> r.allowed && r.resetAt == now + window
      ensures WellSaid(r, limit, now)
    {
      if key in store {
        var Window(count, resetAt) := store[key];
        if resetAt <= now {
          resetAt := now + window;
          store := store[key := Window(1, resetAt)];
          return CheckResult(true, limit - 1, limit, resetAt, None);
        }
        if limit <= count {
          var retryAfter := resetAt - now;
          return CheckResult(false, 0, limit, resetAt, Some(Max(1, retryAfter)));
        }
        store := store[key := Window(count + 1, resetAt)];
        return CheckResult(true, limit - count - 1, limit, resetAt, None);
      }
      var resetAt := now + window;
      store := store[key := Window(1, resetAt)];
      r := CheckResult(true, limit - 1, limit, resetAt, None);
    }

    method Reset(key: string)
      modifies this
      ensures store == old(store) - {key}
    {
      if key in store {
        store := store - {key};
      }
    }

    method GetRemaining(key: string, limit: int, now: int) returns (remaining: int)
      ensures remaining == MemoryRemaining(store, key, limit, now)
    {
      if key !in store {
        return limit;
      }
      var Window(count, resetAt) := store[key];
      if resetAt <= now {
        return limit;
      }
      remaining := Max(0, limit - count);
    }
  }

  // ---------- Redis backend, no Redis errors ----------

  function RedisCheck(s: R.Counters, key: string, limit: int, window: int, now: int): (R.Counters, CheckResult) {
    var s' := R.RateLimitIncr(s, key, window, now);
    var count := R.Count(R.Incr(s, key, now), key, now);
    var ttl := if R.Ttl(s', key, now) < 0 then window else R.Ttl(s', key, now);
    if limit < count then
      (s', CheckResult(false, 0, limit, now + ttl, Some(Max(1, ttl))))
    else
      (s', CheckResult(true, limit - count, limit, now + ttl, None))
  }

  function RedisRemaining(s: R.Counters, key: string, limit: int, now: int): int {
    if R.Live(s, key, now) then Max(0, limit - s[key].count) else limit
  }

  class RedisBackend {
    const server: R.CounterServer

    constructor (server: R.CounterServer)
      ensures this.server == server
    {
      this.server := server;
    }

    method Check(key: string, limit: int, window: int, now: int) returns (r: CheckResult)
      modifies server
      ensures (server.counters, r) == RedisCheck(old(server.counters), key, limit, window, now)
      ensures 1 <= window ==> WellSaid(r, limit, now)
    {
      var count := server.IncrCommand(key, now);
      if count == 1 {
        server.ExpireCommand(key, window, now);
      }
      var ttl := server.TtlCommand(key, now);
      if ttl < 0 {
        ttl := window;
      }
      var resetAt := now + ttl;
      if limit < count {
        return CheckResult(false, 0, limit, resetAt, Some(Max(1, ttl)));
      }
      r := CheckResult(true, limit - count, limit, resetAt, None);
    }

    method Reset(key: string)
      modifies server
      ensures server.counters == old(server.counters) - {key}
    {
      server.DeleteCommand(key);
    }

    method GetRemaining(key: string, limit: int, now: int) returns (remaining: int)
      ensures remaining == RedisRemaining(server.counters, key, limit, now)
    {
      var value := server.GetCommand(key, now);
      remaining := match value case None => limit case Some(count) => Max(0, limit - count);
    }
  }

  // ---------- Runs of calls ----------

  // A call at a time; `window` only matters to `Check`.
  datatype Call =
    | Check(key: string, now: int, window: int)
    | Reset(key: string, now: int)
    | GetRemaining(key: string, now: int)

  datatype Answer = Checked(result: CheckResult) | Done | Remaining(n: int)

  type Limits = string -> int

  ghost predicate InOrder(calls: seq<Call>) {
    forall i, j :: 0 <= i < j < |calls| ==> calls[i].now <= calls[j].now
  }

  ghost function MemoryStep(w: Windows, limits: Limits, c: Call): (Windows, Answer) {
    match c
    case Check(key, now, window) =>
      var (w', r) := MemoryCheck(w, key, limits(key), window, now);
      (w', Checked(r))
    case Reset(key, _) => (w - {key}, Done)
    case GetRemaining(key, now) => (w, Remaining(MemoryRemaining(w, key, limits(key), now)))
  }

  ghost function MemoryRun(w: Windows, limits: Limits, calls: seq<Call>): (answers: seq<Answer>)
    ensures |answers| == |calls|
    decreases |calls|
  {
    if calls == [] then []
    else
      var (w', answer) := MemoryStep(w, limits, calls[0]);
      [answer] + MemoryRun(w', limits, calls[1..])
  }

  ghost function RedisStep(s: R.Counters, limits: Limits, c: Call): (R.Counters, Answer) {
    match c
    case Check(key, now, window) =>
      var (s', r) := RedisCheck(s, key, limits(key), window, now);
      (s', Checked(r))
    case Reset(key, _) => (s - {key}, Done)
    case GetRemaining(key, now) => (s, Remaining(RedisRemaining(s, key, limits(key), now)))
  }

  ghost function RedisRun(s: R.Counters, limits: Limits, calls: seq<Call>): (answers: seq<Answer>)
    ensures |answers| == |calls|
    decreases |calls|
  {
    if calls == [] then []
    else
      var (s', answer) := RedisStep(s, limits, calls[0]);
      [answer] + RedisRun(s', limits, calls[1..])
  }

  // ---------- The backends agree ----------

  /** The simulation: at time `now` the same keys are alive with the same deadline, and the
      memory count is the Redis count cut off at the limit. */
  ghost predicate Linked(w: Windows, s: R.Counters, limits: Limits, now: int) {
    forall key ::
      && (Open(w, key, now) <==> R.Live(s, key, now))
      && (Open(w, key, now) ==>
            && s[key].deadline == Some(w[key].resetAt)
            && 1 <= s[key].count
            && w[key].count == Min(s[key].count, limits(key)))
  }

  lemma StepsAgree(w: Windows, s: R.Counters, limits: Limits, c: Call)
    requires Linked(w, s, limits, c.now)
    requires forall key :: 1 <= limits(key)
    ensures var (w', a) := MemoryStep(w, limits, c);
            var (s', b) := RedisStep(s, limits, c);
            a == b && Linked(w', s', limits, c.now)
  {
    var (w', a) := MemoryStep(w, limits, c);
    var (s', b) := RedisStep(s, limits, c);
    forall key
      ensures Open(w', key, c.now) <==> R.Live(s', key, c.now)
      ensures Open(w', key, c.now) ==>
                && s'[key].deadline == Some(w'[key].resetAt)
                && 1 <= s'[key].count
                && w'[key].count == Min(s'[key].count, limits(key))
    {
      assert Open(w, key, c.now) <==> R.Live(s, key, c.now);
    }
    assert Open(w, c.key, c.now) <==> R.Live(s, c.key, c.now);
  }

  lemma {:induction false} RunsAgree(w: Windows, s: R.Counters, limits: Limits, calls: seq<Call>, now: int)
    requires Linked(w, s, limits, now)
    requires InOrder(calls) && (calls != [] ==> now <= calls[0].now)
    requires forall key :: 1 <= limits(key)
    ensures MemoryRun(w, limits, calls) == RedisRun(s, limits, calls)
    decreases |calls|
  {
    if calls != [] {
      StepsAgree(w, s, limits, calls[0]);
      RunsAgree(MemoryStep(w, limits, calls[0]).0, RedisStep(s, limits, calls[0]).0,
                limits, calls[1..], calls[0].now);
    }
  }

  /** A limit below 1 tells the backends apart on the very first call: the memory backend
      admits it, Redis denies it. */
  lemma FirstCallTellsApart(limits: Limits, key: string)
    requires limits(key) < 1
    ensures InOrder([Check(key, 0, 60)])
    ensures MemoryRun(map[], limits, [Check(key, 0, 60)]) != RedisRun(map[], limits, [Check(key, 0, 60)])
  {
    var calls := [Check(key, 0, 60)];
    assert MemoryRun(map[], limits, calls)[0].result.allowed;
    assert !RedisRun(map[], limits, calls)[0].result.allowed;
  }

  /** From empty stores the two backends give the same answers to every run of checks, resets
      and remaining-queries, with any windows, exactly when every limit is at least 1. */
  lemma BackendsAgreeIff(limits: Limits)
    ensures (forall calls: seq<Call> :: InOrder(calls) ==>
               MemoryRun(map[], limits, calls) == RedisRun(map[], limits, calls))
            <==> (forall key :: 1 <= limits(key))
  {
    if forall key :: 1 <= limits(key) {
      forall calls: seq<Call> | InOrder(calls)
        ensures MemoryRun(map[], limits, calls) == RedisRun(map[], limits, calls)
      {
        RunsAgree(map[], map[], limits, calls, if calls == [] then 0 else calls[0].now);
      }
    } else {
      var key :| limits(key) < 1;
      FirstCallTellsApart(limits, key);
    }
  }

  /** One limit per key matters: the memory backend stops counting at the limit and Redis does
      not, so raising a key's limit inside a window separates them. */
  lemma RaisedLimitTellsApart(key: string)
    ensures var w := MemoryCheck(MemoryCheck(map[], key, 1, 60, 0).0, key, 1, 60, 1).0;
            var s := RedisCheck(RedisCheck(map[], key, 1, 60, 0).0, key, 1, 60, 1).0;
            MemoryCheck(w, key, 2, 60, 2).1.allowed && !RedisCheck(s, key, 2, 60, 2).1.allowed
  {
  }

  // ---------- How many checks are allowed ----------

  // Allowed checks of `key` in the half-open interval [from, to).
  ghost function AllowedIn(calls: seq<Call>, answers: seq<Answer>, key: string, from: int, to: int): nat
    requires |calls| == |answers|
    decreases |calls|
  {
    if calls == [] then 0
    else
      (if calls[0].Check? && calls[0].key == key && from <= calls[0].now < to
          && answers[0].Checked? && answers[0].result.allowed then 1 else 0)
      + AllowedIn(calls[1..], answers[1..], key, from, to)
  }

  // Every call on `key` is a check or a query, and its checks all use one window length.
  ghost predicate Steady(calls: seq<Call>, key: string, window: int) {
    forall c :: c in calls && c.key == key ==> !c.Reset? && (c.Check? ==> c.window == window)
  }

  // n divided by d, rounded up.
  ghost function CeilDiv(n: int, d: int): nat
    requires 0 < d
    decreases if n <= 0 then 0 else n
  {
    if n <= 0 then 0 else 1 + CeilDiv(n - d, d)
  }

  lemma {:induction false} CeilDivIsCeiling(n: int, d: int)
    requires 0 < d && 0 < n
    ensures n <= CeilDiv(n, d) * d < n + d
    decreases n
  {
    if d < n {
      CeilDivIsCeiling(n - d, d);
      assert CeilDiv(n, d) * d == d + CeilDiv(n - d, d) * d;
    } else {
      assert CeilDiv(n, d) == 1;
    }
  }

  lemma {:induction false} CeilDivMonotone(m: int, n: int, d: int)
    requires 0 < d && m <= n
    ensures CeilDiv(m, d) <= CeilDiv(n, d)
    decreases if m <= 0 then 0 else m
  {
    if 0 < m {
      CeilDivMonotone(m - d, n - d, d);
    }
  }

  // What a window in this state can still allow before `to`.
  ghost function Allowance(w: Windows, key: string, limit: int, window: int, now: int, to: int): int
    requires 0 < window
  {
    if Open(w, key, now) then Max(0, limit - w[key].count) + limit * CeilDiv(to - w[key].resetAt, window)
    else limit * CeilDiv(to - now, window)
  }

  lemma AllowanceLater(w: Windows, key: string, limit: int, window: int, now: int, later: int, to: int)
    requires 0 < window && 1 <= limit && now <= later
    ensures Allowance(w, key, limit, window, later, to) <= Allowance(w, key, limit, window, now, to)
  {
    if !Open(w, key, later) {
      CeilDivMonotone(to - later, if Open(w, key, now) then to - w[key].resetAt else to - now, window);
    }
  }

  /** One step spends from the allowance at least what it allows. */
  lemma StepSpendsAllowance(w: Windows, limits: Limits, c: Call, key: string, window: int, to: int)
    requires 0 < window && 1 <= limits(key) && c.now < to
    requires Steady([c], key, window)
    ensures var (w', a) := MemoryStep(w, limits, c);
            (if c.Check? && c.key == key && a.result.allowed then 1 else 0)
            + Allowance(w', key, limits(key), window, c.now, to)
            <= Allowance(w, key, limits(key), window, c.now, to)
  {
    var (w', a) := MemoryStep(w, limits, c);
    assert c in [c];
    if c.key == key && c.Check? && !Open(w, key, c.now) {
      assert to - w'[key].resetAt == to - c.now - window;
      MulStep(limits(key), CeilDiv(to - c.now - window, window));
    }
  }

  lemma MulStep(a: int, b: int)
    ensures a * (1 + b) == a + a * b
  {
  }

  lemma {:induction false} AllowedWithinAllowance(
    w: Windows, limits: Limits, calls: seq<Call>, key: string, window: int, now: int, from: int, to: int)
    requires 0 < window && 1 <= limits(key)
    requires InOrder(calls) && (calls != [] ==> now <= calls[0].now)
    requires Steady(calls, key, window)
    ensures AllowedIn(calls, MemoryRun(w, limits, calls), key, from, to)
            <= Max(0, Allowance(w, key, limits(key), window, now, to))
    decreases |calls|
  {
    if calls != [] {
      var c := calls[0];
      var (w', a) := MemoryStep(w, limits, c);
      var answers := MemoryRun(w, limits, calls);
      assert answers[1..] == MemoryRun(w', limits, calls[1..]);
      if c.now < to {
        assert c in calls;
        StepSpendsAllowance(w, limits, c, key, window, to);
        AllowanceLater(w, key, limits(key), window, now, c.now, to);
        AllowedWithinAllowance(w', limits, calls[1..], key, window, c.now, from, to);
      } else {
        NoneAfter(calls, answers, key, from, to);
      }
    }
  }

  lemma {:induction false} NoneAfter(calls: seq<Call>, answers: seq<Answer>, key: string, from: int, to: int)
    requires |calls| == |answers| && InOrder(calls) && (calls != [] ==> to <= calls[0].now)
    ensures AllowedIn(calls, answers, key, from, to) == 0
    decreases |calls|
  {
    if 1 < |calls| {
      assert calls[0].now <= calls[1].now;
      NoneAfter(calls[1..], answers[1..], key, from, to);
    }
  }

  ghost predicate Counted(w: Windows) {
    forall key :: key in w ==> 1 <= w[key].count
  }

  lemma {:induction false} IntervalBoundFrom(
    w: Windows, limits: Limits, calls: seq<Call>, key: string, window: int, from: int, length: int)
    requires Counted(w) && InOrder(calls) && Steady(calls, key, window)
    requires 0 < window && 0 < length && 1 <= limits(key)
    ensures AllowedIn(calls, MemoryRun(w, limits, calls), key, from, from + length)
            <= limits(key) * (1 + CeilDiv(length, window)) - 1
    decreases |calls|
  {
    MulStep(limits(key), CeilDiv(length, window));
    if calls == [] {
    } else if calls[0].now < from {
      var w' := MemoryStep(w, limits, calls[0]).0;
      assert MemoryRun(w, limits, calls)[1..] == MemoryRun(w', limits, calls[1..]);
      IntervalBoundFrom(w', limits, calls[1..], key, window, from, length);
    } else {
      AllowedWithinAllowance(w, limits, calls, key, window, from, from, from + length);
      if Open(w, key, from) {
        CeilDivMonotone(from + length - w[key].resetAt, length, window);
        MulMonotone(limits(key), CeilDiv(from + length - w[key].resetAt, window), CeilDiv(length, window));
      }
    }
  }

  lemma MulMonotone(a: int, b: int, c: int)
    requires 0 <= a && b <= c
    ensures a * b <= a * c
  {
  }

  /** With a clock that never goes back, one limit of at least 1, one window length and no
      reset of the key, every interval of length T contains fewer than limit * (ceil(T / W) + 1)
      allowed checks, whatever happens on other keys. */
  lemma MemoryIntervalBound(limits: Limits, calls: seq<Call>, key: string, window: int, from: int, length: int)
    requires InOrder(calls) && Steady(calls, key, window)
    requires 0 < window && 0 < length && 1 <= limits(key)
    ensures AllowedIn(calls, MemoryRun(map[], limits, calls), key, from, from + length)
            < limits(key) * (1 + CeilDiv(length, window))
  {
    IntervalBoundFrom(map[], limits, calls, key, window, from, length);
  }

  // The counters do not depend on the limits, nor the answers for a key on those of other keys.
  lemma {:induction false} OtherLimitsDoNotMatter(
    s: R.Counters, limits: Limits, limits': Limits, calls: seq<Call>, key: string, from: int, to: int)
    requires limits(key) == limits'(key)
    ensures AllowedIn(calls, RedisRun(s, limits, calls), key, from, to)
            == AllowedIn(calls, RedisRun(s, limits', calls), key, from, to)
    decreases |calls|
  {
    if calls != [] {
      var t := RedisStep(s, limits, calls[0]).0;
      assert t == RedisStep(s, limits', calls[0]).0;
      assert RedisRun(s, limits, calls)[1..] == RedisRun(t, limits, calls[1..]);
      assert RedisRun(s, limits', calls)[1..] == RedisRun(t, limits', calls[1..]);
      OtherLimitsDoNotMatter(t, limits, limits', calls[1..], key, from, to);
    }
  }

  /** The same bound for Redis, carried over by the agreement of the two backends. */
  lemma RedisIntervalBound(limits: Limits, calls: seq<Call>, key: string, window: int, from: int, length: int)
    requires InOrder(calls) && Steady(calls, key, window)
    requires 0 < window && 0 < length && 1 <= limits(key)
    ensures AllowedIn(calls, RedisRun(map[], limits, calls), key, from, from + length)
            < limits(key) * (1 + CeilDiv(length, window))
  {
    var others := k => if k == key then limits(key) else 1;
    OtherLimitsDoNotMatter(map[], limits, others, calls, key, from, from + length);
    BackendsAgreeIff(others);
    MemoryIntervalBound(others, calls, key, window, from, length);
  }

  // ---------- One stored window ----------

  ghost function MemoryAfter(w: Windows, limits: Limits, calls: seq<Call>): Windows
    decreases |calls|
  {
    if calls == [] then w else MemoryAfter(MemoryStep(w, limits, calls[0]).0, limits, calls[1..])
  }

  ghost function RedisAfter(s: R.Counters, limits: Limits, calls: seq<Call>): R.Counters
    decreases |calls|
  {
    if calls == [] then s else RedisAfter(RedisStep(s, limits, calls[0]).0, limits, calls[1..])
  }

  ghost function ChecksOf(calls: seq<Call>, key: string): nat {
    if calls == [] then 0
    else (if calls[0].Check? && calls[0].key == key then 1 else 0) + ChecksOf(calls[1..], key)
  }

  ghost predicate Within(calls: seq<Call>, from: int, to: int) {
    forall c :: c in calls ==> from <= c.now < to
  }

  ghost predicate NoReset(calls: seq<Call>, key: string) {
    forall c :: c in calls ==> !(c.Reset? && c.key == key)
  }

  lemma {:induction false} OpenWindowAllows(w: Windows, limits: Limits, calls: seq<Call>, key: string, from: int)
    requires key in w && Within(calls, from, w[key].resetAt) && NoReset(calls, key)
    ensures AllowedIn(calls, MemoryRun(w, limits, calls), key, from, w[key].resetAt)
            == Min(ChecksOf(calls, key), Max(0, limits(key) - w[key].count))
    ensures var w' := MemoryAfter(w, limits, calls);
            key in w' && w'[key].resetAt == w[key].resetAt
    decreases |calls|
  {
    if calls != [] {
      assert calls[0] in calls;
      var w' := MemoryStep(w, limits, calls[0]).0;
      assert MemoryRun(w, limits, calls)[1..] == MemoryRun(w', limits, calls[1..]);
      OpenWindowAllows(w', limits, calls[1..], key, from);
    }
  }

  lemma {:induction false} OpenCounterAllows(s: R.Counters, limits: Limits, calls: seq<Call>, key: string, from: int)
    requires key in s && s[key].deadline.Some? && 1 <= s[key].count
    requires Within(calls, from, s[key].deadline.value) && NoReset(calls, key)
    ensures AllowedIn(calls, RedisRun(s, limits, calls), key, from, s[key].deadline.value)
            == Min(ChecksOf(calls, key), Max(0, limits(key) - s[key].count))
    ensures var s' := RedisAfter(s, limits, calls);
            key in s' && s'[key].deadline == s[key].deadline
    decreases |calls|
  {
    if calls != [] {
      assert calls[0] in calls;
      var s' := RedisStep(s, limits, calls[0]).0;
      assert RedisRun(s, limits, calls)[1..] == RedisRun(s', limits, calls[1..]);
      OpenCounterAllows(s', limits, calls[1..], key, from);
    }
  }

  /** A window opened by a check allows exactly min(n, limit) of the n checks made in it. */
  lemma StoredWindowAllowsExactly(
    w: Windows, limits: Limits, calls: seq<Call>, key: string, window: int, now: int)
    requires !Open(w, key, now) && 1 <= limits(key) && 0 < window
    requires calls != [] && calls[0] == Check(key, now, window)
    requires Within(calls, now, now + window) && Steady(calls, key, window)
    ensures AllowedIn(calls, MemoryRun(w, limits, calls), key, now, now + window)
            == Min(ChecksOf(calls, key), limits(key))
  {
    var w' := MemoryStep(w, limits, calls[0]).0;
    assert MemoryRun(w, limits, calls)[1..] == MemoryRun(w', limits, calls[1..]);
    OpenWindowAllows(w', limits, calls[1..], key, now);
  }

  // ---------- What an answer promises ----------

  /** An answer at `now`: a denial says when to come back, in whole seconds, and has no checks left. */
  predicate WellSaid(r: CheckResult, limit: int, now: int) {
    && r.limit == limit
    && (r.allowed <==> r.retryAfter.None?)
    && (!r.allowed ==> r.remaining == 0 && 1 <= r.retryAfter.value && r.resetAt == now + r.retryAfter.value)
  }

  // How many of n further checks are allowed when this many are left.
  function Left(n: nat, remaining: int): nat {
    if remaining < 0 then 0 else if n < remaining then n else remaining
  }

  /** After a check in any state, whatever calls follow before its `resetAt` and whatever windows they ask
      for: exactly `remaining` of the further checks of the key are allowed, so after a denial none for
      `retryAfter` seconds; and from `resetAt` on a check is allowed again. */
  lemma AnswerIsExact(
    w: Windows, limits: Limits, key: string, window: int, now: int, later: seq<Call>, again: int, window': int)
    requires var r := MemoryCheck(w, key, limits(key), window, now).1;
             Within(later, now, r.resetAt) && r.resetAt <= again
    requires NoReset(later, key)
    ensures var (w', r) := MemoryCheck(w, key, limits(key), window, now);
            && WellSaid(r, limits(key), now)
            && AllowedIn(later, MemoryRun(w', limits, later), key, now, r.resetAt)
               == Left(ChecksOf(later, key), r.remaining)
            && (now < r.resetAt ==>
                  MemoryRemaining(w', key, limits(key), now) == if r.remaining < 0 then 0 else r.remaining)
            && MemoryCheck(MemoryAfter(w', limits, later), key, limits(key), window', again).1.allowed
  {
    var w' := MemoryCheck(w, key, limits(key), window, now).0;
    OpenWindowAllows(w', limits, later, key, now);
  }

  /** The same for Redis where the counter, if there is one, has a deadline and the limit is at least 1. */
  lemma RedisAnswerIsExact(
    s: R.Counters, limits: Limits, key: string, window: int, now: int, later: seq<Call>, again: int, window': int)
    requires R.Live(s, key, now) ==> s[key].deadline.Some? && 1 <= s[key].count
    requires 1 <= limits(key) && 1 <= window && 1 <= window'
    requires var r := RedisCheck(s, key, limits(key), window, now).1;
             Within(later, now, r.resetAt) && r.resetAt <= again
    requires NoReset(later, key)
    ensures var (s', r) := RedisCheck(s, key, limits(key), window, now);
            && WellSaid(r, limits(key), now)
            && AllowedIn(later, RedisRun(s', limits, later), key, now, r.resetAt)
               == Left(ChecksOf(later, key), r.remaining)
            && RedisRemaining(s', key, limits(key), now) == r.remaining
            && RedisCheck(RedisAfter(s', limits, later), key, limits(key), window', again).1.allowed
  {
    var s' := RedisCheck(s, key, limits(key), window, now).0;
    OpenCounterAllows(s', limits, later, key, now);
  }

  // ---------- The bound is attained ----------

  lemma {:induction false} RunSplits(
    w: Windows, limits: Limits, a: seq<Call>, b: seq<Call>, key: string, from: int, to: int)
    ensures AllowedIn(a + b, MemoryRun(w, limits, a + b), key, from, to)
            == AllowedIn(a, MemoryRun(w, limits, a), key, from, to)
               + AllowedIn(b, MemoryRun(MemoryAfter(w, limits, a), limits, b), key, from, to)
    decreases |a|
  {
    if a == [] {
      assert a + b == b;
    } else {
      var w' := MemoryStep(w, limits, a[0]).0;
      assert (a + b)[1..] == a[1..] + b;
      assert MemoryRun(w, limits, a + b)[1..] == MemoryRun(w', limits, a[1..] + b);
      assert MemoryRun(w, limits, a)[1..] == MemoryRun(w', limits, a[1..]);
      RunSplits(w', limits, a[1..], b, key, from, to);
    }
  }

  ghost function Repeat(n: nat, c: Call): (r: seq<Call>)
    ensures |r| == n && forall x :: x in r ==> x == c
  {
    if n == 0 then [] else [c] + Repeat(n - 1, c)
  }

  lemma {:induction false} RepeatCounts(n: nat, key: string, now: int, window: int)
    ensures ChecksOf(Repeat(n, Check(key, now, window)), key) == n
  {
    if n != 0 {
      RepeatCounts(n - 1, key, now, window);
      assert Repeat(n, Check(key, now, window))[1..] == Repeat(n - 1, Check(key, now, window));
    }
  }

  lemma {:induction false} RepeatKeepsWindow(w: Windows, limits: Limits, n: nat, key: string, now: int, window: int)
    requires Open(w, key, now)
    ensures var w' := MemoryAfter(w, limits, Repeat(n, Check(key, now, window)));
            key in w' && w'[key].resetAt == w[key].resetAt
  {
    if n != 0 {
      var c := Check(key, now, window);
      assert Repeat(n, c)[1..] == Repeat(n - 1, c);
      RepeatKeepsWindow(MemoryStep(w, limits, c).0, limits, n - 1, key, now, window);
    }
  }

  ghost function Burst(limit: nat, key: string, window: int): seq<Call>
    requires 1 <= limit
  {
    [Check(key, 0, window)] + Repeat(limit - 1, Check(key, window - 1, window)) +
    Repeat(limit, Check(key, window, window))
  }

  lemma BurstInOrder(limit: nat, key: string, window: int)
    requires 1 <= limit && 2 <= window
    ensures InOrder(Burst(limit, key, window)) && Steady(Burst(limit, key, window), key, window)
  {
    var early := Repeat(limit - 1, Check(key, window - 1, window));
    var late := Repeat(limit, Check(key, window, window));
    var calls := Burst(limit, key, window);
    forall i | 0 <= i < |calls|
      ensures calls[i] == Check(key, if i == 0 then 0 else if i < limit then window - 1 else window, window)
    {
      assert 0 < i < limit ==> calls[i] == early[i - 1] && early[i - 1] in early;
      assert limit <= i ==> calls[i] == late[i - limit] && late[i - limit] in late;
    }
  }

  // The rest of the first window, at its last second.
  lemma EarlyPart(w: Windows, limits: Limits, key: string, window: int)
    requires 1 <= limits(key) && 2 <= window
    requires key in w && w[key] == Window(1, window)
    ensures var early := Repeat(limits(key) - 1, Check(key, window - 1, window));
            var w' := MemoryAfter(w, limits, early);
            && AllowedIn(early, MemoryRun(w, limits, early), key, window - 1, window + 1) == limits(key) - 1
            && key in w' && w'[key].resetAt == window
  {
    var limit := limits(key);
    var early := Repeat(limit - 1, Check(key, window - 1, window));
    RepeatKeepsWindow(w, limits, limit - 1, key, window - 1, window);
    OpenWindowAllows(w, limits, early, key, window - 1);
    RepeatCounts(limit - 1, key, window - 1, window);
    SameInside(early, MemoryRun(w, limits, early), key, window - 1, window, window - 1, window + 1);
  }

  // A whole new window, at its first second.
  lemma LatePart(w: Windows, limits: Limits, key: string, window: int)
    requires 1 <= limits(key) && 2 <= window
    requires key in w && w[key].resetAt == window
    ensures var late := Repeat(limits(key), Check(key, window, window));
            AllowedIn(late, MemoryRun(w, limits, late), key, window - 1, window + 1) == limits(key)
  {
    var limit := limits(key);
    var late := Repeat(limit, Check(key, window, window));
    StoredWindowAllowsExactly(w, limits, late, key, window, window);
    RepeatCounts(limit, key, window, window);
    SameInside(late, MemoryRun(w, limits, late), key, window, window + window, window - 1, window + 1);
  }

  lemma ThreeParts(
    w: Windows, limits: Limits, a: seq<Call>, b: seq<Call>, c: seq<Call>, key: string, from: int, to: int)
    ensures var w1 := MemoryAfter(w, limits, a);
            AllowedIn(a + b + c, MemoryRun(w, limits, a + b + c), key, from, to)
            == AllowedIn(a, MemoryRun(w, limits, a), key, from, to)
               + AllowedIn(b, MemoryRun(w1, limits, b), key, from, to)
               + AllowedIn(c, MemoryRun(MemoryAfter(w1, limits, b), limits, c), key, from, to)
  {
    AfterSplits(w, limits, a, b);
    RunSplits(w, limits, a + b, c, key, from, to);
    RunSplits(w, limits, a, b, key, from, to);
  }

  // The call that opens the first window, before the interval counted.
  lemma FirstPart(limits: Limits, key: string, window: int)
    requires 1 <= limits(key) && 2 <= window
    ensures var first := [Check(key, 0, window)];
            var w1 := MemoryAfter(map[], limits, first);
            && key in w1 && w1[key] == Window(1, window)
            && AllowedIn(first, MemoryRun(map[], limits, first), key, window - 1, window + 1) == 0
  {
    var first := [Check(key, 0, window)];
    var w1 := MemoryStep(map[], limits, first[0]).0;
    assert first[1..] == [];
    assert MemoryAfter(map[], limits, first) == MemoryAfter(w1, limits, first[1..]) == w1;
  }

  /** The bound is the best possible: for every limit and every window of at least 2 there is
      a run that packs 2 * limit - 1 allowed checks into an interval of length 2. So a sliding
      window of the same length is not limited to `limit`, only each stored window is. */
  lemma BoundIsAttained(limits: Limits, key: string, window: int)
    requires 1 <= limits(key) && 2 <= window
    ensures var calls := Burst(limits(key), key, window);
            && InOrder(calls) && Steady(calls, key, window)
            && AllowedIn(calls, MemoryRun(map[], limits, calls), key, window - 1, window + 1)
               == limits(key) * (1 + CeilDiv(2, window)) - 1
  {
    var limit := limits(key);
    BurstInOrder(limit, key, window);
    BurstCounts(limits, key, window);
    assert CeilDiv(2, window) == 1;
  }

  lemma BurstCounts(limits: Limits, key: string, window: int)
    requires 1 <= limits(key) && 2 <= window
    ensures var calls := Burst(limits(key), key, window);
            AllowedIn(calls, MemoryRun(map[], limits, calls), key, window - 1, window + 1) == 2 * limits(key) - 1
  {
    var limit := limits(key);
    var first := [Check(key, 0, window)];
    var early := Repeat(limit - 1, Check(key, window - 1, window));
    var late := Repeat(limit, Check(key, window, window));
    var w1 := MemoryAfter(map[], limits, first);
    FirstPart(limits, key, window);
    EarlyPart(w1, limits, key, window);
    LatePart(MemoryAfter(w1, limits, early), limits, key, window);
    ThreeParts(map[], limits, first, early, late, key, window - 1, window + 1);
  }

  lemma {:induction false} AfterSplits(w: Windows, limits: Limits, a: seq<Call>, b: seq<Call>)
    ensures MemoryAfter(w, limits, a + b) == MemoryAfter(MemoryAfter(w, limits, a), limits, b)
    decreases |a|
  {
    if a == [] {
      assert a + b == b;
    } else {
      assert (a + b)[1..] == a[1..] + b;
      AfterSplits(MemoryStep(w, limits, a[0]).0, limits, a[1..], b);
    }
  }

  // The ends of the interval do not matter to calls that all lie inside it.
  lemma {:induction false} SameInside(
    calls: seq<Call>, answers: seq<Answer>, key: string, from: int, to: int, from': int, to': int)
    requires |calls| == |answers| && Within(calls, from, to) && Within(calls, from', to')
    ensures AllowedIn(calls, answers, key, from, to) == AllowedIn(calls, answers, key, from', to')
    decreases |calls|
  {
    if calls != [] {
      assert calls[0] in calls;
      SameInside(calls[1..], answers[1..], key, from, to, from', to');
    }
  }
}
