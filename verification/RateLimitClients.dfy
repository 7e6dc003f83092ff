/** Any number of clients inside `RedisBackend.check` on one key, interleaved command by command:
    INCR, then EXPIRE if the count was 1, then TTL and the verdict. Resets, lapses and crashes
    happen in between. */
module RateLimitClients {
  import R = RedisCounters
  import L = RateLimit

  // Where a client is inside `check`: which lifetime of the key it counted in, and its count.
  datatype Client =
    | Idle
    | Counted(life: nat, count: int)
    | Armed(life: nat, count: int)

  /** `issued[l]` is how many counts lifetime `l` of the key has handed out, `verdicts` what the
      check that got a count of a lifetime answered. The last lifetime is the current one while
      the key is live; `creator` is the client whose INCR created it. */
  datatype State = State(
    counters: R.Counters,
    now: int,
    clients: seq<Client>,
    issued: seq<nat>,
    verdicts: map<(nat, int), bool>,
    creator: nat)

  datatype Config = Config(key: string, limit: int, window: int)

  datatype Event = Incr(i: nat) | Arm(i: nat) | Finish(i: nat) | Reset | Tick(d: nat) | Crash(i: nat)

  function Init(n: nat): State {
    State(map[], 0, seq(n, i => Idle), [], map[], 0)
  }

  predicate KeyLive(c: Config, s: State) {
    R.Live(s.counters, c.key, s.now)
  }

  // A disabled event changes nothing.
  function Next(c: Config, s: State, e: Event): State {
    match e
    case Incr(i) => if i < |s.clients| && s.clients[i].Idle? then DoIncr(c, s, i) else s
    case Arm(i) => if i < |s.clients| && s.clients[i].Counted? then DoArm(c, s, i) else s
    case Finish(i) => if i < |s.clients| && s.clients[i].Armed? then DoFinish(c, s, i) else s
    case Reset => s.(counters := s.counters - {c.key})
    case Tick(d) => s.(now := s.now + d)
    case Crash(i) => if i < |s.clients| then s.(clients := s.clients[i := Idle]) else s
  }

  function DoIncr(c: Config, s: State, i: nat): State
    requires i < |s.clients|
  {
    var counters := R.Incr(s.counters, c.key, s.now);
    var count := R.Count(counters, c.key, s.now);
    if KeyLive(c, s) && s.issued != [] then
      var l := |s.issued| - 1;
      s.(counters := counters, clients := s.clients[i := Counted(l, count)], issued := s.issued[l := s.issued[l] + 1])
    else
      s.(counters := counters, clients := s.clients[i := Counted(|s.issued|, count)],
         issued := s.issued + [1], creator := i)
  }

  function DoArm(c: Config, s: State, i: nat): State
    requires i < |s.clients| && s.clients[i].Counted?
  {
    var Counted(life, count) := s.clients[i];
    s.(counters := if count == 1 then R.Expire(s.counters, c.key, c.window, s.now) else s.counters,
       clients := s.clients[i := Armed(life, count)])
  }

  function DoFinish(c: Config, s: State, i: nat): State
    requires i < |s.clients| && s.clients[i].Armed?
  {
    var Armed(life, count) := s.clients[i];
    s.(clients := s.clients[i := Idle], verdicts := s.verdicts[(life, count) := !(c.limit < count)])
  }

  function Run(c: Config, s: State, events: seq<Event>): State
    decreases |events|
  {
    if events == [] then s else Run(c, Next(c, s, events[0]), events[1..])
  }

  /** A client alone does in its three steps what `RedisBackend.check` does in one. */
  lemma AloneIsCheck(c: Config, s: State, i: nat)
    requires i < |s.clients| && s.clients[i].Idle?
    ensures var s' := Run(c, s, [Incr(i), Arm(i), Finish(i)]);
            var (counters, result) := L.RedisCheck(s.counters, c.key, c.limit, c.window, s.now);
            var count := R.Count(R.Incr(s.counters, c.key, s.now), c.key, s.now);
            && s' == s.(counters := counters, issued := s'.issued, verdicts := s'.verdicts, creator := s'.creator)
            && s'.issued != [] && (|s'.issued| - 1, count) in s'.verdicts
            && s'.verdicts[(|s'.issued| - 1, count)] == result.allowed
  {
    var s1 := Next(c, s, Incr(i));
    var s2 := Next(c, s1, Arm(i));
    assert [Incr(i), Arm(i), Finish(i)][1..] == [Arm(i), Finish(i)] && [Arm(i), Finish(i)][1..] == [Finish(i)];
    assert Run(c, s2, [Finish(i)]) == Next(c, s2, Finish(i));
    assert Next(c, s2, Finish(i)).clients == s.clients;
  }

  predicate NoCrash(events: seq<Event>) {
    forall e :: e in events ==> !e.Crash?
  }

  // ---------- What every reachable state satisfies ----------

  // A count that lifetime l has handed out.
  predicate Issued(s: State, l: nat, k: int) {
    l < |s.issued| && 1 <= k <= s.issued[l]
  }

  predicate Holds(client: Client, l: nat, k: int) {
    !client.Idle? && client.life == l && client.count == k
  }

  /** While the key is live its value is the number of counts its lifetime has handed out. */
  ghost predicate CountsMatch(c: Config, s: State) {
    KeyLive(c, s) ==>
      s.issued != [] && s.counters[c.key].count == s.issued[|s.issued| - 1] && 0 < s.issued[|s.issued| - 1]
  }

  /** A client inside `check` holds an issued count that nobody has answered for, and no two
      clients hold the same one. */
  ghost predicate HoldersDistinct(s: State) {
    && (forall i :: 0 <= i < |s.clients| && !s.clients[i].Idle? ==>
          Issued(s, s.clients[i].life, s.clients[i].count) && (s.clients[i].life, s.clients[i].count) !in s.verdicts)
    && (forall i, j :: 0 <= i < j < |s.clients| && !s.clients[i].Idle? && !s.clients[j].Idle? ==>
          s.clients[i].life != s.clients[j].life || s.clients[i].count != s.clients[j].count)
  }

  ghost predicate VerdictsRight(c: Config, s: State) {
    forall l, k :: (l, k) in s.verdicts ==> Issued(s, l, k) && (s.verdicts[(l, k)] <==> k <= c.limit)
  }

  ghost predicate Safe(c: Config, s: State) {
    CountsMatch(c, s) && HoldersDistinct(s) && VerdictsRight(c, s)
  }

  /** Every issued count has a verdict or a client that will deliver one. */
  ghost predicate NothingLost(s: State) {
    forall l: nat, k :: Issued(s, l, k) && (l, k) !in s.verdicts ==>
      exists i :: 0 <= i < |s.clients| && Holds(s.clients[i], l, k)
  }

  /** A live counter without a deadline has its creator's EXPIRE still to come. */
  ghost predicate CreatorArms(c: Config, s: State) {
    KeyLive(c, s) && s.counters[c.key].deadline.None? ==>
      && s.creator < |s.clients|
      && s.clients[s.creator].Counted? && s.clients[s.creator].count == 1
      && s.clients[s.creator].life + 1 == |s.issued|
  }

  lemma SafeIncr(c: Config, s: State, i: nat)
    requires Safe(c, s) && i < |s.clients| && s.clients[i].Idle?
    ensures Safe(c, DoIncr(c, s, i))
  {
    var t := DoIncr(c, s, i);
    forall l: nat, k | Issued(s, l, k)
      ensures Issued(t, l, k)
    {
    }
  }

  lemma SafeStep(c: Config, s: State, e: Event)
    requires Safe(c, s)
    ensures Safe(c, Next(c, s, e))
  {
    if e.Incr? && e.i < |s.clients| && s.clients[e.i].Idle? {
      SafeIncr(c, s, e.i);
    }
  }

  lemma NothingLostStep(c: Config, s: State, e: Event)
    requires Safe(c, s) && NothingLost(s) && !e.Crash?
    ensures NothingLost(Next(c, s, e))
  {
    var t := Next(c, s, e);
    forall l: nat, k | Issued(t, l, k) && (l, k) !in t.verdicts
      ensures exists i :: 0 <= i < |t.clients| && Holds(t.clients[i], l, k)
    {
      if Issued(s, l, k) {
        var i :| 0 <= i < |s.clients| && Holds(s.clients[i], l, k);
        assert Holds(t.clients[i], l, k);
      } else {
        assert Holds(t.clients[e.i], l, k);
      }
    }
  }

  lemma {:induction false} RunLast(c: Config, s: State, events: seq<Event>)
    requires events != []
    ensures Run(c, s, events) == Next(c, Run(c, s, events[..|events| - 1]), events[|events| - 1])
    decreases |events|
  {
    if 1 < |events| {
      var init := events[..|events| - 1];
      assert init[1..] == events[1..][..|events| - 2];
      RunLast(c, Next(c, s, events[0]), events[1..]);
    }
  }

  /** Any number of clients, any interleaving with resets and lapses: in every reachable state the
      counts of each lifetime are handed out once each and answered by `count <= limit`. Unless a
      client died none of them is lost, and a live counter without a deadline has its creator's
      EXPIRE pending. */
  lemma {:induction false} EveryReachableStateIsSafe(c: Config, n: nat, events: seq<Event>)
    ensures var s := Run(c, Init(n), events);
            Safe(c, s) && (NoCrash(events) ==> NothingLost(s) && CreatorArms(c, s))
    decreases |events|
  {
    if events != [] {
      var init, e := events[..|events| - 1], events[|events| - 1];
      var s := Run(c, Init(n), init);
      EveryReachableStateIsSafe(c, n, init);
      RunLast(c, Init(n), events);
      SafeStep(c, s, e);
      if NoCrash(events) {
        assert e in events;
        NothingLostStep(c, s, e);
      }
    }
  }

  // ---------- How many checks of a lifetime are allowed ----------

  // Allowed verdicts on the first n counts of lifetime l.
  function AllowedOf(s: State, l: nat, n: nat): nat {
    if n == 0 then 0
    else AllowedOf(s, l, n - 1) + (if (l, n as int) in s.verdicts && s.verdicts[(l, n as int)] then 1 else 0)
  }

  function Min(a: int, b: int): int { if a < b then a else b }

  lemma {:induction false} AllowedOfBound(c: Config, s: State, l: nat, n: nat)
    requires VerdictsRight(c, s) && 0 <= c.limit
    ensures AllowedOf(s, l, n) <= Min(n, c.limit)
    ensures (forall k: int :: 1 <= k <= n ==> (l, k) in s.verdicts) ==> AllowedOf(s, l, n) == Min(n, c.limit)
  {
    if n != 0 {
      AllowedOfBound(c, s, l, n - 1);
    }
  }

  /** A lifetime that handed out n counts has never allowed more than min(n, limit) checks, even
      with crashes; without crashes it has allowed exactly that many once none of its checks is
      still in flight. */
  lemma LifetimeAllowsExactlyTheLimit(c: Config, clients: nat, events: seq<Event>, l: nat)
    requires 0 <= c.limit && l < |Run(c, Init(clients), events).issued|
    ensures var s := Run(c, Init(clients), events);
            && AllowedOf(s, l, s.issued[l]) <= Min(s.issued[l], c.limit)
            && (NoCrash(events) &&
                (forall i :: 0 <= i < |s.clients| && !s.clients[i].Idle? ==> s.clients[i].life != l) ==>
                  AllowedOf(s, l, s.issued[l]) == Min(s.issued[l], c.limit))
  {
    var s := Run(c, Init(clients), events);
    EveryReachableStateIsSafe(c, clients, events);
    AllowedOfBound(c, s, l, s.issued[l]);
    if NoCrash(events) && (forall i :: 0 <= i < |s.clients| && !s.clients[i].Idle? ==> s.clients[i].life != l) {
      forall k: int | 1 <= k <= s.issued[l]
        ensures (l, k) in s.verdicts
      {
        assert Issued(s, l, k);
      }
    }
  }

  // ---------- A crash between INCR and EXPIRE ----------

  /** The key lives without a deadline and nobody is left to set one. */
  ghost predicate Stuck(c: Config, s: State) {
    && KeyLive(c, s) && s.counters[c.key].deadline.None? && 1 <= s.counters[c.key].count
    && forall i :: 0 <= i < |s.clients| && s.clients[i].Counted? ==> s.clients[i].count != 1
  }

  /** From a stuck state no passage of time and no further check frees the key; only a reset does. */
  lemma {:induction false} StuckForever(c: Config, s: State, events: seq<Event>)
    requires Stuck(c, s) && forall e :: e in events ==> !e.Reset?
    ensures Stuck(c, Run(c, s, events))
    ensures s.counters[c.key].count <= Run(c, s, events).counters[c.key].count
    decreases |events|
  {
    if events != [] {
      assert events[0] in events;
      StuckForever(c, Next(c, s, events[0]), events[1..]);
    }
  }

  predicate MayArm(client: Client) {
    client.Counted? && client.count == 1
  }

  /** In every reachable state, crashes included: a death makes the key stuck exactly when the key is live
      without a deadline and the dead client is the only one that counted 1 and has not executed its
      EXPIRE, in whichever lifetime of the key it counted. */
  lemma CrashStuckIff(c: Config, s: State, i: nat)
    requires Safe(c, s) && !Stuck(c, s)
    ensures Stuck(c, Next(c, s, Crash(i))) <==>
            (&& KeyLive(c, s) && s.counters[c.key].deadline.None?
             && i < |s.clients| && MayArm(s.clients[i])
             && forall k :: 0 <= k < |s.clients| && k != i ==> !MayArm(s.clients[k]))
  {
    var t := Next(c, s, Crash(i));
    if i < |s.clients| {
      assert forall k :: 0 <= k < |s.clients| && k != i ==> t.clients[k] == s.clients[k];
    }
  }

  /** Nothing but a death makes a key stuck. */
  lemma OnlyCrashesStick(c: Config, s: State, e: Event)
    requires Safe(c, s) && !Stuck(c, s) && !e.Crash?
    ensures !Stuck(c, Next(c, s, e))
  {
    var t := Next(c, s, e);
    if KeyLive(c, t) && t.counters[c.key].deadline.None? {
      if e.Incr? && t != s && !KeyLive(c, s) {
        assert MayArm(t.clients[e.i]);
      } else if i: nat :| i < |s.clients| && MayArm(s.clients[i]) {
        assert MayArm(t.clients[i]);
      }
    }
  }

  // ---------- The script instead of the three commands ----------

  ghost function ScriptRun(s: R.Counters, calls: seq<(string, int, int)>): R.Counters
    decreases |calls|
  {
    if calls == [] then s
    else ScriptRun(R.RateLimitIncr(s, calls[0].0, calls[0].1, calls[0].2), calls[1..])
  }

  /** Over any run of scripted calls from an empty server, whatever the keys, windows and
      times, no counter is without a deadline. */
  lemma {:induction false} ScriptRunNeverLosesADeadline(s: R.Counters, calls: seq<(string, int, int)>)
    requires forall k :: k in s ==> s[k].deadline.Some? && 1 <= s[k].count
    ensures var t := ScriptRun(s, calls);
            forall k :: k in t ==> t[k].deadline.Some?
    decreases |calls|
  {
    if calls != [] {
      var next := R.RateLimitIncr(s, calls[0].0, calls[0].1, calls[0].2);
      ScriptRunNeverLosesADeadline(next, calls[1..]);
      assert ScriptRun(s, calls) == ScriptRun(next, calls[1..]);
    }
  }
}
