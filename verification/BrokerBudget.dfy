/** How often the handler runs on a message: at most once more than its retry budget for each time
    it is published. */
module BrokerBudget {
  import opened Wrappers
  import opened Sums
  import opened Queues
  import opened Broker
  import opened BrokerRows
  import opened BrokerRuns

  // ---------- What is counted ----------

  // The event ends a handler run on the message, unless the consumer died in the middle of it.
  function Handled(s: State, e: Event, id: nat): nat {
    if (e.Succeed? || e.Fail? || e.CrashAfterPublish?) && e.i < |s.copies| && s.copies[e.i].trace.id == id then 1 else 0
  }

  // How many messages the event republishes from rows of the message.
  function Republishes(s: State, e: Event, id: nat): nat {
    match e
    case RetryAction(pks) => |RetryableFor(s, pks, id)|
    case CrashInRetry(pks, k) => if k <= |pks| then |RetryableFor(s, pks[..k], id)| else 0
    case RetrySend(k) =>
      if k < |s.retries| && QueueOf(s.retries[k]) != "" && s.retries[k].row.trace.id == id then 1 else 0
    case _ => 0
  }

  // The consumer dies between publishing the failed message and rejecting it, which is delivered again.
  function Redelivers(s: State, e: Event, id: nat): nat {
    if e.CrashAfterPublish? then Handled(s, e, id) else 0
  }

  ghost function HandlerRuns(t: Topology, s: State, events: seq<Event>, id: nat): nat
    decreases |events|
  {
    if events == [] then 0
    else if Enabled(t, s, events[0]) then
      Handled(s, events[0], id) + HandlerRuns(t, Next(t, s, events[0]), events[1..], id)
    else HandlerRuns(t, s, events[1..], id)
  }

  ghost function Republications(t: Topology, s: State, events: seq<Event>, id: nat): nat
    decreases |events|
  {
    if events == [] then 0
    else if Enabled(t, s, events[0]) then
      Republishes(s, events[0], id) + Republications(t, Next(t, s, events[0]), events[1..], id)
    else Republications(t, s, events[1..], id)
  }

  ghost function Redeliveries(t: Topology, s: State, events: seq<Event>, id: nat): nat
    decreases |events|
  {
    if events == [] then 0
    else if Enabled(t, s, events[0]) then
      Redelivers(s, events[0], id) + Redeliveries(t, Next(t, s, events[0]), events[1..], id)
    else Redeliveries(t, s, events[1..], id)
  }

  lemma {:induction false} NoCrashNoRedelivery(t: Topology, s: State, events: seq<Event>, id: nat)
    requires NoCrash(events)
    ensures Redeliveries(t, s, events, id) == 0
    decreases |events|
  {
    if events != [] {
      assert events[0] in events;
      NoCrashNoRedelivery(t, if Enabled(t, s, events[0]) then Next(t, s, events[0]) else s, events[1..], id);
    }
  }

  // ---------- The runs a message has left ----------

  // The handler runs a copy of the message can have before a row of it is republished.
  function Chances(c: QueueConfig, copy: Copy, id: nat): nat {
    if (copy.place.InQueue? && c.deadLetterQueue != Some(copy.place.queue)) || copy.place.Unacked? then
      if copy.trace.id == id && Attempt(copy.message) <= Budget(c) then Budget(c) + 1 - Attempt(copy.message) else 0
    else 0
  }

  function ChancesOf(c: QueueConfig, id: nat): Copy -> nat {
    copy => Chances(c, copy, id)
  }

  function ChancesFor(c: QueueConfig, copies: seq<Copy>, id: nat): nat {
    Sum(copies, ChancesOf(c, id))
  }

  lemma {:induction false} AllowanceOfBoth(b: nat, x: nat, y: nat)
    ensures Allowance(b, x + y) == Allowance(b, x) + Allowance(b, y)
  {
    if y != 0 {
      AllowanceOfBoth(b, x, y - 1);
    }
  }

  lemma {:induction false} AllowanceIsProduct(b: nat, n: nat)
    ensures Allowance(b, n) == b * n
  {
    if n != 0 {
      AllowanceIsProduct(b, n - 1);
      assert b * (n - 1) + b == b * n;
    }
  }

  // Copies have at most budget + 1 runs left for each of them that stands.
  lemma {:induction false} ChancesOfStanding(c: QueueConfig, copies: seq<Copy>, id: nat)
    ensures ChancesFor(c, copies, id) <= Allowance(Budget(c) + 1, StandingFor(copies, id))
    decreases |copies|
  {
    if copies != [] {
      var init, copy := copies[..|copies| - 1], copies[|copies| - 1];
      ChancesOfStanding(c, init, id);
      assert Chances(c, copy, id) <= Allowance(Budget(c) + 1, Weight(copy, id));
      AllowanceOfBoth(Budget(c) + 1, StandingFor(init, id), Weight(copy, id));
    }
  }

  lemma ChancesMove(c: QueueConfig, s: State, i: nat, place: Place, id: nat)
    requires i < |s.copies|
    ensures ChancesFor(c, Move(s, i, place).copies, id)
            == ChancesFor(c, s.copies, id) - Chances(c, s.copies[i], id)
               + Chances(c, s.copies[i].(place := place), id)
  {
    SumUpdate(s.copies, i, s.copies[i].(place := place, since := s.now), ChancesOf(c, id));
  }

  // The message, once published, is of this configuration.
  ghost predicate HomeIs(t: Topology, published: seq<Original>, id: nat, c: QueueConfig) {
    id < |published| ==> published[id].home < |t| && t[published[id].home] == c
  }

  // A delivered copy has a run left, and its failure leaves it one less.
  lemma ChancesPublishFailure(t: Topology, s: State, i: nat, c: nat, error: string, id: nat)
    requires WellFormed(t) && AllOk(t, s) && c < |t| && At(s, i, Unacked(t[c].name)) && !Endless(t[c])
    requires s.copies[i].trace.id == id
    ensures 1 <= Chances(t[c], s.copies[i], id) <= Budget(t[c]) + 1
    ensures PublishFailure(s, i, t[c], error).copies[i] == s.copies[i]
    ensures ChancesFor(t[c], PublishFailure(s, i, t[c], error).copies, id)
            <= ChancesFor(t[c], s.copies, id) + Chances(t[c], s.copies[i], id) - 1
  {
    MainTells(t, s, i, c);
    assert CopyOk(t, s.published, s.now, s.copies[i]);
    RouteByBudget(t[c], Attempt(s.copies[i].message));
    var added := PublishFailure(s, i, t[c], error).copies[|s.copies|];
    SumAppend(s.copies, added, ChancesOf(t[c], id));
  }

  // A failure on another message.
  lemma ChancesElsewhere(c: QueueConfig, s: State, i: nat, q: QueueConfig, error: string, id: nat)
    requires i < |s.copies| && s.copies[i].trace.id != id
    ensures i < |PublishFailure(s, i, q, error).copies|
    ensures PublishFailure(s, i, q, error).copies[i] == s.copies[i]
    ensures ChancesFor(c, PublishFailure(s, i, q, error).copies, id) == ChancesFor(c, s.copies, id)
  {
    var s' := PublishFailure(s, i, q, error);
    if s'.copies != s.copies {
      SumAppend(s.copies, s'.copies[|s.copies|], ChancesOf(c, id));
    }
  }

  // A failed delivery of the message takes a run; one whose rejection a crash prevents keeps its own.
  lemma ChancesFailed(t: Topology, s: State, i: nat, c: nat, error: string, place: Place, id: nat)
    requires WellFormed(t) && AllOk(t, s) && c < |t| && At(s, i, Unacked(t[c].name)) && !Endless(t[c])
    requires s.copies[i].trace.id == id
    ensures i < |PublishFailure(s, i, t[c], error).copies|
    ensures ChancesFor(t[c], Move(PublishFailure(s, i, t[c], error), i, place).copies, id) + 1
            <= ChancesFor(t[c], s.copies, id) + if place.Rejected? then 0 else Budget(t[c]) + 1
  {
    ChancesPublishFailure(t, s, i, c, error, id);
    ChancesMove(t[c], PublishFailure(s, i, t[c], error), i, place, id);
  }

  lemma ChancesFail(t: Topology, s: State, i: nat, c': nat, error: string, id: nat, c: QueueConfig)
    requires WellFormed(t) && AllOk(t, s) && Enabled(t, s, Fail(i, c', error))
    requires HomeIs(t, s.published, id, c) && !Endless(c)
    ensures ChancesFor(c, Next(t, s, Fail(i, c', error)).copies, id) + Handled(s, Fail(i, c', error), id)
            <= ChancesFor(c, s.copies, id)
  {
    if s.copies[i].trace.id == id {
      MainTells(t, s, i, c');
      ChancesFailed(t, s, i, c', error, Rejected, id);
    } else {
      ChancesElsewhere(c, s, i, t[c'], error, id);
      ChancesMove(c, PublishFailure(s, i, t[c'], error), i, Rejected, id);
    }
  }

  lemma ChancesCrashed(t: Topology, s: State, i: nat, c': nat, error: string, id: nat, c: QueueConfig)
    requires WellFormed(t) && AllOk(t, s) && Enabled(t, s, CrashAfterPublish(i, c', error))
    requires HomeIs(t, s.published, id, c) && !Endless(c)
    ensures ChancesFor(c, Next(t, s, CrashAfterPublish(i, c', error)).copies, id)
            <= ChancesFor(c, s.copies, id) + if s.copies[i].trace.id == id then Budget(c) else 0
  {
    if s.copies[i].trace.id == id {
      MainTells(t, s, i, c');
      ChancesFailed(t, s, i, c', error, InQueue(t[c'].name), id);
    } else {
      ChancesElsewhere(c, s, i, t[c'], error, id);
      ChancesMove(c, PublishFailure(s, i, t[c'], error), i, InQueue(t[c'].name), id);
    }
  }

  lemma ChancesSucceed(t: Topology, s: State, i: nat, c': nat, id: nat, c: QueueConfig)
    requires WellFormed(t) && AllOk(t, s) && Enabled(t, s, Succeed(i, c'))
    requires HomeIs(t, s.published, id, c) && !Endless(c)
    ensures ChancesFor(c, Next(t, s, Succeed(i, c')).copies, id) + Handled(s, Succeed(i, c'), id)
            <= ChancesFor(c, s.copies, id)
  {
    var after := Next(t, s, Succeed(i, c')).copies[i];
    assert CopyOk(t, s.published, s.now, s.copies[i]);
    assert Next(t, s, Succeed(i, c')).copies == s.copies[i := after];
    SumUpdate(s.copies, i, after, ChancesOf(c, id));
  }

  // A wait that is over leaves the copy the runs it had.
  lemma ChancesExpire(t: Topology, s: State, i: nat, c': nat, id: nat, c: QueueConfig)
    requires WellFormed(t) && AllOk(t, s) && Enabled(t, s, Expire(i, c')) && HomeIs(t, s.published, id, c)
    ensures ChancesFor(c, Next(t, s, Expire(i, c')).copies, id) <= ChancesFor(c, s.copies, id)
  {
    var k: nat :| HasRole(t[c'], Waiting(k)) && At(s, i, InQueue(RoleName(t[c'], Waiting(k))))
      && s.copies[i].since + SlotTtl(t[c'], k) <= s.now;
    WaitingTells(t, s, i, c', k);
    MainIsNotDead(t, c');
    assert CopyOk(t, s.published, s.now, s.copies[i]);
    ChancesMove(c, s, i, InQueue(t[c'].name), id);
  }

  lemma ChancesDeliver(t: Topology, s: State, i: nat, c': nat, id: nat, c: QueueConfig)
    requires WellFormed(t) && AllOk(t, s) && Enabled(t, s, Deliver(i, c')) && HomeIs(t, s.published, id, c)
    ensures ChancesFor(c, Next(t, s, Deliver(i, c')).copies, id) <= ChancesFor(c, s.copies, id)
  {
    MainTells(t, s, i, c');
    MainIsNotDead(t, c');
    assert CopyOk(t, s.published, s.now, s.copies[i]);
    ChancesMove(c, s, i, Unacked(t[c'].name), id);
  }

  lemma ChancesMoved(t: Topology, s: State, e: Event, id: nat, c: QueueConfig)
    requires WellFormed(t) && AllOk(t, s) && Enabled(t, s, e) && HomeIs(t, s.published, id, c)
    requires e.Deliver? || e.Expire? || e.StoreDead? || e.StoreFails? || e.Crash?
    ensures ChancesFor(c, Next(t, s, e).copies, id) <= ChancesFor(c, s.copies, id)
  {
    match e {
      case Deliver(i, c') => ChancesDeliver(t, s, i, c', id, c);
      case Expire(i, c') => ChancesExpire(t, s, i, c', id, c);
      case StoreDead(i, c') => ChancesMove(c, s, i, Stored(t[c'].deadLetterQueue.value, PENDING), id);
      case StoreFails(i, _) => ChancesMove(c, s, i, Rejected, id);
      case Crash(i, c') => ChancesMove(c, s, i, InQueue(t[c'].name), id);
    }
  }

  // Rows have no runs left, marked or not...
  lemma ChancesMarked(c: QueueConfig, s: State, pks: seq<nat>, id: nat)
    ensures ChancesFor(c, RetryRows(s, pks).copies[..|s.copies|], id) == ChancesFor(c, s.copies, id)
  {
    var marked := RetryRows(s, pks).copies[..|s.copies|];
    RetryRowsTouch(s, pks);
    forall i | 0 <= i < |s.copies|
      ensures Chances(c, s.copies[i], id) == Chances(c, marked[i], id)
    {
      assert marked[i] == Marked(s, pks, i);
    }
    SumSame(s.copies, marked, ChancesOf(c, id));
  }

  // ...and what is republished has the whole budget again.
  lemma ChancesAdded(c: QueueConfig, s: State, pks: seq<nat>, copies: seq<Copy>, id: nat)
    ensures ChancesFor(c, copies + RetryRows(s, pks).copies[|s.copies|..], id)
            <= ChancesFor(c, copies, id) + Allowance(Budget(c) + 1, |RetryableFor(s, pks, id)|)
  {
    var added := RetryRows(s, pks).copies[|s.copies|..];
    StandingRepublished(s, pks, id);
    ChancesOfStanding(c, added, id);
    SumConcat(copies, added, ChancesOf(c, id));
  }

  lemma ChancesRetryRows(c: QueueConfig, s: State, pks: seq<nat>, id: nat)
    ensures ChancesFor(c, RetryRows(s, pks).copies, id)
            <= ChancesFor(c, s.copies, id) + Allowance(Budget(c) + 1, |RetryableFor(s, pks, id)|)
  {
    var n, after := |s.copies|, RetryRows(s, pks).copies;
    ChancesMarked(c, s, pks, id);
    ChancesAdded(c, s, pks, after[..n], id);
    assert after == after[..n] + after[n..];
  }

  // Events that neither publish nor touch a copy that waits or is being handled.
  lemma ChancesKept(t: Topology, s: State, e: Event, id: nat, c: QueueConfig)
    requires Enabled(t, s, e)
    requires e.RetrySelect? || e.RetryCommit? || e.RetryDies? || e.DiscardAction? || e.Tick? || e.CrashAfterStore?
    ensures ChancesFor(c, Next(t, s, e).copies, id) == ChancesFor(c, s.copies, id)
  {
    if e.CrashAfterStore? {
      SumAppend(s.copies, Next(t, s, e).copies[|s.copies|], ChancesOf(c, id));
    } else {
      SumSame(s.copies, Next(t, s, e).copies, ChancesOf(c, id));
    }
  }

  // What the event grants the message: a publication, republications, a second delivery.
  function Granted(s: State, e: Event, id: nat): nat {
    Begun(s, e, id) + Republishes(s, e, id) + Redelivers(s, e, id)
  }

  predicate Republishing(e: Event) {
    e.RetryAction? || e.CrashInRetry? || e.RetrySend?
  }

  lemma ChancesRepublished(t: Topology, s: State, e: Event, id: nat, c: QueueConfig)
    requires Enabled(t, s, e) && Republishing(e)
    ensures ChancesFor(c, Next(t, s, e).copies, id)
            <= ChancesFor(c, s.copies, id) + Allowance(Budget(c) + 1, Republishes(s, e, id))
  {
    match e {
      case RetryAction(pks) => ChancesRetryRows(c, s, pks, id);
      case CrashInRetry(pks, k) => ChancesAdded(c, s, pks[..k], s.copies, id);
      case RetrySend(k) =>
        if QueueOf(s.retries[k]) != "" {
          SumAppend(s.copies, SendRow(s, k).copies[|s.copies|], ChancesOf(c, id));
        }
    }
  }

  lemma ChancesPlain(t: Topology, s: State, e: Event, id: nat, c: QueueConfig)
    requires WellFormed(t) && AllOk(t, s) && Enabled(t, s, e)
    requires !e.Publish? && !Republishing(e) && !e.CrashAfterPublish?
    requires HomeIs(t, s.published, id, c) && !Endless(c)
    ensures ChancesFor(c, Next(t, s, e).copies, id) + Handled(s, e, id) <= ChancesFor(c, s.copies, id)
  {
    if e.Succeed? {
      ChancesSucceed(t, s, e.i, e.c, id, c);
    } else if e.Fail? {
      ChancesFail(t, s, e.i, e.c, e.error, id, c);
    } else if e.Deliver? || e.Expire? || e.StoreDead? || e.StoreFails? || e.Crash? {
      ChancesMoved(t, s, e, id, c);
    } else {
      ChancesKept(t, s, e, id, c);
    }
  }

  lemma ChancesStep(t: Topology, s: State, e: Event, id: nat, c: QueueConfig)
    requires WellFormed(t) && AllOk(t, s) && Enabled(t, s, e)
    requires HomeIs(t, s.published, id, c) && !Endless(c)
    ensures ChancesFor(c, Next(t, s, e).copies, id) + Handled(s, e, id)
            <= ChancesFor(c, s.copies, id) + Allowance(Budget(c) + 1, Granted(s, e, id))
  {
    if e.Publish? {
      SumAppend(s.copies, Next(t, s, Publish(e.c, e.body)).copies[|s.copies|], ChancesOf(c, id));
    } else if Republishing(e) {
      ChancesRepublished(t, s, e, id, c);
    } else if e.CrashAfterPublish? {
      ChancesCrashed(t, s, e.i, e.c, e.error, id, c);
    } else {
      ChancesPlain(t, s, e, id, c);
    }
  }

  lemma {:induction false} PublishedRun(t: Topology, s: State, events: seq<Event>)
    requires WellFormed(t) && AllOk(t, s)
    ensures s.published <= Run(t, s, events).published
    ensures forall id :: |s.published| <= id < |Run(t, s, events).published| ==>
              Run(t, s, events).published[id].home < |t|
    decreases |events|
  {
    if events != [] {
      var e := events[0];
      if Enabled(t, s, e) {
        OkStep(t, s, e);
        PublishedGrows(t, s, e);
        PublishedRun(t, Next(t, s, e), events[1..]);
      } else {
        PublishedRun(t, s, events[1..]);
      }
    }
  }

  // Everything the run grants the message.
  ghost function GrantedIn(t: Topology, s: State, events: seq<Event>, id: nat): nat {
    var published := if |s.published| <= id < |Run(t, s, events).published| then 1 else 0;
    published + Republications(t, s, events, id) + Redeliveries(t, s, events, id)
  }

  lemma GrantedStep(t: Topology, s: State, events: seq<Event>, id: nat)
    requires WellFormed(t) && AllOk(t, s) && events != [] && Enabled(t, s, events[0])
    ensures GrantedIn(t, s, events, id)
            == Granted(s, events[0], id) + GrantedIn(t, Next(t, s, events[0]), events[1..], id)
  {
    OkStep(t, s, events[0]);
    PublishedGrows(t, s, events[0]);
    PublishedRun(t, Next(t, s, events[0]), events[1..]);
  }

  // The bound for the rest of a run gives it for the run.
  lemma RunsThen(t: Topology, s: State, events: seq<Event>, id: nat, b: nat, before: nat, after: nat)
    requires WellFormed(t) && AllOk(t, s) && events != [] && Enabled(t, s, events[0])
    requires after + Handled(s, events[0], id) <= before + Allowance(b, Granted(s, events[0], id))
    requires var s', rest := Next(t, s, events[0]), events[1..];
             HandlerRuns(t, s', rest, id) <= after + Allowance(b, GrantedIn(t, s', rest, id))
    ensures HandlerRuns(t, s, events, id) <= before + Allowance(b, GrantedIn(t, s, events, id))
  {
    GrantedStep(t, s, events, id);
    AllowanceOfBoth(b, Granted(s, events[0], id), GrantedIn(t, Next(t, s, events[0]), events[1..], id));
  }

  // The first event of a run and what it grants, in a run that ends with the message of this configuration.
  lemma ChancesFirst(t: Topology, s: State, events: seq<Event>, id: nat, c: QueueConfig)
    requires WellFormed(t) && AllOk(t, s) && events != [] && Enabled(t, s, events[0])
    requires HomeIs(t, Run(t, s, events).published, id, c) && !Endless(c)
    ensures AllOk(t, Next(t, s, events[0]))
    ensures ChancesFor(c, Next(t, s, events[0]).copies, id) + Handled(s, events[0], id)
            <= ChancesFor(c, s.copies, id) + Allowance(Budget(c) + 1, Granted(s, events[0], id))
  {
    PublishedRun(t, s, events);
    OkStep(t, s, events[0]);
    ChancesStep(t, s, events[0], id, c);
  }

  lemma {:induction false} ChancesRun(t: Topology, s: State, events: seq<Event>, id: nat, c: QueueConfig)
    requires WellFormed(t) && AllOk(t, s)
    requires HomeIs(t, Run(t, s, events).published, id, c) && !Endless(c)
    ensures HandlerRuns(t, s, events, id)
            <= ChancesFor(c, s.copies, id) + Allowance(Budget(c) + 1, GrantedIn(t, s, events, id))
    decreases |events|
  {
    if events != [] {
      var e, rest := events[0], events[1..];
      if Enabled(t, s, e) {
        var s' := Next(t, s, e);
        ChancesFirst(t, s, events, id, c);
        ChancesRun(t, s', rest, id, c);
        RunsThen(t, s, events, id, Budget(c) + 1, ChancesFor(c, s.copies, id), ChancesFor(c, s'.copies, id));
      } else {
        ChancesRun(t, s, rest, id, c);
      }
    }
  }

  // ---------- The bound ----------

  // What the retry budget allows one copy.
  ghost predicate WithinBudget(c: QueueConfig, copy: Copy) {
    var trace := copy.trace;
    && (!Endless(c) ==> trace.runs <= Budget(c) + 1 && trace.total <= (Budget(c) + 1) * (1 + trace.life))
    && (copy.place == InQueue(c.name) ==> trace.runs == Attempt(copy.message))
  }

  lemma EveryCopyIsWithinBudget(t: Topology, s: State, i: nat)
    requires WellFormed(t) && AllOk(t, s) && i < |s.copies|
    ensures WithinBudget(t[s.published[s.copies[i].trace.id].home], s.copies[i])
  {
    assert CopyOk(t, s.published, s.now, s.copies[i]);
    var home := s.published[s.copies[i].trace.id].home;
    MainIsNotDead(t, home);
    AllowanceIsProduct(Budget(t[home]) + 1, 1 + s.copies[i].trace.life);
  }

  /** Bounded retries, over every run, with overlapping retry actions and crashes. Unless the message's
      configuration is endless, its handler finishes at most budget + 1 times for its publication, for
      each republication, and for each delivery repeated after a crash that came too late; there are
      none of the last without crashes. Each copy has at most budget + 1 runs behind it since its last
      republication, and one waiting in its main queue as many as its attempt count says. */
  lemma HandlerRunsAreBounded(t: Topology, events: seq<Event>, id: nat)
    requires WellFormed(t) && id < |Run(t, INITIAL, events).published|
    ensures var s := Run(t, INITIAL, events);
            var runs, republications := HandlerRuns(t, INITIAL, events, id), Republications(t, INITIAL, events, id);
            && s.published[id].home < |t|
            && var c := t[s.published[id].home];
               && (!Endless(c) ==>
                     && runs <= (Budget(c) + 1) * (1 + republications + Redeliveries(t, INITIAL, events, id))
                     && (NoCrash(events) ==> runs <= (Budget(c) + 1) * (1 + republications)))
               && forall i :: 0 <= i < |s.copies| && s.copies[i].trace.id == id ==> WithinBudget(c, s.copies[i])
  {
    var s := Run(t, INITIAL, events);
    PublishedRun(t, INITIAL, events);
    var c := t[s.published[id].home];
    if !Endless(c) {
      ChancesRun(t, INITIAL, events, id, c);
      AllowanceIsProduct(Budget(c) + 1, GrantedIn(t, INITIAL, events, id));
      if NoCrash(events) {
        NoCrashNoRedelivery(t, INITIAL, events, id);
      }
    }
    OkRun(t, INITIAL, events);
    forall i | 0 <= i < |s.copies| && s.copies[i].trace.id == id
      ensures WithinBudget(c, s.copies[i])
    {
      EveryCopyIsWithinBudget(t, s, i);
    }
  }

  // ---------- The bound is attained ----------

  // A copy of a message of this configuration that can still go on, if only as a row.
  ghost predicate GoesOn(t: Topology, s: State, i: nat, c: nat, id: nat) {
    && WellFormed(t) && AllOk(t, s) && c < |t| && !Endless(t[c])
    && id < |s.published| && s.published[id].home == c
    && i < |s.copies| && s.copies[i].trace.id == id
    && !s.copies[i].place.Acked? && !s.copies[i].place.Rejected?
    && (s.copies[i].place.Stored? ==> s.copies[i].place.status == PENDING)
  }

  ghost function Rank(t: Topology, s: State, i: nat, c: nat): nat
    requires i < |s.copies| && c < |t|
  {
    if !s.copies[i].place.InQueue? then 0
    else if s.copies[i].place.queue == t[c].name then 1
    else if Enabled(t, s, Expire(i, c)) || Dead(t[c], s.copies[i]) then 2
    else 3
  }

  predicate Dead(c: QueueConfig, copy: Copy) {
    copy.place.InQueue? && c.deadLetterQueue == Some(copy.place.queue)
  }

  // The event takes the copy on, as the copy j.
  ghost predicate TakesOn(t: Topology, s: State, i: nat, c: nat, id: nat, e: Event, j: nat) {
    GoesOn(t, s, i, c, id) && Enabled(t, s, e) && !Crashes(e) && GoesOn(t, Next(t, s, e), j, c, id)
  }

  // It does so within the copy's runs, or by the first of its n republications; m of them are left.
  ghost predicate Follows(t: Topology, s: State, i: nat, c: nat, id: nat, n: nat, e: Event, j: nat, m: nat) {
    || (&& TakesOn(t, s, i, c, id, e, j) && m == n && Republishes(s, e, id) == 0
        && var before, after := Chances(t[c], s.copies[i], id), Chances(t[c], Next(t, s, e).copies[j], id);
           && before == Handled(s, e, id) + after
           && (after < before || Rank(t, Next(t, s, e), j, c) < Rank(t, s, i, c)))
    || (&& TakesOn(t, s, i, c, id, e, j) && n == m + 1 && Republishes(s, e, id) == 1
        && Chances(t[c], s.copies[i], id) + Budget(t[c]) + 1
           == Handled(s, e, id) + Chances(t[c], Next(t, s, e).copies[j], id))
  }

  lemma Fails(t: Topology, s: State, i: nat, c: nat, id: nat, n: nat)
    requires GoesOn(t, s, i, c, id) && s.copies[i].place.Unacked?
    ensures Follows(t, s, i, c, id, n, Fail(i, c, ""), |s.copies|, n)
  {
    assert CopyOk(t, s.published, s.now, s.copies[i]);
    RouteByBudget(t[c], Attempt(s.copies[i].message));
    MainIsNotDead(t, c);
    OkStep(t, s, Fail(i, c, ""));
  }

  lemma IsWaiting(t: Topology, s: State, i: nat, c: nat, id: nat)
    requires GoesOn(t, s, i, c, id) && s.copies[i].place.InQueue?
    requires s.copies[i].place.queue != t[c].name && !Dead(t[c], s.copies[i])
    ensures var k := SlotOf(t[c], Attempt(s.copies[i].message));
            HasRole(t[c], Waiting(k)) && s.copies[i].place == InQueue(RoleName(t[c], Waiting(k)))
  {
    assert CopyOk(t, s.published, s.now, s.copies[i]);
  }

  lemma ComesBack(t: Topology, s: State, i: nat, c: nat, id: nat, n: nat) returns (e: Event)
    requires GoesOn(t, s, i, c, id) && s.copies[i].place.InQueue?
    requires s.copies[i].place.queue != t[c].name && !Dead(t[c], s.copies[i])
    ensures Follows(t, s, i, c, id, n, e, i, n)
  {
    IsWaiting(t, s, i, c, id);
    if Enabled(t, s, Expire(i, c)) {
      e := Expire(i, c);
      MainIsNotDead(t, c);
    } else {
      var k := SlotOf(t[c], Attempt(s.copies[i].message));
      var ttl := SlotTtl(t[c], k);
      assert 0 <= ttl;
      e := Tick(ttl);
      assert At(Next(t, s, e), i, InQueue(RoleName(t[c], Waiting(k))));
      assert s.copies[i].since <= s.now by {
        assert CopyOk(t, s.published, s.now, s.copies[i]);
      }
      assert Enabled(t, Next(t, s, e), Expire(i, c));
    }
    OkStep(t, s, e);
  }

  // A row that is retried has the whole budget again.
  lemma StartsAgain(t: Topology, s: State, i: nat, c: nat, id: nat, n: nat)
    requires GoesOn(t, s, i, c, id) && s.copies[i].place.Stored? && 0 < n
    ensures Follows(t, s, i, c, id, n, RetryAction([i]), |s.copies|, n - 1)
  {
    assert CopyOk(t, s.published, s.now, s.copies[i]);
    assert [i][..0] == [];
    assert RetryRows(s, [i]) == RetryRow(s, i);
    OkRetryRow(t, s, i);
    assert RetryableFor(s, [i], id) == {i};
    OkStep(t, s, RetryAction([i]));
    MainIsNotDead(t, c);
  }

  lemma GoOn(t: Topology, s: State, i: nat, c: nat, id: nat, n: nat) returns (e: Event, j: nat, m: nat)
    requires GoesOn(t, s, i, c, id)
    requires Dead(t[c], s.copies[i]) || s.copies[i].place.Stored? ==> 0 < n
    ensures Follows(t, s, i, c, id, n, e, j, m)
  {
    j, m := i, n;
    MainIsNotDead(t, c);
    match s.copies[i].place {
      case Unacked(_) =>
        e, j := Fail(i, c, ""), |s.copies|;
        Fails(t, s, i, c, id, n);
      case Stored(_, _) =>
        e, j, m := RetryAction([i]), |s.copies|, n - 1;
        StartsAgain(t, s, i, c, id, n);
      case InQueue(q) =>
        if q == t[c].name {
          e := Deliver(i, c);
          OkStep(t, s, e);
        } else if Dead(t[c], s.copies[i]) {
          e := StoreDead(i, c);
          OkStep(t, s, e);
        } else {
          e := ComesBack(t, s, i, c, id, n);
        }
    }
  }

  lemma Prepend(t: Topology, s: State, e: Event, rest: seq<Event>, id: nat)
    requires Enabled(t, s, e) && !Crashes(e) && NoCrash(rest)
    ensures NoCrash([e] + rest) && Run(t, s, [e] + rest) == Run(t, Next(t, s, e), rest)
    ensures HandlerRuns(t, s, [e] + rest, id) == Handled(s, e, id) + HandlerRuns(t, Next(t, s, e), rest, id)
    ensures Republications(t, s, [e] + rest, id) == Republishes(s, e, id) + Republications(t, Next(t, s, e), rest, id)
  {
    assert ([e] + rest)[1..] == rest;
  }

  lemma FollowsCounts(t: Topology, s: State, i: nat, c: nat, id: nat, n: nat, e: Event, j: nat, m: nat)
    requires Follows(t, s, i, c, id, n, e, j, m)
    ensures TakesOn(t, s, i, c, id, e, j) && n == m + Republishes(s, e, id)
    ensures var before, after := Chances(t[c], s.copies[i], id), Chances(t[c], Next(t, s, e).copies[j], id);
            && before + Allowance(Budget(t[c]) + 1, n) == Handled(s, e, id) + after + Allowance(Budget(t[c]) + 1, m)
            && (m < n || after < before || (after == before && Rank(t, Next(t, s, e), j, c) < Rank(t, s, i, c)))
  {
  }

  // A copy can use up all the runs it has left, and then those of n republications.
  lemma {:induction false} SpendAll(t: Topology, s: State, i: nat, c: nat, id: nat, n: nat) returns (events: seq<Event>)
    requires GoesOn(t, s, i, c, id)
    ensures NoCrash(events) && Republications(t, s, events, id) == n
    ensures HandlerRuns(t, s, events, id) == Chances(t[c], s.copies[i], id) + Allowance(Budget(t[c]) + 1, n)
    decreases n, Chances(t[c], s.copies[i], id), Rank(t, s, i, c)
  {
    if n == 0 && (Dead(t[c], s.copies[i]) || s.copies[i].place.Stored?) {
      events := [];
    } else {
      var e, j, m := GoOn(t, s, i, c, id, n);
      FollowsCounts(t, s, i, c, id, n, e, j, m);
      var rest := SpendAll(t, Next(t, s, e), j, c, id, m);
      Prepend(t, s, e, rest, id);
      events := [e] + rest;
    }
  }

  /** The bound is exact: for every number n of republications some run without a crash republishes a
      message n times and runs its handler (budget + 1) * (1 + n) times. */
  lemma BudgetIsAttained(t: Topology, c: nat, body: Body, n: nat) returns (events: seq<Event>)
    requires WellFormed(t) && c < |t| && !Endless(t[c])
    ensures NoCrash(events)
    ensures var s := Run(t, INITIAL, events);
            0 < |s.published| && s.published[0] == Original(c, body)
    ensures Republications(t, INITIAL, events, 0) == n
    ensures HandlerRuns(t, INITIAL, events, 0) == (Budget(t[c]) + 1) * (1 + n)
  {
    var e := Publish(c, body);
    var s := Next(t, INITIAL, e);
    OkStep(t, INITIAL, e);
    MainIsNotDead(t, c);
    var rest := SpendAll(t, s, 0, c, 0, n);
    Prepend(t, INITIAL, e, rest, 0);
    PublishedRun(t, s, rest);
    AllowanceIsProduct(Budget(t[c]) + 1, n);
    AllowanceIsProduct(Budget(t[c]) + 1, n + 1);
    events := [e] + rest;
  }
}
