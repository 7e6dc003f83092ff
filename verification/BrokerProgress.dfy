/** Termination of retries. */
module BrokerProgress {
  import opened Wrappers
  import opened Sums
  import opened Queues
  import opened Broker
  import opened BrokerRuns

  // ---------- Work runs out ----------

  ghost predicate AllBounded(t: Topology) {
    forall c :: 0 <= c < |t| ==> !Endless(t[c])
  }

  predicate Work(e: Event) {
    e.Deliver? || e.Succeed? || e.Fail? || e.Expire? || e.StoreDead? || e.StoreFails?
  }

  // The lexicographic pair (budget left, place) of a copy, as one number.
  ghost function Left(t: Topology, published: seq<Original>, copy: Copy): nat {
    if copy.trace.id >= |published| || published[copy.trace.id].home >= |t| then 0
    else
      var c := t[published[copy.trace.id].home];
      var budget := if Attempt(copy.message) <= Budget(c) then Budget(c) - Attempt(copy.message) else 0;
      match copy.place
      case InQueue(q) =>
        if q == c.name then 3 * budget + 3 else if c.deadLetterQueue == Some(q) then 1 else 3 * budget + 4
      case Unacked(_) => 3 * budget + 2
      case _ => 0
  }

  ghost function LeftOf(t: Topology, published: seq<Original>): Copy -> nat {
    copy => Left(t, published, copy)
  }

  ghost function TotalLeft(t: Topology, published: seq<Original>, copies: seq<Copy>): nat {
    Sum(copies, LeftOf(t, published))
  }

  lemma TotalMove(t: Topology, s: State, i: nat, place: Place)
    requires i < |s.copies|
    ensures TotalLeft(t, s.published, Move(s, i, place).copies)
            == TotalLeft(t, s.published, s.copies) - Left(t, s.published, s.copies[i])
               + Left(t, s.published, s.copies[i].(place := place))
  {
    SumUpdate(s.copies, i, s.copies[i].(place := place, since := s.now), LeftOf(t, s.published));
  }

  // What a failure publishes has less left than what was delivered.
  lemma PublishedHasLess(t: Topology, s: State, i: nat, c: nat, error: string)
    requires WellFormed(t) && AllBounded(t) && AllOk(t, s) && c < |t| && At(s, i, Unacked(t[c].name))
    ensures var s' := PublishFailure(s, i, t[c], error);
            && |s'.copies| == |s.copies| + 1 && s'.copies[..|s.copies|] == s.copies && s'.published == s.published
            && Left(t, s.published, s'.copies[|s.copies|]) < Left(t, s.published, s.copies[i])
  {
    MainTells(t, s, i, c);
    assert CopyOk(t, s.published, s.now, s.copies[i]);
    RouteByBudget(t[c], Attempt(s.copies[i].message));
    MainIsNotDead(t, c);
    assert RoleName(t[c], Main) == t[c].name && RoleName(t[c], Dead) == t[c].deadLetterQueue.value;
  }

  lemma ReplacedByLess(t: Topology, s: State, s': State, i: nat)
    requires i < |s.copies| && |s'.copies| == |s.copies| + 1
    requires s'.copies[..|s.copies|] == s.copies && s'.published == s.published
    requires Left(t, s.published, s'.copies[|s.copies|]) < Left(t, s.published, s.copies[i])
    ensures TotalLeft(t, s.published, Move(s', i, Rejected).copies) < TotalLeft(t, s.published, s.copies)
  {
    assert s'.copies == s.copies + [s'.copies[|s.copies|]];
    SumAppend(s.copies, s'.copies[|s.copies|], LeftOf(t, s.published));
    TotalMove(t, s', i, Rejected);
  }

  lemma FailureDecreases(t: Topology, s: State, i: nat, c: nat, error: string)
    requires WellFormed(t) && AllBounded(t) && AllOk(t, s) && c < |t| && At(s, i, Unacked(t[c].name))
    ensures TotalLeft(t, s.published, Processed(s, i, t[c], Some(error)).copies) < TotalLeft(t, s.published, s.copies)
  {
    PublishedHasLess(t, s, i, c, error);
    ReplacedByLess(t, s, PublishFailure(s, i, t[c], error), i);
  }

  lemma SuccessDecreases(t: Topology, s: State, i: nat, c: nat)
    requires c < |t| && At(s, i, Unacked(t[c].name)) && CopyOk(t, s.published, s.now, s.copies[i])
    ensures TotalLeft(t, s.published, Processed(s, i, t[c], None).copies) < TotalLeft(t, s.published, s.copies)
  {
    var handled := s.copies[i].(trace := Ran(s.copies[i].trace), place := Acked, since := s.now);
    assert Processed(s, i, t[c], None).copies == s.copies[i := handled];
    SumUpdate(s.copies, i, handled, LeftOf(t, s.published));
  }

  lemma DeliveryDecreases(t: Topology, s: State, i: nat, c: nat)
    requires WellFormed(t) && AllOk(t, s) && Enabled(t, s, Deliver(i, c))
    ensures TotalLeft(t, s.published, Next(t, s, Deliver(i, c)).copies) < TotalLeft(t, s.published, s.copies)
  {
    MainTells(t, s, i, c);
    TotalMove(t, s, i, Unacked(t[c].name));
  }

  // A message of the dead-letter queue is stored, or rejected when storing fails.
  lemma StoringDecreases(t: Topology, s: State, i: nat, c: nat, place: Place)
    requires WellFormed(t) && AllOk(t, s) && Enabled(t, s, StoreDead(i, c)) && (place.Stored? || place.Rejected?)
    ensures TotalLeft(t, s.published, Move(s, i, place).copies) < TotalLeft(t, s.published, s.copies)
  {
    DeadTells(t, s, i, c);
    MainIsNotDead(t, c);
    TotalMove(t, s, i, place);
  }

  lemma ExpiryDecreases(t: Topology, s: State, i: nat, c: nat)
    requires WellFormed(t) && AllOk(t, s) && Enabled(t, s, Expire(i, c))
    ensures TotalLeft(t, s.published, Next(t, s, Expire(i, c)).copies) < TotalLeft(t, s.published, s.copies)
  {
    var k: nat :| HasRole(t[c], Waiting(k)) && At(s, i, InQueue(RoleName(t[c], Waiting(k))))
      && s.copies[i].since + SlotTtl(t[c], k) <= s.now;
    WaitingTells(t, s, i, c, k);
    MainIsNotDead(t, c);
    assert RoleName(t[c], Waiting(k)) != RoleName(t[c], Main);
    TotalMove(t, s, i, InQueue(t[c].name));
  }

  /** Every delivery, success, failure, expiry and storing, failed or not, uses up some of what is left. */
  lemma WorkDecreases(t: Topology, s: State, e: Event)
    requires WellFormed(t) && AllBounded(t) && AllOk(t, s) && Enabled(t, s, e) && Work(e)
    ensures TotalLeft(t, s.published, Next(t, s, e).copies) < TotalLeft(t, s.published, s.copies)
  {
    match e {
      case Deliver(i, c) => DeliveryDecreases(t, s, i, c);
      case Succeed(i, c) => SuccessDecreases(t, s, i, c);
      case Fail(i, c, error) => FailureDecreases(t, s, i, c, error);
      case Expire(i, c) => ExpiryDecreases(t, s, i, c);
      case StoreDead(i, c) => StoringDecreases(t, s, i, c, Stored(t[c].deadLetterQueue.value, PENDING));
      case StoreFails(i, c) => StoringDecreases(t, s, i, c, Rejected);
    }
  }

  // The events of the list that are enabled when their turn comes, ticks apart.
  ghost function WorkDone(t: Topology, s: State, events: seq<Event>): nat
    decreases |events|
  {
    if events == [] then 0
    else if Enabled(t, s, events[0]) then
      (if events[0].Tick? then 0 else 1) + WorkDone(t, Next(t, s, events[0]), events[1..])
    else WorkDone(t, s, events[1..])
  }

  /** Termination: in any run without new publications, crashes and admin actions, however it is
      scheduled, the number of events that do something is bounded by the state it starts from. */
  lemma {:induction false} WorkIsBounded(t: Topology, s: State, events: seq<Event>)
    requires WellFormed(t) && AllBounded(t) && AllOk(t, s)
    requires forall e :: e in events ==> Work(e) || e.Tick?
    ensures WorkDone(t, s, events) <= TotalLeft(t, s.published, s.copies)
    decreases |events|
  {
    if events != [] {
      var e := events[0];
      assert e in events;
      if Enabled(t, s, e) {
        OkStep(t, s, e);
        if Work(e) {
          WorkDecreases(t, s, e);
        }
        WorkIsBounded(t, Next(t, s, e), events[1..]);
      } else {
        WorkIsBounded(t, s, events[1..]);
      }
    }
  }

  /** Progress: while something is left, some event is enabled once enough time has passed. */
  lemma NeverStuck(t: Topology, s: State) returns (d: nat, e: Event)
    requires WellFormed(t) && AllOk(t, s) && 0 < TotalLeft(t, s.published, s.copies)
    ensures Work(e) && !e.StoreFails? && Enabled(t, s.(now := s.now + d), e)
  {
    SumPositive(s.copies, LeftOf(t, s.published));
    var i: nat :| i < |s.copies| && 0 < Left(t, s.published, s.copies[i]);
    var copy := s.copies[i];
    assert CopyOk(t, s.published, s.now, copy);
    var c := s.published[copy.trace.id].home;
    d := 0;
    match copy.place {
      case InQueue(q) =>
        if q == t[c].name {
          e := Deliver(i, c);
        } else if t[c].deadLetterQueue == Some(q) {
          e := StoreDead(i, c);
        } else {
          var k := SlotOf(t[c], Attempt(copy.message));
          e := Expire(i, c);
          d := SlotTtl(t[c], k);
          assert HasRole(t[c], Waiting(k)) && At(s, i, InQueue(RoleName(t[c], Waiting(k))));
        }
      case Unacked(q) => e := Fail(i, c, "");
    }
  }

  // The message is handled, or a stored row; the row a republication left behind does not count.
  predicate IsSettled(s: State, id: nat) {
    exists copy :: copy in s.copies && copy.trace.id == id && Stands(copy) && (copy.place.Acked? || copy.place.Stored?)
  }

  /** When nothing is left after any run, every published message whose storing never failed is
      handled or a stored row that is not RETRIED, whatever became of it before. */
  lemma FinishedMeansSettled(t: Topology, events: seq<Event>, id: nat)
    requires WellFormed(t) && id < |Run(t, INITIAL, events).published| && Losses(t, INITIAL, events, id) == 0
    requires TotalLeft(t, Run(t, INITIAL, events).published, Run(t, INITIAL, events).copies) == 0
    ensures IsSettled(Run(t, INITIAL, events), id)
  {
    var s := Run(t, INITIAL, events);
    OkRun(t, INITIAL, events);
    MessagesAreConserved(t, events, id);
    SumPositive(s.copies, WeightOf(id));
    var i :| 0 <= i < |s.copies| && 0 < Weight(s.copies[i], id);
    assert CopyOk(t, s.published, s.now, s.copies[i]);
    SumPositive(s.copies, LeftOf(t, s.published));
    assert LeftOf(t, s.published)(s.copies[i]) == 0;
  }

  lemma RunTickThen(t: Topology, s: State, d: nat, e: Event, rest: seq<Event>)
    requires Enabled(t, s.(now := s.now + d), e)
    ensures Run(t, s, [Tick(d), e] + rest) == Run(t, Next(t, s.(now := s.now + d), e), rest)
  {
    var events := [Tick(d), e] + rest;
    assert events[1..] == [e] + rest && events[1..][1..] == rest;
    assert Next(t, s, Tick(d)) == s.(now := s.now + d);
    assert Run(t, s, events) == Run(t, s.(now := s.now + d), events[1..]);
  }

  /** From every reachable state some run of time and work, without a failed storing, leaves nothing
      to do. */
  lemma {:induction false} CanAlwaysFinish(t: Topology, s: State) returns (events: seq<Event>)
    requires WellFormed(t) && AllBounded(t) && AllOk(t, s)
    ensures forall e :: e in events ==> (Work(e) && !e.StoreFails?) || e.Tick?
    ensures var s' := Run(t, s, events);
            TotalLeft(t, s'.published, s'.copies) == 0
    decreases TotalLeft(t, s.published, s.copies)
  {
    if TotalLeft(t, s.published, s.copies) == 0 {
      events := [];
    } else {
      var d, e := NeverStuck(t, s);
      OkTick(t, s, d);
      OkStep(t, s.(now := s.now + d), e);
      WorkDecreases(t, s.(now := s.now + d), e);
      var rest := CanAlwaysFinish(t, Next(t, s.(now := s.now + d), e));
      events := [Tick(d), e] + rest;
      RunTickThen(t, s, d, e, rest);
    }
  }

  lemma {:induction false} RunConcat(t: Topology, s: State, a: seq<Event>, b: seq<Event>, id: nat)
    ensures Run(t, s, a + b) == Run(t, Run(t, s, a), b)
    ensures Losses(t, s, a + b, id) == Losses(t, s, a, id) + Losses(t, Run(t, s, a), b, id)
    decreases |a|
  {
    if a == [] {
      assert a + b == b;
    } else {
      assert (a + b)[1..] == a[1..] + b;
      RunConcat(t, if Enabled(t, s, a[0]) then Next(t, s, a[0]) else s, a[1..], b, id);
    }
  }

  lemma {:induction false} NoFailedStoring(t: Topology, s: State, events: seq<Event>, id: nat)
    requires forall e :: e in events ==> !e.StoreFails?
    ensures Losses(t, s, events, id) == 0
    decreases |events|
  {
    if events != [] {
      assert events[0] in events;
      NoFailedStoring(t, if Enabled(t, s, events[0]) then Next(t, s, events[0]) else s, events[1..], id);
    }
  }

  /** Every run, whatever it did, can be continued by time and work alone so that every published message
      whose storing had not failed is handled or a stored row that is not RETRIED, and nothing is left
      to do. */
  lemma EveryMessageCanSettle(t: Topology, events: seq<Event>) returns (more: seq<Event>)
    requires WellFormed(t) && AllBounded(t)
    ensures forall e :: e in more ==> (Work(e) && !e.StoreFails?) || e.Tick?
    ensures var s := Run(t, INITIAL, events + more);
            && TotalLeft(t, s.published, s.copies) == 0
            && forall id :: 0 <= id < |s.published| && Losses(t, INITIAL, events, id) == 0 ==> IsSettled(s, id)
  {
    OkRun(t, INITIAL, events);
    more := CanAlwaysFinish(t, Run(t, INITIAL, events));
    RunConcat(t, INITIAL, events, more, 0);
    var s := Run(t, INITIAL, events + more);
    forall id | 0 <= id < |s.published| && Losses(t, INITIAL, events, id) == 0
      ensures IsSettled(s, id)
    {
      RunConcat(t, INITIAL, events, more, id);
      NoFailedStoring(t, Run(t, INITIAL, events), more, id);
      FinishedMeansSettled(t, events + more, id);
    }
  }

  // ---------- Endless configurations ----------

  lemma FailsAgain(t: Topology, s: State, i: nat, c: nat)
    requires WellFormed(t) && AllOk(t, s) && c < |t| && Endless(t[c]) && At(s, i, InQueue(t[c].name))
    ensures Enabled(t, Next(t, s, Deliver(i, c)), Fail(i, c, ""))
    ensures var s', j := Next(t, Next(t, s, Deliver(i, c)), Fail(i, c, "")), |s.copies|;
            && AllOk(t, s') && At(s', j, InQueue(RoleName(t[c], Waiting(0)))) && s'.copies[j].since == s'.now
            && Attempt(s'.copies[j].message) == Attempt(s.copies[i].message) + 1
  {
    OkStep(t, s, Deliver(i, c));
    OkStep(t, Next(t, s, Deliver(i, c)), Fail(i, c, ""));
  }

  lemma WaitEnds(t: Topology, s: State, j: nat, c: nat) returns (ttl: nat)
    requires WellFormed(t) && AllOk(t, s) && c < |t| && Endless(t[c])
    requires At(s, j, InQueue(RoleName(t[c], Waiting(0)))) && s.copies[j].since == s.now
    ensures Enabled(t, s.(now := s.now + ttl), Expire(j, c))
    ensures AllOk(t, Move(s.(now := s.now + ttl), j, InQueue(t[c].name)))
  {
    ttl := SlotTtl(t[c], 0);
    var waited := s.(now := s.now + ttl);
    assert HasRole(t[c], Waiting(0)) && At(waited, j, InQueue(RoleName(t[c], Waiting(0))));
    OkTick(t, s, ttl);
    OkStep(t, waited, Expire(j, c));
  }

  /** A message of an endless configuration can be retried any number of times: one more failure
      brings it back to its main queue with the next attempt count. */
  lemma EndlessComesBack(t: Topology, s: State, i: nat, c: nat) returns (events: seq<Event>)
    requires WellFormed(t) && AllOk(t, s) && c < |t| && Endless(t[c]) && At(s, i, InQueue(t[c].name))
    ensures var s' := Run(t, s, events);
            && AllOk(t, s')
            && At(s', |s.copies|, InQueue(t[c].name))
            && Attempt(s'.copies[|s.copies|].message) == Attempt(s.copies[i].message) + 1
  {
    FailsAgain(t, s, i, c);
    var s1 := Next(t, s, Deliver(i, c));
    var s2 := Next(t, s1, Fail(i, c, ""));
    var j := |s.copies|;
    var ttl := WaitEnds(t, s2, j, c);
    var rest := [Tick(ttl), Expire(j, c)];
    RunTickThen(t, s2, ttl, Expire(j, c), []);
    assert [Tick(ttl), Expire(j, c)] + [] == rest;
    events := [Deliver(i, c), Fail(i, c, "")] + rest;
    assert events[1..] == [Fail(i, c, "")] + rest && events[1..][1..] == rest;
    assert Run(t, s, events) == Run(t, s1, events[1..]);
    assert Run(t, s1, events[1..]) == Run(t, s2, rest);
  }
}
