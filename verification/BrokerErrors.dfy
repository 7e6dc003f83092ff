/** The error that a dead-lettered message carries, over whole runs. */
module BrokerErrors {
  import opened Wrappers
  import opened Queues
  import opened Broker
  import opened BrokerRows
  import opened BrokerRuns

  /** The event is a failure, at the spent budget, of this copy's message in the same life, with the error
      that the copy carries; its rejection may have been prevented by a crash. */
  ghost predicate Killed(t: Topology, s: State, e: Event, copy: Copy) {
    && Enabled(t, s, e) && (e.Fail? || e.CrashAfterPublish?)
    && copy.message.headers.error == Some(e.error)
    && var delivery := s.copies[e.i];
       && delivery.place == Unacked(t[e.c].name)
       && delivery.trace.id == copy.trace.id && delivery.trace.life == copy.trace.life
       && delivery.message.body == copy.message.body
       && Attempt(delivery.message) == Attempt(copy.message) == Budget(t[e.c])
  }

  // The same message in the same life, wherever it is.
  predicate SameMessage(a: Copy, b: Copy) {
    (a.message, a.trace.id, a.trace.life) == (b.message, b.trace.id, b.trace.life)
  }

  // No event touches the message of a copy that is there.
  lemma MessagesStay(t: Topology, s: State, e: Event, i: nat)
    requires WellFormed(t) && Enabled(t, s, e) && i < |s.copies|
    ensures i < |Next(t, s, e).copies| && SameMessage(s.copies[i], Next(t, s, e).copies[i])
  {
    if e.RetryAction? {
      RetryRowsTouch(s, e.pks);
    } else if e.Fail? || e.CrashAfterPublish? {
      assert PublishFailure(s, e.i, t[e.c], e.error).copies[i] == s.copies[i];
    }
  }

  lemma FailureKills(t: Topology, s: State, e: Event)
    requires WellFormed(t) && AllOk(t, s) && Enabled(t, s, e) && (e.Fail? || e.CrashAfterPublish?)
    ensures forall i :: |s.copies| <= i < |Next(t, s, e).copies| ==>
              Next(t, s, e).copies[i].message.headers.error.None? || Killed(t, s, e, Next(t, s, e).copies[i])
  {
    MainTells(t, s, e.i, e.c);
    assert CopyOk(t, s.published, s.now, s.copies[e.i]);
    RouteByBudget(t[e.c], Attempt(s.copies[e.i].message));
  }

  // A copy that carries an error is an earlier one, or a second one of an earlier one, or the event
  // is its failure.
  lemma ErrorStep(t: Topology, s: State, e: Event, i: nat)
    requires WellFormed(t) && AllOk(t, s) && Enabled(t, s, e) && |s.copies| <= i < |Next(t, s, e).copies|
    requires Next(t, s, e).copies[i].message.headers.error.Some?
    ensures Killed(t, s, e, Next(t, s, e).copies[i]) ||
            (e.CrashAfterStore? && SameMessage(s.copies[e.i], Next(t, s, e).copies[i]))
  {
    if e.Fail? || e.CrashAfterPublish? {
      FailureKills(t, s, e);
    } else if e.RetryAction? {
      var _ := RetryRowsAdd(s, e.pks, i);
    } else if e.CrashInRetry? {
      var _ := RetryRowsAdd(s, e.pks[..e.k], i);
    }
  }

  lemma {:induction false} RunLast(t: Topology, s: State, events: seq<Event>)
    requires events != []
    ensures var before, e := Run(t, s, events[..|events| - 1]), events[|events| - 1];
            Run(t, s, events) == if Enabled(t, before, e) then Next(t, before, e) else before
    decreases |events|
  {
    if 1 < |events| {
      var next := if Enabled(t, s, events[0]) then Next(t, s, events[0]) else s;
      assert events[..|events| - 1][1..] == events[1..][..|events| - 2];
      RunLast(t, next, events[1..]);
    }
  }

  // A dead-lettered message or a stored row.
  ghost predicate IsDead(t: Topology, copy: Copy) {
    || copy.place.Stored?
    || (copy.place.InQueue? && exists c :: 0 <= c < |t| && t[c].deadLetterQueue == Some(copy.place.queue))
  }

  lemma DeadCarryAnError(t: Topology, s: State, i: nat)
    requires WellFormed(t) && AllOk(t, s) && i < |s.copies| && IsDead(t, s.copies[i])
    ensures s.copies[i].message.headers.error.Some?
  {
    assert CopyOk(t, s.published, s.now, s.copies[i]);
    if s.copies[i].place.InQueue? {
      var c: nat :| c < |t| && t[c].deadLetterQueue == Some(s.copies[i].place.queue);
      DeadTells(t, s, i, c);
      MainIsNotDead(t, c);
    }
  }

  /** In every reachable state, crashes and overlapping retries included, a message in a dead-letter queue
      and a stored row carry an error, and whatever carries one carries that of a failure of the run:
      one that its handler met on that very message, body and attempt count included, when its budget
      was spent. */
  lemma {:induction false} ErrorsAreTheFailures(t: Topology, events: seq<Event>, i: nat) returns (k: nat)
    requires WellFormed(t) && i < |Run(t, INITIAL, events).copies|
    requires var copy := Run(t, INITIAL, events).copies[i];
             IsDead(t, copy) || copy.message.headers.error.Some?
    ensures k < |events| && Killed(t, Run(t, INITIAL, events[..k]), events[k], Run(t, INITIAL, events).copies[i])
    decreases |events|
  {
    OkRun(t, INITIAL, events);
    if IsDead(t, Run(t, INITIAL, events).copies[i]) {
      DeadCarryAnError(t, Run(t, INITIAL, events), i);
    }
    var init, e := events[..|events| - 1], events[|events| - 1];
    var s := Run(t, INITIAL, init);
    RunLast(t, INITIAL, events);
    OkRun(t, INITIAL, init);
    if !Enabled(t, s, e) {
      k := ErrorsAreTheFailures(t, init, i);
    } else if i < |s.copies| {
      MessagesStay(t, s, e, i);
      k := ErrorsAreTheFailures(t, init, i);
    } else {
      ErrorStep(t, s, e, i);
      k := |init|;
      if !Killed(t, s, e, Next(t, s, e).copies[i]) {
        k := ErrorsAreTheFailures(t, init, e.i);
      }
    }
    assert k < |init| ==> init[..k] == events[..k];
  }
}
