/** The life cycle of stored dead-lettered rows over whole runs. */
module BrokerLifeCycle {
  import opened Wrappers
  import opened Sums
  import opened Queues
  import opened Broker
  import opened BrokerRows
  import opened BrokerRuns

  // ---------- A row's status ----------

  predicate IsRow(s: State, pk: nat) {
    pk < |s.copies| && s.copies[pk].place.Stored?
  }

  // A retry marks a row that was discarded after it read it.
  predicate Overwrites(s: State, e: Event, pk: nat) {
    && e.RetryCommit? && e.k < |s.retries| && s.retries[e.k].pk == pk
    && IsRow(s, pk) && s.copies[pk].place.status == DISCARDED
  }

  // What an event may do to a stored row.
  predicate StatusMoves(row: Copy, row': Copy, overwritten: bool) {
    && row.place.Stored?
    && var marked, discarded := Stored(row.place.queue, RETRIED), Stored(row.place.queue, DISCARDED);
       || (row' == row && !overwritten)
       || (row.place.status == PENDING && (row' == row.(place := marked) || row' == row.(place := discarded)))
       || (row.place.status == DISCARDED && overwritten && row' == row.(place := marked))
  }

  lemma StatusRetried(s: State, pks: seq<nat>, pk: nat)
    requires IsRow(s, pk)
    ensures IsRow(RetryRows(s, pks), pk) && StatusMoves(s.copies[pk], RetryRows(s, pks).copies[pk], false)
  {
    RetryRowsTouch(s, pks);
  }

  // A failed delivery leaves the stored rows alone.
  lemma StatusFailed(s: State, i: nat, c: QueueConfig, error: string, place: Place, pk: nat)
    requires IsRow(s, pk) && At(s, i, Unacked(c.name))
    ensures var failed := PublishFailure(s, i, c, error);
            && i < |failed.copies| && IsRow(Move(failed, i, place), pk)
            && Move(failed, i, place).copies[pk] == s.copies[pk]
  {
    assert PublishFailure(s, i, c, error).copies[pk] == s.copies[pk];
  }

  lemma StatusStep(t: Topology, s: State, e: Event, pk: nat)
    requires WellFormed(t) && Enabled(t, s, e) && IsRow(s, pk)
    ensures IsRow(Next(t, s, e), pk) && StatusMoves(s.copies[pk], Next(t, s, e).copies[pk], Overwrites(s, e, pk))
  {
    match e {
      case RetryAction(pks) => StatusRetried(s, pks, pk);
      case Fail(i, c, error) => StatusFailed(s, i, t[c], error, Rejected, pk);
      case CrashAfterPublish(i, c, error) => StatusFailed(s, i, t[c], error, InQueue(t[c].name), pk);
      case _ =>
    }
  }

  // How often the place of a stored row changes in a run.
  ghost function StatusChanges(t: Topology, s: State, events: seq<Event>, pk: nat): nat
    decreases |events|
  {
    if events == [] then 0
    else if !Enabled(t, s, events[0]) then StatusChanges(t, s, events[1..], pk)
    else
      var s' := Next(t, s, events[0]);
      (if IsRow(s, pk) && pk < |s'.copies| && s'.copies[pk] != s.copies[pk] then 1 else 0)
      + StatusChanges(t, s', events[1..], pk)
  }

  // How often a retry marks the row after it was discarded.
  ghost function OverwritesIn(t: Topology, s: State, events: seq<Event>, pk: nat): nat
    decreases |events|
  {
    if events == [] then 0
    else if !Enabled(t, s, events[0]) then OverwritesIn(t, s, events[1..], pk)
    else (if Overwrites(s, events[0], pk) then 1 else 0) + OverwritesIn(t, Next(t, s, events[0]), events[1..], pk)
  }

  // The row has left PENDING.
  predicate Decided(s: State, pk: nat) {
    IsRow(s, pk) && s.copies[pk].place.status != PENDING
  }

  /** Over any run a row that is RETRIED stays as it is, and one that is DISCARDED does if and only if no
      retry marks it that read it before. */
  lemma {:induction false} StatusIsFinal(t: Topology, s: State, events: seq<Event>, pk: nat)
    requires WellFormed(t) && Decided(s, pk)
    ensures IsRow(Run(t, s, events), pk)
    ensures Run(t, s, events).copies[pk] == s.copies[pk] <==> OverwritesIn(t, s, events, pk) == 0
    ensures s.copies[pk].place.status == RETRIED ==> OverwritesIn(t, s, events, pk) == 0
    ensures StatusChanges(t, s, events, pk) == OverwritesIn(t, s, events, pk) <= 1
    ensures OverwritesIn(t, s, events, pk) == 1 ==> Run(t, s, events).copies[pk].place.status == RETRIED
    decreases |events|
  {
    if events != [] {
      if Enabled(t, s, events[0]) {
        StatusStep(t, s, events[0], pk);
        StatusIsFinal(t, Next(t, s, events[0]), events[1..], pk);
      } else {
        StatusIsFinal(t, s, events[1..], pk);
      }
    }
  }

  lemma RetryDecidesRows(s: State, pks: seq<nat>, pk: nat)
    requires !IsRow(s, pk)
    ensures !Decided(RetryRows(s, pks), pk) && !Decided(Uncommitted(s, pks), pk)
  {
    RetryRowsTouch(s, pks);
  }

  lemma NewRowIsPending(t: Topology, s: State, e: Event, pk: nat)
    requires WellFormed(t) && Enabled(t, s, e) && !IsRow(s, pk)
    ensures !Decided(Next(t, s, e), pk)
  {
    if e.RetryAction? {
      RetryDecidesRows(s, e.pks, pk);
    } else if e.CrashInRetry? {
      RetryDecidesRows(s, e.pks[..e.k], pk);
    }
  }

  lemma {:induction false} StatusRun(t: Topology, s: State, events: seq<Event>, pk: nat)
    requires WellFormed(t) && !Decided(s, pk)
    ensures StatusChanges(t, s, events, pk) ==
            (if Decided(Run(t, s, events), pk) then 1 else 0) + OverwritesIn(t, s, events, pk)
    ensures OverwritesIn(t, s, events, pk) <= if Decided(Run(t, s, events), pk) then 1 else 0
    decreases |events|
  {
    if events != [] {
      var e := events[0];
      if !Enabled(t, s, e) {
        StatusRun(t, s, events[1..], pk);
      } else {
        var s' := Next(t, s, e);
        if IsRow(s, pk) {
          StatusStep(t, s, e, pk);
        } else {
          NewRowIsPending(t, s, e, pk);
        }
        if Decided(s', pk) {
          StatusIsFinal(t, s', events[1..], pk);
        } else {
          StatusRun(t, s', events[1..], pk);
        }
      }
    }
  }

  // What a retry action holds of a row stays true of it.
  lemma AsReadStep(t: Topology, s: State, e: Event, r: Retrying)
    requires WellFormed(t) && Enabled(t, s, e) && AsRead(s, r)
    ensures AsRead(Next(t, s, e), r)
  {
    StatusStep(t, s, e, r.pk);
  }

  ghost predicate AllAsRead(s: State) {
    forall k :: 0 <= k < |s.retries| ==> AsRead(s, s.retries[k])
  }

  lemma AllAsReadStep(t: Topology, s: State, e: Event)
    requires WellFormed(t) && AllOk(t, s) && Enabled(t, s, e) && AllAsRead(s)
    ensures AllAsRead(Next(t, s, e))
  {
    var s' := Next(t, s, e);
    if !e.RetrySelect? && !e.RetrySend? && !e.RetryCommit? && !e.RetryDies? {
      RetriesKept(t, s, e);
    }
    forall k | 0 <= k < |s'.retries|
      ensures AsRead(s', s'.retries[k])
    {
      if k < |s.retries| {
        AsReadStep(t, s, e, s.retries[k]);
      }
    }
  }

  /** In every reachable state a row in the hands of a retry action is there as it was read, its status
      apart, so no step of an action is ever refused for its sake. */
  lemma {:induction false} AsReadRun(t: Topology, s: State, events: seq<Event>)
    requires WellFormed(t) && AllOk(t, s) && AllAsRead(s)
    ensures AllAsRead(Run(t, s, events))
    decreases |events|
  {
    if events != [] {
      if Enabled(t, s, events[0]) {
        OkStep(t, s, events[0]);
        AllAsReadStep(t, s, events[0]);
        AsReadRun(t, Next(t, s, events[0]), events[1..]);
      } else {
        AsReadRun(t, s, events[1..]);
      }
    }
  }

  // ---------- A row's republications ----------

  // The copy was republished from the row pk: later copies of the same life carry headers.
  predicate FromRow(copy: Copy, pk: nat) {
    copy.trace.row == Some(pk) && copy.message.headers == NO_HEADERS
  }

  function RootOf(pk: nat): Copy -> nat {
    copy => if FromRow(copy, pk) then 1 else 0
  }

  function RootsOf(copies: seq<Copy>, pk: nat): nat {
    Sum(copies, RootOf(pk))
  }

  // The row is marked RETRIED and had a queue to go to.
  predicate WentBack(s: State, pk: nat) {
    && pk < |s.copies| && s.copies[pk].place.Stored? && s.copies[pk].place.status == RETRIED
    && OriginalQueue(s.copies[pk].message, s.copies[pk].place.queue) != ""
  }

  function Marks(s: State, pk: nat): nat {
    if WentBack(s, pk) then 1 else 0
  }

  // The event republishes the row in an action that does not commit, or ends one that had.
  function Interrupted(s: State, e: Event, pk: nat): nat {
    match e
    case CrashInRetry(pks, k) => if k <= |pks| && pk in Retryable(s, pks[..k]) then 1 else 0
    case RetryDies(k) => if k < |s.retries| then InAir(s.retries[k], pk) else 0
    case _ => 0
  }

  // The action has republished the row and not marked it yet.
  function InAir(r: Retrying, pk: nat): nat {
    if r.phase.Sent? && QueueOf(r) != "" && r.pk == pk then 1 else 0
  }

  function InAirIn(pk: nat): Retrying -> nat {
    r => InAir(r, pk)
  }

  function InAirOf(retries: seq<Retrying>, pk: nat): nat {
    Sum(retries, InAirIn(pk))
  }

  // The action republished a row that another one has marked meanwhile.
  function Overlapping(s: State, e: Event, pk: nat): nat {
    if e.RetryCommit? && e.k < |s.retries| && IsRetried(s, pk) then InAir(s.retries[e.k], pk) else 0
  }

  // The row balance of a state: copies republished from the row, less the mark on it.
  function Balance(s: State, pk: nat): int {
    RootsOf(s.copies, pk) - Marks(s, pk)
  }

  lemma BalanceMove(s: State, i: nat, place: Place, pk: nat)
    requires i < |s.copies| && !s.copies[i].place.Stored? && (place.Stored? ==> place.status == PENDING)
    ensures Balance(Move(s, i, place), pk) == Balance(s, pk)
  {
    SumSame(s.copies, Move(s, i, place).copies, RootOf(pk));
  }

  lemma BalanceAppend(s: State, copy: Copy, pk: nat)
    requires !FromRow(copy, pk) && (copy.place.Stored? ==> copy.place.status == PENDING)
    ensures Balance(s.(copies := s.copies + [copy]), pk) == Balance(s, pk)
  {
    SumAppend(s.copies, copy, RootOf(pk));
  }

  lemma BalanceSuccess(s: State, i: nat, c: QueueConfig, pk: nat)
    requires At(s, i, Unacked(c.name))
    ensures Balance(Processed(s, i, c, None), pk) == Balance(s, pk)
  {
    SumSame(s.copies, Processed(s, i, c, None).copies, RootOf(pk));
  }

  lemma BalanceDiscard(s: State, pks: seq<nat>, pk: nat)
    ensures Balance(DiscardRows(s, pks), pk) == Balance(s, pk)
  {
    SumSame(s.copies, DiscardRows(s, pks).copies, RootOf(pk));
  }

  function MarkRow(s: State, row: nat): State
    requires PendingRow(s, row)
  {
    s.(copies := s.copies[row := s.copies[row].(place := Stored(s.copies[row].place.queue, RETRIED))])
  }

  lemma BalanceMarkRow(s: State, row: nat, pk: nat)
    requires PendingRow(s, row)
    ensures Balance(MarkRow(s, row), pk) == Balance(s, pk) - if row == pk && row in Retryable(s, [row]) then 1 else 0
  {
    SumSame(s.copies, MarkRow(s, row).copies, RootOf(pk));
  }

  lemma RetryRowMarks(s: State, row: nat) returns (added: Copy)
    requires PendingRow(s, row)
    ensures RetryRow(s, row) ==
            if row in Retryable(s, [row])
            then MarkRow(s, row).(copies := MarkRow(s, row).copies + [added])
            else MarkRow(s, row)
    ensures added.place.InQueue? && forall pk :: FromRow(added, pk) <==> pk == row
  {
    var copy := s.copies[row];
    added := Copy(Message(Republished(copy.message.body), NO_HEADERS),
                  InQueue(OriginalQueue(copy.message, copy.place.queue)), s.now,
                  Relived(copy.trace, row, s.now));
    if row in Retryable(s, [row]) {
      assert (s.copies + [added])[row := MarkRow(s, row).copies[row]] == MarkRow(s, row).copies + [added];
    }
  }

  lemma BalanceRetryRow(s: State, row: nat, pk: nat)
    ensures Balance(RetryRow(s, row), pk) == Balance(s, pk)
  {
    if PendingRow(s, row) {
      BalanceMarkRow(s, row, pk);
      var added := RetryRowMarks(s, row);
      SumAppend(MarkRow(s, row).copies, added, RootOf(pk));
    }
  }

  lemma {:induction false} BalanceRetryRows(s: State, pks: seq<nat>, pk: nat)
    ensures Balance(RetryRows(s, pks), pk) == Balance(s, pk)
    decreases |pks|
  {
    if pks != [] {
      BalanceRetryRows(s, pks[..|pks| - 1], pk);
      BalanceRetryRow(RetryRows(s, pks[..|pks| - 1]), pks[|pks| - 1], pk);
    }
  }

  lemma MarksAdded(s: State, pks: seq<nat>, pk: nat)
    ensures Marks(RetryRows(s, pks), pk) == Marks(s, pk) + if pk in Retryable(s, pks) then 1 else 0
    ensures RootsOf(RetryRows(s, pks).copies[..|s.copies|], pk) == RootsOf(s.copies, pk)
  {
    RetryRowsTouch(s, pks);
    SumSame(s.copies, RetryRows(s, pks).copies[..|s.copies|], RootOf(pk));
  }

  lemma BalanceUncommitted(s: State, pks: seq<nat>, pk: nat)
    ensures Balance(Uncommitted(s, pks), pk) == Balance(s, pk) + if pk in Retryable(s, pks) then 1 else 0
  {
    var n, after := |s.copies|, RetryRows(s, pks);
    BalanceRetryRows(s, pks, pk);
    MarksAdded(s, pks, pk);
    assert after.copies == after.copies[..n] + after.copies[n..];
    SumConcat(after.copies[..n], after.copies[n..], RootOf(pk));
    SumConcat(s.copies, after.copies[n..], RootOf(pk));
  }

  // Events that only move a copy that is no stored row yet.
  lemma BalanceMoved(t: Topology, s: State, e: Event, pk: nat)
    requires Enabled(t, s, e) && (e.Deliver? || e.Expire? || e.StoreDead? || e.StoreFails? || e.Crash?)
    ensures Balance(Next(t, s, e), pk) == Balance(s, pk)
  {
    match e {
      case Deliver(i, c) => BalanceMove(s, i, Unacked(t[c].name), pk);
      case Expire(i, c) => BalanceMove(s, i, InQueue(t[c].name), pk);
      case StoreDead(i, c) => BalanceMove(s, i, Stored(t[c].deadLetterQueue.value, PENDING), pk);
      case StoreFails(i, c) => BalanceMove(s, i, Rejected, pk);
      case Crash(i, c) => BalanceMove(s, i, InQueue(t[c].name), pk);
    }
  }

  lemma BalanceFailed(t: Topology, s: State, i: nat, c: nat, error: string, place: Place, pk: nat)
    requires c < |t| && At(s, i, Unacked(t[c].name)) && (place.Rejected? || place.InQueue?)
    ensures Balance(Move(PublishFailure(s, i, t[c], error), i, place), pk) == Balance(s, pk)
  {
    var s' := PublishFailure(s, i, t[c], error);
    if s'.copies != s.copies {
      assert s' == s.(copies := s.copies + [s'.copies[|s.copies|]]);
      BalanceAppend(s, s'.copies[|s.copies|], pk);
    }
    BalanceMove(s', i, place, pk);
  }

  lemma BalanceStoredTwice(t: Topology, s: State, i: nat, c: nat, pk: nat)
    requires WellFormed(t) && AllOk(t, s) && Enabled(t, s, CrashAfterStore(i, c))
    ensures Balance(Next(t, s, CrashAfterStore(i, c)), pk) == Balance(s, pk)
  {
    DeadTells(t, s, i, c);
    BalanceAppend(s, s.copies[i].(place := Stored(t[c].deadLetterQueue.value, PENDING)), pk);
  }

  lemma BalanceAtomic(t: Topology, s: State, e: Event, pk: nat)
    requires WellFormed(t) && AllOk(t, s) && Enabled(t, s, e)
    requires !e.RetrySelect? && !e.RetrySend? && !e.RetryCommit? && !e.RetryDies?
    ensures Balance(Next(t, s, e), pk) == Balance(s, pk) + Interrupted(s, e, pk)
  {
    if e.Publish? {
      var trace := Trace(|s.published|, 0, None, 0, 0, s.now);
      BalanceAppend(s, Copy(Message(e.body, NO_HEADERS), InQueue(t[e.c].name), s.now, trace), pk);
    } else if e.Succeed? {
      BalanceSuccess(s, e.i, t[e.c], pk);
    } else if e.Fail? {
      BalanceFailed(t, s, e.i, e.c, e.error, Rejected, pk);
    } else if e.RetryAction? {
      BalanceRetryRows(s, e.pks, pk);
    } else if e.DiscardAction? {
      BalanceDiscard(s, e.pks, pk);
    } else if e.CrashAfterPublish? {
      BalanceFailed(t, s, e.i, e.c, e.error, InQueue(t[e.c].name), pk);
    } else if e.CrashAfterStore? {
      BalanceStoredTwice(t, s, e.i, e.c, pk);
    } else if e.CrashInRetry? {
      BalanceUncommitted(s, e.pks[..e.k], pk);
    } else if !e.Tick? {
      BalanceMoved(t, s, e, pk);
    }
  }

  // The row balance, less what actions have republished and not marked yet.
  function Landed(s: State, pk: nat): int {
    Balance(s, pk) - InAirOf(s.retries, pk)
  }

  lemma SendAddsARoot(s: State, k: nat, pk: nat)
    requires k < |s.retries| && QueueOf(s.retries[k]) != ""
    ensures var s' := SendRow(s, k);
            && RootsOf(s'.copies, pk) == RootsOf(s.copies, pk) + (if s.retries[k].pk == pk then 1 else 0)
            && s.copies <= s'.copies && s'.retries == s.retries[k := s.retries[k].(phase := Sent)]
  {
    SumAppend(s.copies, SendRow(s, k).copies[|s.copies|], RootOf(pk));
  }

  lemma LandedSend(t: Topology, s: State, k: nat, pk: nat)
    requires Enabled(t, s, RetrySend(k))
    ensures Landed(SendRow(s, k), pk) == Landed(s, pk)
  {
    var r, sent := s.retries[k], SendRow(s, k);
    SumUpdate(s.retries, k, r.(phase := Sent), InAirIn(pk));
    if QueueOf(r) != "" {
      SendAddsARoot(s, k, pk);
    }
    assert Marks(sent, pk) == Marks(s, pk);
  }

  lemma LandedCommit(t: Topology, s: State, k: nat, pk: nat)
    requires Enabled(t, s, RetryCommit(k))
    ensures Landed(CommitRow(s, k), pk) == Landed(s, pk) + Overlapping(s, RetryCommit(k), pk)
  {
    var r := s.retries[k];
    SumUpdate(s.retries, k, r.(phase := Closed), InAirIn(pk));
    SumSame(s.copies, CommitRow(s, k).copies, RootOf(pk));
  }

  lemma LandedAtomic(t: Topology, s: State, e: Event, pk: nat)
    requires WellFormed(t) && AllOk(t, s) && Enabled(t, s, e)
    requires !e.RetrySelect? && !e.RetrySend? && !e.RetryCommit? && !e.RetryDies?
    ensures Landed(Next(t, s, e), pk) == Landed(s, pk) + Interrupted(s, e, pk)
  {
    RetriesKept(t, s, e);
    BalanceAtomic(t, s, e, pk);
  }

  lemma LandedStep(t: Topology, s: State, e: Event, pk: nat)
    requires WellFormed(t) && AllOk(t, s) && Enabled(t, s, e)
    ensures Landed(Next(t, s, e), pk) == Landed(s, pk) + Interrupted(s, e, pk) + Overlapping(s, e, pk)
  {
    if e.RetrySelect? {
      SumAppend(s.retries, Retrying(e.pk, s.copies[e.pk], Selected), InAirIn(pk));
    } else if e.RetrySend? {
      LandedSend(t, s, e.k, pk);
    } else if e.RetryCommit? {
      LandedCommit(t, s, e.k, pk);
    } else if e.RetryDies? {
      SumUpdate(s.retries, e.k, s.retries[e.k].(phase := Closed), InAirIn(pk));
    } else {
      LandedAtomic(t, s, e, pk);
    }
  }

  // How often an action that died before its commit republished the row.
  ghost function Interruptions(t: Topology, s: State, events: seq<Event>, pk: nat): nat
    decreases |events|
  {
    if events == [] then 0
    else if Enabled(t, s, events[0]) then
      Interrupted(s, events[0], pk) + Interruptions(t, Next(t, s, events[0]), events[1..], pk)
    else Interruptions(t, s, events[1..], pk)
  }

  // How often an action marked the row after another one had.
  ghost function OverlapsOf(t: Topology, s: State, events: seq<Event>, pk: nat): nat
    decreases |events|
  {
    if events == [] then 0
    else if Enabled(t, s, events[0]) then
      Overlapping(s, events[0], pk) + OverlapsOf(t, Next(t, s, events[0]), events[1..], pk)
    else OverlapsOf(t, s, events[1..], pk)
  }

  lemma {:induction false} LandedRun(t: Topology, s: State, events: seq<Event>, pk: nat)
    requires WellFormed(t) && AllOk(t, s)
    ensures Landed(Run(t, s, events), pk) ==
            Landed(s, pk) + Interruptions(t, s, events, pk) + OverlapsOf(t, s, events, pk)
    decreases |events|
  {
    if events != [] {
      var e := events[0];
      if Enabled(t, s, e) {
        OkStep(t, s, e);
        LandedStep(t, s, e, pk);
        LandedRun(t, Next(t, s, e), events[1..], pk);
      } else {
        LandedRun(t, s, events[1..], pk);
      }
    }
  }

  /** Over any run of deliveries, admin actions, overlapping or not, and crashes, with any lists of ids.
      The status of a row changes once if it has left PENDING, and once more if and only if a retry
      marked it that had read it before a discard. The row has been republished once if it is marked
      RETRIED and had a queue, and once more for each retry that died before its commit, marked it
      after another one had, or has not marked it yet. */
  lemma RowLifeCycle(t: Topology, events: seq<Event>, pk: nat)
    requires WellFormed(t)
    ensures var s := Run(t, INITIAL, events);
            && StatusChanges(t, INITIAL, events, pk)
               == (if Decided(s, pk) then 1 else 0) + OverwritesIn(t, INITIAL, events, pk) <= 2
            && RootsOf(s.copies, pk)
               == Marks(s, pk) + Interruptions(t, INITIAL, events, pk) + OverlapsOf(t, INITIAL, events, pk)
                  + InAirOf(s.retries, pk)
  {
    StatusRun(t, INITIAL, events, pk);
    LandedRun(t, INITIAL, events, pk);
  }

  lemma CommitKeepsRoots(s: State, k: nat, pk: nat)
    requires k < |s.retries| && IsRow(s, s.retries[k].pk)
    ensures var s' := CommitRow(s, k);
            RootsOf(s'.copies, pk) == RootsOf(s.copies, pk) && IsRetried(s', s.retries[k].pk)
  {
    SumSame(s.copies, CommitRow(s, k).copies, RootOf(pk));
  }

  /** Two requests at once on one pending row, a double click: the row is published twice. */
  lemma DoubleClickPublishesTwice(s: State, pk: nat)
    requires PendingRow(s, pk) && OriginalQueue(s.copies[pk].message, s.copies[pk].place.queue) != ""
    ensures var j, k := |s.retries|, |s.retries| + 1;
            var s4 := SendRow(SendRow(SelectRow(SelectRow(s, pk), pk), j), k);
            && AsRead(s4, s4.retries[j]) && AsRead(s4, s4.retries[k])
            && var s6 := CommitRow(CommitRow(s4, j), k);
               IsRetried(s6, pk) && RootsOf(s6.copies, pk) == RootsOf(s.copies, pk) + 2
  {
    var j, k := |s.retries|, |s.retries| + 1;
    var s2 := SelectRow(SelectRow(s, pk), pk);
    assert s2.copies == s.copies && s2.retries[j] == s2.retries[k] == Retrying(pk, s.copies[pk], Selected);
    SendAddsARoot(s2, j, pk);
    var s3 := SendRow(s2, j);
    SendAddsARoot(s3, k, pk);
    var s4 := SendRow(s3, k);
    assert s4.copies[pk] == s.copies[pk];
    CommitKeepsRoots(s4, j, pk);
    CommitKeepsRoots(CommitRow(s4, j), k, pk);
  }

  /** A retry that read a row before it was discarded: the discard is lost. */
  lemma LateRetryUndoesDiscard(t: Topology, s: State, pk: nat)
    requires PendingRow(s, pk)
    ensures var discarded := Run(t, s, [RetrySelect(pk)] + ([DiscardAction([pk])] + []));
            At(discarded, pk, Stored(s.copies[pk].place.queue, DISCARDED))
    ensures var k, discarded := |s.retries|, Run(t, s, [RetrySelect(pk)] + ([DiscardAction([pk])] + []));
            At(Run(t, discarded, [RetrySend(k)] + ([RetryCommit(k)] + [])), pk,
               Stored(s.copies[pk].place.queue, RETRIED))
  {
    var k := |s.retries|;
    var selected := Next(t, s, RetrySelect(pk));
    RunStep(t, s, RetrySelect(pk), [DiscardAction([pk])] + []);
    RunStep(t, selected, DiscardAction([pk]), []);
    var discarded := Next(t, selected, DiscardAction([pk]));
    RunStep(t, discarded, RetrySend(k), [RetryCommit(k)] + []);
    RunStep(t, Next(t, discarded, RetrySend(k)), RetryCommit(k), []);
  }

  /** A retry that dies between publishing and marking: the row is published and still pending. */
  lemma DeadRetryLeavesPending(t: Topology, s: State, pk: nat)
    requires PendingRow(s, pk) && OriginalQueue(s.copies[pk].message, s.copies[pk].place.queue) != ""
    ensures var k := |s.retries|;
            var s' := Run(t, s, [RetrySelect(pk)] + ([RetrySend(k)] + ([RetryDies(k)] + [])));
            && s.copies <= s'.copies && RootsOf(s'.copies, pk) == RootsOf(s.copies, pk) + 1
            && s'.retries == s.retries + [Retrying(pk, s.copies[pk], Closed)]
  {
    var k := |s.retries|;
    var selected := Next(t, s, RetrySelect(pk));
    RunStep(t, s, RetrySelect(pk), [RetrySend(k)] + ([RetryDies(k)] + []));
    RunStep(t, selected, RetrySend(k), [RetryDies(k)] + []);
    RunStep(t, Next(t, selected, RetrySend(k)), RetryDies(k), []);
    SendAddsARoot(selected, k, pk);
  }

  /** A retry action that dies after k ids and before its commit leaves every row as it was, so still
      pending, and every message stands once more for each distinct row of it among the k. */
  lemma InterruptedRetryDoubles(t: Topology, s: State, pks: seq<nat>, k: nat, id: nat)
    requires k <= |pks|
    ensures var s' := Next(t, s, CrashInRetry(pks, k));
            && s.copies <= s'.copies
            && StandingFor(s'.copies, id) == StandingFor(s.copies, id) + |RetryableFor(s, pks[..k], id)|
  {
    StandingUncommitted(s, pks[..k], id);
  }

  /** A message dead-lettered by a failure is republished to the main queue it died in exactly when
      the dead-letter queue is that queue's name with the suffix. */
  lemma ReturnsHomeIff(s: State, i: nat, c: QueueConfig, error: string)
    requires At(s, i, Unacked(c.name)) && c.name != "" && RouteOf(c, Attempt(s.copies[i].message)).DeadLetter?
    requires s.copies[i].message.headers.origin.None?
    ensures var dead := c.deadLetterQueue.value;
            var stored := PublishFailure(s, i, c, error).copies[|s.copies|].message;
            OriginalQueue(stored, dead) == c.name <==> dead == c.name + DEAD_SUFFIX
  {
    DeadSuffixUndoes(c.deadLetterQueue.value, c.name);
  }
}
