/** Runs of the broker: what happens to a published message, whatever the interleaving. */
module BrokerRuns {
  import opened Wrappers
  import opened Sums
  import opened Queues
  import opened Broker
  import opened BrokerRows

  type Topology = seq<QueueConfig>

  datatype Event =
    | Publish(c: nat, body: Body)
    | Deliver(i: nat, c: nat)
    | Succeed(i: nat, c: nat)
    | Fail(i: nat, c: nat, error: string)
    | Expire(i: nat, c: nat)
    | StoreDead(i: nat, c: nat)
    // Storing raises: the handler rejects the message without requeueing it.
    | StoreFails(i: nat, c: nat)
    // A retry action on its own, and the steps of one that others overlap.
    | RetryAction(pks: seq<nat>)
    | RetrySelect(pk: nat)
    | RetrySend(k: nat)
    | RetryCommit(k: nat)
    | DiscardAction(pks: seq<nat>)
    | Tick(d: nat)
    // The consumer dies: before it published anything, or between publishing and rejecting.
    | Crash(i: nat, c: nat)
    | CrashAfterPublish(i: nat, c: nat, error: string)
    // The dead-letter consumer dies between storing the row and acknowledging.
    | CrashAfterStore(i: nat, c: nat)
    // A retry action dies, or its next publish raises, when k of the ids are handled: no commit.
    | CrashInRetry(pks: seq<nat>, k: nat)
    | RetryDies(k: nat)

  // The retry queue a message with this attempt count waits in.
  function WaitingIn(c: QueueConfig, m: Message): Option<string> {
    var r := Waiting(SlotOf(c, Attempt(m)));
    if HasRole(c, r) then Some(RoleName(c, r)) else None
  }

  // The row is there as the action read it, its status apart; no event ever ends that (`BrokerLifeCycle.AsReadRun`).
  predicate AsRead(s: State, r: Retrying) {
    && r.pk < |s.copies| && s.copies[r.pk].place.Stored? && r.row.place.Stored?
    && s.copies[r.pk] == r.row.(place := Stored(r.row.place.queue, s.copies[r.pk].place.status))
  }

  ghost predicate Enabled(t: Topology, s: State, e: Event) {
    match e
    case Publish(c, _) => c < |t|
    case Deliver(i, c) => c < |t| && At(s, i, InQueue(t[c].name))
    case Succeed(i, c) => c < |t| && At(s, i, Unacked(t[c].name)) && s.copies[i].message.body.Event?
    case Fail(i, c, _) => c < |t| && At(s, i, Unacked(t[c].name))
    case Expire(i, c) =>
      exists k: nat :: c < |t| && HasRole(t[c], Waiting(k)) && At(s, i, InQueue(RoleName(t[c], Waiting(k))))
        && s.copies[i].since + SlotTtl(t[c], k) <= s.now
    case StoreDead(i, c) => c < |t| && Named(t[c].deadLetterQueue) && At(s, i, InQueue(t[c].deadLetterQueue.value))
    case StoreFails(i, c) => c < |t| && Named(t[c].deadLetterQueue) && At(s, i, InQueue(t[c].deadLetterQueue.value))
    case RetryAction(_) => true
    case RetrySelect(pk) => PendingRow(s, pk)
    case RetrySend(k) => k < |s.retries| && s.retries[k].phase.Selected? && AsRead(s, s.retries[k])
    case RetryCommit(k) => k < |s.retries| && s.retries[k].phase.Sent? && AsRead(s, s.retries[k])
    case DiscardAction(_) => true
    case Tick(_) => true
    case Crash(i, c) => c < |t| && At(s, i, Unacked(t[c].name))
    case CrashAfterPublish(i, c, _) => c < |t| && At(s, i, Unacked(t[c].name))
    case CrashAfterStore(i, c) =>
      c < |t| && Named(t[c].deadLetterQueue) && At(s, i, InQueue(t[c].deadLetterQueue.value))
    case CrashInRetry(pks, k) => k <= |pks|
    case RetryDies(k) => k < |s.retries| && !s.retries[k].phase.Closed?
  }

  ghost function Next(t: Topology, s: State, e: Event): State
    requires Enabled(t, s, e)
  {
    match e
    case Publish(c, body) =>
      Enqueue(s, t[c].name, Message(body, NO_HEADERS), Trace(|s.published|, 0, None, 0, 0, s.now)).(
        published := s.published + [Original(c, body)])
    case Deliver(i, c) => Move(s, i, Unacked(t[c].name))
    case Succeed(i, c) => Processed(s, i, t[c], None)
    case Fail(i, c, error) => Processed(s, i, t[c], Some(error))
    case Expire(i, c) => Move(s, i, InQueue(t[c].name))
    case StoreDead(i, c) => Move(s, i, Stored(t[c].deadLetterQueue.value, PENDING))
    case StoreFails(i, c) => Move(s, i, Rejected)
    case RetryAction(pks) => RetryRows(s, pks)
    case RetrySelect(pk) => SelectRow(s, pk)
    case RetrySend(k) => SendRow(s, k)
    case RetryCommit(k) => CommitRow(s, k)
    case DiscardAction(pks) => DiscardRows(s, pks)
    case Tick(d) => s.(now := s.now + d)
    case Crash(i, c) => Move(s, i, InQueue(t[c].name))
    case CrashAfterPublish(i, c, error) => Move(PublishFailure(s, i, t[c], error), i, InQueue(t[c].name))
    case CrashAfterStore(i, c) =>
      s.(copies := s.copies + [s.copies[i].(place := Stored(t[c].deadLetterQueue.value, PENDING))])
    case CrashInRetry(pks, k) => Uncommitted(s, pks[..k])
    case RetryDies(k) => Close(s, k, Closed)
  }

  // The ids' messages are published, but their rows are as before.
  function Uncommitted(s: State, pks: seq<nat>): State {
    s.(copies := s.copies + RetryRows(s, pks).copies[|s.copies|..])
  }

  predicate Crashes(e: Event) {
    e.Crash? || e.CrashAfterPublish? || e.CrashAfterStore? || e.CrashInRetry? || e.RetryDies?
  }

  const INITIAL := State([], 0, [], [])

  // A disabled event changes nothing.
  ghost function Run(t: Topology, s: State, events: seq<Event>): State
    decreases |events|
  {
    if events == [] then s
    else Run(t, if Enabled(t, s, events[0]) then Next(t, s, events[0]) else s, events[1..])
  }

  lemma RunStep(t: Topology, s: State, e: Event, rest: seq<Event>)
    requires Enabled(t, s, e)
    ensures Run(t, s, [e] + rest) == Run(t, Next(t, s, e), rest)
  {
    assert ([e] + rest)[1..] == rest;
  }

  ghost predicate NoCrash(events: seq<Event>) {
    forall e :: e in events ==> !Crashes(e)
  }

  // ---------- What every copy satisfies ----------

  // Total time to live of the retry queues passed before attempt a.
  ghost function WaitSum(c: QueueConfig, a: nat): int {
    if a == 0 then 0 else WaitSum(c, a - 1) + SlotTtl(c, SlotOf(c, a))
  }

  // A document keeps its form in every life; a text that does not parse is wrapped when it is republished.
  ghost function BodyOf(original: Body, life: nat): Body {
    match original
    case Event(_) => original
    case Garbled(text) => if life == 0 then original else Event(RawText(text))
  }

  ghost predicate Within(c: QueueConfig, a: nat) {
    Endless(c) || a <= Budget(c)
  }

  // The runs that n publications of b runs each allow.
  function Allowance(b: nat, n: nat): nat {
    if n == 0 then 0 else Allowance(b, n - 1) + b
  }

  /** The handler has run on a copy that can still be handled as often as its attempt count says, on a
      dead-lettered one once more, and on none more than its lives allow. */
  ghost predicate RunsOk(c: QueueConfig, copy: Copy) {
    var trace, a := copy.trace, Attempt(copy.message);
    && trace.runs <= a + 1 && trace.runs <= trace.total
    && (!Endless(c) ==> trace.total <= Allowance(Budget(c) + 1, trace.life) + trace.runs)
    && match copy.place
       case InQueue(q) => trace.runs == a + if c.deadLetterQueue == Some(q) then 1 else 0
       case Unacked(_) => trace.runs == a
       case _ => true
  }

  /** A copy carries its original body, sits in a queue of its own configuration with an attempt
      count that fits the queue, and has waited out the retry queues behind it; only a document is ever
      handled. */
  ghost predicate CopyOk(t: Topology, published: seq<Original>, now: int, copy: Copy) {
    && copy.trace.id < |published|
    && published[copy.trace.id].home < |t|
    && var c := t[published[copy.trace.id].home];
       var a := Attempt(copy.message);
       && copy.message.body == BodyOf(published[copy.trace.id].body, copy.trace.life)
       && copy.trace.born <= copy.since <= now
       && Within(c, a) && RunsOk(c, copy)
       && match copy.place
          case InQueue(q) =>
            || (q == c.name && Unfailed(copy.message) && copy.trace.born + WaitSum(c, a) <= copy.since)
            || (WaitingIn(c, copy.message) == Some(q) && 1 <= a && Unfailed(copy.message)
                && copy.trace.born + WaitSum(c, a - 1) <= copy.since)
            || (c.deadLetterQueue == Some(q) && DeadOk(c, copy))
          case Unacked(q) =>
            q == c.name && Unfailed(copy.message) && copy.trace.born + WaitSum(c, a) <= copy.since
          case Stored(q, _) => c.deadLetterQueue == Some(q) && DeadOk(c, copy)
          case Acked => copy.message.body.Event?
          case Rejected => true
  }

  /** A dead-lettered message carries exactly the full budget, died no earlier than the sum of the
      times it waited, and names the main queue it died in. */
  ghost predicate DeadOk(c: QueueConfig, copy: Copy) {
    && !Endless(c) && Attempt(copy.message) == Budget(c)
    && copy.trace.born + WaitSum(c, Budget(c)) <= copy.since
    && copy.message.headers.origin == Some(c.name) && copy.message.headers.error.Some?
  }

  // The message has not been dead-lettered in this life.
  predicate Unfailed(m: Message) {
    m.headers.origin.None? && m.headers.error.None?
  }

  ghost predicate AllOk(t: Topology, s: State) {
    forall i :: 0 <= i < |s.copies| ==> CopyOk(t, s.published, s.now, s.copies[i])
  }

  lemma WaitSumMonotone(c: QueueConfig, a: nat)
    requires Accepted(c)
    ensures 0 <= WaitSum(c, a) <= WaitSum(c, a + 1)
  {
    if a != 0 {
      WaitSumMonotone(c, a - 1);
    }
  }

  lemma OkLater(t: Topology, published: seq<Original>, now: int, copy: Copy, more: seq<Original>, later: int)
    requires CopyOk(t, published, now, copy) && now <= later
    ensures CopyOk(t, published + more, later, copy)
  {
  }

  // A queue name tells the configuration and the role of a well-placed copy.
  lemma MainTells(t: Topology, s: State, i: nat, c: nat)
    requires WellFormed(t) && AllOk(t, s) && i < |s.copies| && c < |t|
    requires At(s, i, InQueue(t[c].name)) || At(s, i, Unacked(t[c].name))
    ensures s.published[s.copies[i].trace.id].home == c
    ensures Unfailed(s.copies[i].message)
    ensures s.copies[i].trace.born + WaitSum(t[c], Attempt(s.copies[i].message)) <= s.copies[i].since
  {
    var copy := s.copies[i];
    assert CopyOk(t, s.published, s.now, copy);
    var home := s.published[copy.trace.id].home;
    assert RoleName(t[c], Main) == t[c].name && RoleName(t[home], Main) == t[home].name;
    assert RoleName(t[home], Dead) == t[home].deadLetterQueue.value;
  }

  lemma WaitingTells(t: Topology, s: State, i: nat, c: nat, k: nat)
    requires WellFormed(t) && AllOk(t, s) && i < |s.copies| && c < |t|
    requires HasRole(t[c], Waiting(k)) && At(s, i, InQueue(RoleName(t[c], Waiting(k))))
    ensures s.published[s.copies[i].trace.id].home == c
    ensures k == SlotOf(t[c], Attempt(s.copies[i].message))
  {
    var copy := s.copies[i];
    assert CopyOk(t, s.published, s.now, copy);
    var home := s.published[copy.trace.id].home;
    assert RoleName(t[home], Main) == t[home].name;
    assert RoleName(t[home], Dead) == t[home].deadLetterQueue.value;
  }

  lemma DeadTells(t: Topology, s: State, i: nat, c: nat)
    requires WellFormed(t) && AllOk(t, s) && i < |s.copies| && c < |t|
    requires At(s, i, InQueue(t[c].deadLetterQueue.value))
    ensures s.published[s.copies[i].trace.id].home == c
  {
    var copy := s.copies[i];
    assert CopyOk(t, s.published, s.now, copy);
    var home := s.published[copy.trace.id].home;
    assert RoleName(t[home], Main) == t[home].name;
    assert RoleName(t[c], Dead) == t[c].deadLetterQueue.value;
    assert RoleName(t[home], Dead) == t[home].deadLetterQueue.value;
  }

  lemma MainIsNotDead(t: Topology, c: nat)
    requires WellFormed(t) && c < |t|
    ensures t[c].deadLetterQueue != Some(t[c].name)
    ensures forall k :: HasRole(t[c], Waiting(k)) ==> t[c].deadLetterQueue != Some(RoleName(t[c], Waiting(k)))
  {
    assert RoleName(t[c], Main) == t[c].name && RoleName(t[c], Dead) == t[c].deadLetterQueue.value;
    assert forall k :: HasRole(t[c], Waiting(k)) ==> RoleName(t[c], Waiting(k)) != RoleName(t[c], Dead);
  }

  // ---------- Every step keeps every copy well placed ----------

  lemma OkMove(t: Topology, s: State, i: nat, place: Place)
    requires AllOk(t, s) && i < |s.copies|
    requires CopyOk(t, s.published, s.now, s.copies[i].(place := place, since := s.now))
    ensures AllOk(t, Move(s, i, place))
  {
  }

  lemma OkEnqueue(t: Topology, s: State, queue: string, m: Message, trace: Trace)
    requires AllOk(t, s) && CopyOk(t, s.published, s.now, Copy(m, InQueue(queue), s.now, trace))
    ensures AllOk(t, Enqueue(s, queue, m, trace))
  {
  }

  lemma OkPublish(t: Topology, s: State, c: nat, body: Body)
    requires WellFormed(t) && AllOk(t, s) && c < |t|
    ensures AllOk(t, Next(t, s, Publish(c, body)))
  {
    var s' := Next(t, s, Publish(c, body));
    forall i | 0 <= i < |s'.copies|
      ensures CopyOk(t, s'.published, s'.now, s'.copies[i])
    {
      if i < |s.copies| {
        OkLater(t, s.published, s.now, s.copies[i], [Original(c, body)], s.now);
      }
    }
  }

  lemma OkPublishFailure(t: Topology, s: State, i: nat, c: nat, error: string)
    requires WellFormed(t) && AllOk(t, s) && c < |t| && At(s, i, Unacked(t[c].name))
    ensures AllOk(t, PublishFailure(s, i, t[c], error))
  {
    MainTells(t, s, i, c);
    var copy := s.copies[i];
    assert CopyOk(t, s.published, s.now, copy);
    var a := Attempt(copy.message);
    RouteByBudget(t[c], a);
    MainIsNotDead(t, c);
    DeadSuffixUndoes(t[c].deadLetterQueue.value, t[c].name);
    match RouteOf(t[c], a) {
      case Retry(q) =>
        OkEnqueue(t, s, q, copy.message.(headers := RetryHeaders(copy.message)), Ran(copy.trace));
      case DeadLetter(q) =>
        OkEnqueue(t, s, q, copy.message.(headers := DeadHeaders(copy.message, q, error)), Ran(copy.trace));
    }
  }

  lemma OkRetryRow(t: Topology, s: State, pk: nat)
    requires WellFormed(t) && AllOk(t, s)
    ensures AllOk(t, RetryRow(s, pk))
    ensures RetryRow(s, pk) == s.(copies := RetryRow(s, pk).copies)
    ensures PendingRow(s, pk) ==>
              OriginalQueue(s.copies[pk].message, s.copies[pk].place.queue) ==
                  t[s.published[s.copies[pk].trace.id].home].name
  {
    if PendingRow(s, pk) {
      var row := s.copies[pk];
      assert CopyOk(t, s.published, s.now, row);
      var c := t[s.published[row.trace.id].home];
      assert WaitSum(c, 0) == 0;
    }
  }

  lemma {:induction false} OkRetryRows(t: Topology, s: State, pks: seq<nat>)
    requires WellFormed(t) && AllOk(t, s)
    ensures AllOk(t, RetryRows(s, pks))
    ensures RetryRows(s, pks) == s.(copies := RetryRows(s, pks).copies)
    decreases |pks|
  {
    if pks != [] {
      OkRetryRows(t, s, pks[..|pks| - 1]);
      OkRetryRow(t, RetryRows(s, pks[..|pks| - 1]), pks[|pks| - 1]);
    }
  }

  lemma OkExpire(t: Topology, s: State, i: nat, c: nat)
    requires WellFormed(t) && AllOk(t, s) && Enabled(t, s, Expire(i, c))
    ensures AllOk(t, Next(t, s, Expire(i, c)))
  {
    var k: nat :| HasRole(t[c], Waiting(k)) && At(s, i, InQueue(RoleName(t[c], Waiting(k))))
      && s.copies[i].since + SlotTtl(t[c], k) <= s.now;
    WaitingTells(t, s, i, c, k);
    MainIsNotDead(t, c);
    assert CopyOk(t, s.published, s.now, s.copies[i]);
    OkMove(t, s, i, InQueue(t[c].name));
  }

  lemma OkConsumed(t: Topology, s: State, i: nat, c: nat, place: Place)
    requires WellFormed(t) && AllOk(t, s) && c < |t|
    requires At(s, i, Unacked(t[c].name)) || At(s, i, InQueue(t[c].name))
    requires place in {InQueue(t[c].name), Unacked(t[c].name), Rejected}
    ensures AllOk(t, Move(s, i, place))
  {
    MainTells(t, s, i, c);
    assert CopyOk(t, s.published, s.now, s.copies[i]);
    OkMove(t, s, i, place);
  }

  lemma OkDiscard(t: Topology, s: State, pks: seq<nat>)
    requires AllOk(t, s)
    ensures AllOk(t, DiscardRows(s, pks))
  {
    forall i | 0 <= i < |s.copies|
      ensures CopyOk(t, s.published, s.now, DiscardRows(s, pks).copies[i])
    {
      assert CopyOk(t, s.published, s.now, s.copies[i]);
    }
  }

  lemma OkTick(t: Topology, s: State, d: nat)
    requires AllOk(t, s)
    ensures AllOk(t, s.(now := s.now + d))
  {
    forall i | 0 <= i < |s.copies|
      ensures CopyOk(t, s.published, s.now + d, s.copies[i])
    {
      OkLater(t, s.published, s.now, s.copies[i], [], s.now + d);
      assert s.published + [] == s.published;
    }
  }

  lemma OkStored(t: Topology, s: State, i: nat, c: nat)
    requires WellFormed(t) && AllOk(t, s) && Enabled(t, s, StoreDead(i, c))
    ensures AllOk(t, Next(t, s, StoreDead(i, c)))
    ensures AllOk(t, Next(t, s, CrashAfterStore(i, c)))
  {
    DeadTells(t, s, i, c);
    MainIsNotDead(t, c);
    assert CopyOk(t, s.published, s.now, s.copies[i]);
    OkMove(t, s, i, Stored(t[c].deadLetterQueue.value, PENDING));
  }

  lemma OkUncommitted(t: Topology, s: State, pks: seq<nat>)
    requires WellFormed(t) && AllOk(t, s)
    ensures AllOk(t, Uncommitted(s, pks))
  {
    OkRetryRows(t, s, pks);
    var after := RetryRows(s, pks);
    forall i | 0 <= i < |Uncommitted(s, pks).copies|
      ensures CopyOk(t, s.published, s.now, Uncommitted(s, pks).copies[i])
    {
      assert CopyOk(t, s.published, s.now, after.copies[i]);
      assert i < |s.copies| ==> CopyOk(t, s.published, s.now, s.copies[i]);
    }
  }

  // The queue a row in hand goes back to is the main queue of its message.
  lemma RowInHand(t: Topology, s: State, r: Retrying)
    requires WellFormed(t) && AllOk(t, s) && AsRead(s, r)
    ensures r.row.trace.id < |s.published| && s.published[r.row.trace.id].home < |t|
    ensures QueueOf(r) == t[s.published[r.row.trace.id].home].name != ""
  {
    assert CopyOk(t, s.published, s.now, s.copies[r.pk]);
  }

  lemma OkSend(t: Topology, s: State, k: nat)
    requires WellFormed(t) && AllOk(t, s) && Enabled(t, s, RetrySend(k))
    ensures AllOk(t, SendRow(s, k))
  {
    var r := s.retries[k];
    RowInHand(t, s, r);
    assert CopyOk(t, s.published, s.now, s.copies[r.pk]);
    var c := t[s.published[r.row.trace.id].home];
    assert WaitSum(c, 0) == 0;
    var sent := Close(s, k, Sent);
    assert AllOk(t, sent);
    OkEnqueue(t, sent, c.name, Message(Republished(r.row.message.body), NO_HEADERS), Relived(r.row.trace, r.pk, s.now));
  }

  lemma OkCommit(t: Topology, s: State, k: nat)
    requires AllOk(t, s) && Enabled(t, s, RetryCommit(k))
    ensures AllOk(t, CommitRow(s, k))
  {
    var s' := CommitRow(s, k);
    forall i | 0 <= i < |s'.copies|
      ensures CopyOk(t, s'.published, s'.now, s'.copies[i])
    {
      assert CopyOk(t, s.published, s.now, s.copies[i]);
    }
  }

  lemma OkUnstored(t: Topology, s: State, i: nat, c: nat)
    requires AllOk(t, s) && Enabled(t, s, StoreFails(i, c))
    ensures AllOk(t, Next(t, s, StoreFails(i, c)))
  {
    assert CopyOk(t, s.published, s.now, s.copies[i]);
    OkMove(t, s, i, Rejected);
  }

  lemma OkSucceed(t: Topology, s: State, i: nat, c: nat)
    requires WellFormed(t) && AllOk(t, s) && Enabled(t, s, Succeed(i, c))
    ensures AllOk(t, Next(t, s, Succeed(i, c)))
  {
    assert CopyOk(t, s.published, s.now, s.copies[i]);
  }

  /** Every enabled event, crashes included, keeps every copy well placed. */
  lemma OkStep(t: Topology, s: State, e: Event)
    requires WellFormed(t) && AllOk(t, s) && Enabled(t, s, e)
    ensures AllOk(t, Next(t, s, e))
  {
    match e {
      case Publish(c, body) => OkPublish(t, s, c, body);
      case Deliver(i, c) => OkConsumed(t, s, i, c, Unacked(t[c].name));
      case Succeed(i, c) => OkSucceed(t, s, i, c);
      case Fail(i, c, error) =>
        OkPublishFailure(t, s, i, c, error);
        OkConsumed(t, PublishFailure(s, i, t[c], error), i, c, Rejected);
      case Expire(i, c) => OkExpire(t, s, i, c);
      case StoreDead(i, c) => OkStored(t, s, i, c);
      case StoreFails(i, c) => OkUnstored(t, s, i, c);
      case RetryAction(pks) => OkRetryRows(t, s, pks);
      case RetrySelect(_) =>
      case RetrySend(k) => OkSend(t, s, k);
      case RetryCommit(k) => OkCommit(t, s, k);
      case DiscardAction(pks) => OkDiscard(t, s, pks);
      case Tick(d) => OkTick(t, s, d);
      case Crash(i, c) => OkConsumed(t, s, i, c, InQueue(t[c].name));
      case CrashAfterPublish(i, c, error) =>
        OkPublishFailure(t, s, i, c, error);
        OkConsumed(t, PublishFailure(s, i, t[c], error), i, c, InQueue(t[c].name));
      case CrashAfterStore(i, c) =>
        assert Enabled(t, s, StoreDead(i, c));
        OkStored(t, s, i, c);
      case CrashInRetry(pks, k) => OkUncommitted(t, s, pks[..k]);
      case RetryDies(_) =>
    }
  }

  lemma {:induction false} OkRun(t: Topology, s: State, events: seq<Event>)
    requires WellFormed(t) && AllOk(t, s)
    ensures AllOk(t, Run(t, s, events))
    decreases |events|
  {
    if events != [] {
      var next := if Enabled(t, s, events[0]) then Next(t, s, events[0]) else s;
      if Enabled(t, s, events[0]) {
        OkStep(t, s, events[0]);
      }
      OkRun(t, next, events[1..]);
    }
  }

  /** In every reachable state, crashes or not: a message in the i-th retry queue of a list carries
      attempt i + 1, no message carries more than its budget, and a dead-lettered message carries
      exactly the full budget, waited at least the sum of its times to live, and would be
      republished to the main queue it died in. */
  lemma EveryCopyIsWellPlaced(t: Topology, events: seq<Event>, i: nat)
    requires WellFormed(t) && i < |Run(t, INITIAL, events).copies|
    ensures var s := Run(t, INITIAL, events);
            CopyOk(t, s.published, s.now, s.copies[i])
  {
    OkRun(t, INITIAL, events);
  }

  // ---------- No message is lost or doubled ----------

  // A copy that still stands for its message: waiting, being handled, handled, or a row that was
  // not republished.
  predicate Stands(copy: Copy) {
    !copy.place.Rejected? && (copy.place.Stored? ==> copy.place.status != RETRIED)
  }

  function Weight(copy: Copy, id: nat): nat {
    if Stands(copy) && copy.trace.id == id then 1 else 0
  }

  function WeightOf(id: nat): Copy -> nat {
    copy => Weight(copy, id)
  }

  function StandingFor(copies: seq<Copy>, id: nat): nat {
    Sum(copies, WeightOf(id))
  }

  lemma StandingMove(s: State, i: nat, place: Place, id: nat)
    requires i < |s.copies|
    ensures StandingFor(Move(s, i, place).copies, id)
            == StandingFor(s.copies, id) - Weight(s.copies[i], id) + Weight(s.copies[i].(place := place), id)
  {
    SumUpdate(s.copies, i, s.copies[i].(place := place, since := s.now), WeightOf(id));
  }

  // The failure branch publishes one more standing copy, unless the message is dropped.
  lemma StandingPublishFailure(s: State, i: nat, c: QueueConfig, error: string, id: nat)
    requires At(s, i, Unacked(c.name))
    ensures StandingFor(PublishFailure(s, i, c, error).copies, id)
            == StandingFor(s.copies, id)
               + (if RouteOf(c, Attempt(s.copies[i].message)).Drop? then 0 else Weight(s.copies[i], id))
  {
    var copy := s.copies[i];
    var s' := PublishFailure(s, i, c, error);
    if s'.copies != s.copies {
      var added := s'.copies[|s.copies|];
      assert s'.copies == s.copies + [added];
      SumAppend(s.copies, added, WeightOf(id));
    }
  }

  lemma StandingFailure(s: State, i: nat, c: QueueConfig, error: string, id: nat)
    requires At(s, i, Unacked(c.name))
    ensures StandingFor(Processed(s, i, c, Some(error)).copies, id)
            == StandingFor(s.copies, id)
               - (if RouteOf(c, Attempt(s.copies[i].message)).Drop? then Weight(s.copies[i], id) else 0)
  {
    var s' := PublishFailure(s, i, c, error);
    assert s'.copies[i] == s.copies[i];
    StandingPublishFailure(s, i, c, error, id);
    StandingMove(s', i, Rejected, id);
  }

  lemma StandingInterrupted(s: State, i: nat, c: QueueConfig, error: string, id: nat)
    requires At(s, i, Unacked(c.name)) && !RouteOf(c, Attempt(s.copies[i].message)).Drop?
    ensures StandingFor(Move(PublishFailure(s, i, c, error), i, InQueue(c.name)).copies, id)
            == StandingFor(s.copies, id) + Weight(s.copies[i], id)
  {
    var s' := PublishFailure(s, i, c, error);
    assert s'.copies[i] == s.copies[i];
    StandingPublishFailure(s, i, c, error, id);
    StandingMove(s', i, InQueue(c.name), id);
  }

  /** A failed delivery keeps the number of standing copies of its message, except that it loses
      the message exactly when its budget is spent and there is no dead-letter queue. */
  lemma FailureLosesIff(s: State, i: nat, c: QueueConfig, error: string)
    requires At(s, i, Unacked(c.name)) && Accepted(c) && NamesSet(c)
    ensures var id := s.copies[i].trace.id;
            StandingFor(Processed(s, i, c, Some(error)).copies, id)
            == StandingFor(s.copies, id)
               - (if !Endless(c) && Budget(c) <= Attempt(s.copies[i].message) && !Named(c.deadLetterQueue)
                  then 1 else 0)
  {
    RouteByBudget(c, Attempt(s.copies[i].message));
    StandingFailure(s, i, c, error, s.copies[i].trace.id);
  }

  /** Retrying a stored row keeps the number of standing copies, except that it loses the message
      exactly when no queue to republish to is found: the row is marked RETRIED all the same. */
  lemma RetryLosesIff(s: State, pk: nat, id: nat)
    requires PendingRow(s, pk)
    ensures StandingFor(RetryRow(s, pk).copies, id)
            == StandingFor(s.copies, id)
               - (if forall queue :: !GoesBackTo(s.copies[pk].message, s.copies[pk].place.queue, queue)
                  then Weight(s.copies[pk], id) else 0)
  {
    OriginalQueueIs(s.copies[pk].message, s.copies[pk].place.queue);
    var row := s.copies[pk];
    var queue := OriginalQueue(row.message, row.place.queue);
    var s' := if queue == "" then s
              else Enqueue(s, queue, Message(Republished(row.message.body), NO_HEADERS),
                           Relived(row.trace, pk, s.now));
    if queue != "" {
      SumAppend(s.copies, s'.copies[|s.copies|], WeightOf(id));
    }
    SumUpdate(s'.copies, pk, row.(place := Stored(row.place.queue, RETRIED)), WeightOf(id));
  }

  lemma {:induction false} StandingRetryRows(t: Topology, s: State, pks: seq<nat>, id: nat)
    requires WellFormed(t) && AllOk(t, s)
    ensures StandingFor(RetryRows(s, pks).copies, id) == StandingFor(s.copies, id)
    decreases |pks|
  {
    if pks != [] {
      var before := RetryRows(s, pks[..|pks| - 1]);
      var pk := pks[|pks| - 1];
      StandingRetryRows(t, s, pks[..|pks| - 1], id);
      OkRetryRows(t, s, pks[..|pks| - 1]);
      if PendingRow(before, pk) {
        OkRetryRow(t, before, pk);
        assert CopyOk(t, before.published, before.now, before.copies[pk]);
        OriginalQueueIs(before.copies[pk].message, before.copies[pk].place.queue);
        RetryLosesIff(before, pk, id);
      }
    }
  }

  // Standing copies of a message that a crash adds.
  function Doubled(s: State, e: Event, id: nat): nat {
    match e
    case CrashAfterPublish(i, _, _) => if i < |s.copies| then Weight(s.copies[i], id) else 0
    case CrashAfterStore(i, _) => if i < |s.copies| then Weight(s.copies[i], id) else 0
    case CrashInRetry(pks, k) => if k <= |pks| then |RetryableFor(s, pks[..k], id)| else 0
    case RetryDies(k) => if k < |s.retries| then Flying(s.retries[k], id) else 0
    case _ => 0
  }

  // The message was published from a row that is not marked yet.
  function Flying(r: Retrying, id: nat): nat {
    if r.phase.Sent? && QueueOf(r) != "" && r.row.trace.id == id then 1 else 0
  }

  function FlyingOf(id: nat): Retrying -> nat {
    r => Flying(r, id)
  }

  function FlyingFor(retries: seq<Retrying>, id: nat): nat {
    Sum(retries, FlyingOf(id))
  }

  // A standing copy that a retry action adds by marking a row another one has marked meanwhile.
  function Overlapped(s: State, e: Event, id: nat): nat {
    if e.RetryCommit? && e.k < |s.retries| && IsRetried(s, s.retries[e.k].pk) then Flying(s.retries[e.k], id) else 0
  }

  predicate IsRetried(s: State, pk: nat) {
    pk < |s.copies| && s.copies[pk].place.Stored? && s.copies[pk].place.status == RETRIED
  }

  lemma StandingSend(t: Topology, s: State, k: nat, id: nat)
    requires WellFormed(t) && AllOk(t, s) && Enabled(t, s, RetrySend(k))
    ensures StandingFor(SendRow(s, k).copies, id) + FlyingFor(s.retries, id)
            == StandingFor(s.copies, id) + FlyingFor(SendRow(s, k).retries, id)
  {
    var r := s.retries[k];
    RowInHand(t, s, r);
    SumUpdate(s.retries, k, r.(phase := Sent), FlyingOf(id));
    SumAppend(s.copies, SendRow(s, k).copies[|s.copies|], WeightOf(id));
  }

  lemma StandingCommit(t: Topology, s: State, k: nat, id: nat)
    requires WellFormed(t) && AllOk(t, s) && Enabled(t, s, RetryCommit(k))
    ensures StandingFor(CommitRow(s, k).copies, id) + FlyingFor(s.retries, id)
            == StandingFor(s.copies, id) + Overlapped(s, RetryCommit(k), id) + FlyingFor(CommitRow(s, k).retries, id)
  {
    var r := s.retries[k];
    RowInHand(t, s, r);
    SumUpdate(s.retries, k, r.(phase := Closed), FlyingOf(id));
    SumUpdate(s.copies, r.pk, CommitRow(s, k).copies[r.pk], WeightOf(id));
  }

  // The standing copy that a failed storing takes away.
  function Removed(s: State, e: Event, id: nat): nat {
    if e.StoreFails? && e.i < |s.copies| then Weight(s.copies[e.i], id) else 0
  }

  // The event publishes the message.
  function Begun(s: State, e: Event, id: nat): nat {
    if e.Publish? && id == |s.published| then 1 else 0
  }

  // What a retry action adds stands once for each distinct row it republishes.
  lemma {:induction false} StandingRepublished(s: State, pks: seq<nat>, id: nat)
    ensures StandingFor(RetryRows(s, pks).copies[|s.copies|..], id) == |RetryableFor(s, pks, id)|
    decreases |pks|
  {
    if pks == [] {
      assert RetryableFor(s, pks, id) == {};
    } else {
      var init, pk := pks[..|pks| - 1], pks[|pks| - 1];
      assert pks == init + [pk];
      StandingRepublished(s, init, id);
      RetryableForThen(s, init, pk, id);
      var added := RetryRowsThen(s, init, pk);
      SumConcat(RetryRows(s, init).copies[|s.copies|..], added, WeightOf(id));
      if added != [] {
        StandingOne(added[0], id);
        assert added == [added[0]];
      }
    }
  }

  lemma StandingOne(copy: Copy, id: nat)
    ensures StandingFor([copy], id) == Weight(copy, id)
  {
    assert [] + [copy] == [copy];
    SumAppend([], copy, WeightOf(id));
  }

  lemma StandingSuccess(s: State, i: nat, c: QueueConfig, id: nat)
    requires At(s, i, Unacked(c.name))
    ensures StandingFor(Processed(s, i, c, None).copies, id) == StandingFor(s.copies, id)
  {
    var s' := Processed(s, i, c, None);
    assert s'.copies == s.copies[i := s'.copies[i]];
    SumUpdate(s.copies, i, s'.copies[i], WeightOf(id));
  }

  lemma StandingUncommitted(s: State, pks: seq<nat>, id: nat)
    ensures StandingFor(Uncommitted(s, pks).copies, id) == StandingFor(s.copies, id) + |RetryableFor(s, pks, id)|
  {
    StandingRepublished(s, pks, id);
    SumConcat(s.copies, RetryRows(s, pks).copies[|s.copies|..], WeightOf(id));
  }

  lemma StandingCrashed(t: Topology, s: State, i: nat, c: nat, error: string, id: nat)
    requires WellFormed(t) && c < |t| && At(s, i, Unacked(t[c].name))
    ensures StandingFor(Next(t, s, CrashAfterPublish(i, c, error)).copies, id)
            == StandingFor(s.copies, id) + Weight(s.copies[i], id)
  {
    RouteByBudget(t[c], Attempt(s.copies[i].message));
    StandingInterrupted(s, i, t[c], error, id);
  }

  lemma StandingStoredTwice(s: State, i: nat, queue: string, id: nat)
    requires At(s, i, InQueue(queue))
    ensures StandingFor(s.copies + [s.copies[i].(place := Stored(queue, PENDING))], id)
            == StandingFor(s.copies, id) + Weight(s.copies[i], id)
  {
    SumAppend(s.copies, s.copies[i].(place := Stored(queue, PENDING)), WeightOf(id));
  }

  lemma StandingFail(t: Topology, s: State, i: nat, c: nat, error: string, id: nat)
    requires WellFormed(t) && c < |t| && At(s, i, Unacked(t[c].name))
    ensures StandingFor(Next(t, s, Fail(i, c, error)).copies, id) == StandingFor(s.copies, id)
  {
    RouteByBudget(t[c], Attempt(s.copies[i].message));
    StandingFailure(s, i, t[c], error, id);
  }

  // Events that only move a copy from one place where it stands to another.
  lemma StandingMoved(t: Topology, s: State, e: Event, id: nat)
    requires Enabled(t, s, e) && (e.Deliver? || e.Expire? || e.StoreDead? || e.Crash?)
    ensures StandingFor(Next(t, s, e).copies, id) == StandingFor(s.copies, id)
  {
    match e {
      case Deliver(i, c) => StandingMove(s, i, Unacked(t[c].name), id);
      case Expire(i, c) => StandingMove(s, i, InQueue(t[c].name), id);
      case StoreDead(i, c) => StandingMove(s, i, Stored(t[c].deadLetterQueue.value, PENDING), id);
      case Crash(i, c) => StandingMove(s, i, InQueue(t[c].name), id);
    }
  }

  // Atomic events leave rows in the hands of retry actions alone.
  lemma RetriesKept(t: Topology, s: State, e: Event)
    requires WellFormed(t) && AllOk(t, s) && Enabled(t, s, e)
    requires !e.RetrySelect? && !e.RetrySend? && !e.RetryCommit? && !e.RetryDies?
    ensures Next(t, s, e).retries == s.retries
  {
    if e.RetryAction? {
      OkRetryRows(t, s, e.pks);
    }
  }

  predicate Trouble(e: Event) {
    e.CrashAfterPublish? || e.CrashAfterStore? || e.CrashInRetry? || e.StoreFails?
  }

  lemma StandingTrouble(t: Topology, s: State, e: Event, id: nat)
    requires WellFormed(t) && Enabled(t, s, e) && Trouble(e)
    ensures StandingFor(Next(t, s, e).copies, id) + Removed(s, e, id) == StandingFor(s.copies, id) + Doubled(s, e, id)
  {
    if e.CrashAfterPublish? {
      StandingCrashed(t, s, e.i, e.c, e.error, id);
    } else if e.CrashAfterStore? {
      StandingStoredTwice(s, e.i, t[e.c].deadLetterQueue.value, id);
    } else if e.CrashInRetry? {
      StandingUncommitted(s, e.pks[..e.k], id);
    } else {
      StandingMove(s, e.i, Rejected, id);
    }
  }

  lemma StandingPlain(t: Topology, s: State, e: Event, id: nat)
    requires WellFormed(t) && AllOk(t, s) && Enabled(t, s, e) && !Trouble(e)
    requires !e.RetrySelect? && !e.RetrySend? && !e.RetryCommit? && !e.RetryDies?
    ensures StandingFor(Next(t, s, e).copies, id) == StandingFor(s.copies, id) + Begun(s, e, id)
  {
    if e.Publish? {
      SumAppend(s.copies, Copy(Message(e.body, NO_HEADERS), InQueue(t[e.c].name), s.now,
          Trace(|s.published|, 0, None, 0, 0, s.now)), WeightOf(id));
    } else if e.Succeed? {
      StandingSuccess(s, e.i, t[e.c], id);
    } else if e.Fail? {
      StandingFail(t, s, e.i, e.c, e.error, id);
    } else if e.RetryAction? {
      StandingRetryRows(t, s, e.pks, id);
    } else if e.DiscardAction? {
      SumSame(s.copies, DiscardRows(s, e.pks).copies, WeightOf(id));
    } else if !e.Tick? {
      StandingMoved(t, s, e, id);
    }
  }

  // The standing copies of a message, less those published from rows not marked yet.
  function Settled(s: State, id: nat): int {
    StandingFor(s.copies, id) - FlyingFor(s.retries, id)
  }

  lemma SettledDeath(s: State, k: nat, id: nat)
    requires k < |s.retries|
    ensures Settled(Close(s, k, Closed), id) == Settled(s, id) + Flying(s.retries[k], id)
  {
    SumUpdate(s.retries, k, s.retries[k].(phase := Closed), FlyingOf(id));
  }

  lemma SettledAtomic(t: Topology, s: State, e: Event, id: nat)
    requires WellFormed(t) && AllOk(t, s) && Enabled(t, s, e)
    requires !e.RetrySelect? && !e.RetrySend? && !e.RetryCommit? && !e.RetryDies?
    ensures Settled(Next(t, s, e), id) + Removed(s, e, id) == Settled(s, id) + Doubled(s, e, id) + Begun(s, e, id)
  {
    RetriesKept(t, s, e);
    if Trouble(e) {
      StandingTrouble(t, s, e, id);
    } else {
      StandingPlain(t, s, e, id);
    }
  }

  lemma SettledStep(t: Topology, s: State, e: Event, id: nat)
    requires WellFormed(t) && AllOk(t, s) && Enabled(t, s, e)
    ensures Settled(Next(t, s, e), id) + Removed(s, e, id)
            == Settled(s, id) + Doubled(s, e, id) + Overlapped(s, e, id) + Begun(s, e, id)
  {
    if e.RetrySelect? {
    } else if e.RetrySend? {
      StandingSend(t, s, e.k, id);
    } else if e.RetryCommit? {
      StandingCommit(t, s, e.k, id);
    } else if e.RetryDies? {
      SettledDeath(s, e.k, id);
    } else {
      SettledAtomic(t, s, e, id);
    }
  }

  lemma PublishedGrows(t: Topology, s: State, e: Event)
    requires WellFormed(t) && AllOk(t, s) && Enabled(t, s, e)
    ensures Next(t, s, e).published == s.published + if e.Publish? then [Original(e.c, e.body)] else []
  {
    if e.RetryAction? {
      OkRetryRows(t, s, e.pks);
    }
  }

  // How often storing a dead-lettered copy of the message failed in the run.
  ghost function Losses(t: Topology, s: State, events: seq<Event>, id: nat): nat
    decreases |events|
  {
    if events == [] then 0
    else if Enabled(t, s, events[0]) then Removed(s, events[0], id) + Losses(t, Next(t, s, events[0]), events[1..], id)
    else Losses(t, s, events[1..], id)
  }

  // How many copies of the message the run's crashes added.
  ghost function Doublings(t: Topology, s: State, events: seq<Event>, id: nat): nat
    decreases |events|
  {
    if events == [] then 0
    else if Enabled(t, s, events[0]) then
      Doubled(s, events[0], id) + Doublings(t, Next(t, s, events[0]), events[1..], id)
    else Doublings(t, s, events[1..], id)
  }

  // How many copies of the message overlapping retry actions added.
  ghost function Overlaps(t: Topology, s: State, events: seq<Event>, id: nat): nat
    decreases |events|
  {
    if events == [] then 0
    else if Enabled(t, s, events[0]) then
      Overlapped(s, events[0], id) + Overlaps(t, Next(t, s, events[0]), events[1..], id)
    else Overlaps(t, s, events[1..], id)
  }

  lemma {:induction false} NoCrashNoDoubling(t: Topology, s: State, events: seq<Event>, id: nat)
    requires NoCrash(events)
    ensures Doublings(t, s, events, id) == 0
    decreases |events|
  {
    if events != [] {
      assert events[0] in events;
      NoCrashNoDoubling(t, if Enabled(t, s, events[0]) then Next(t, s, events[0]) else s, events[1..], id);
    }
  }

  lemma {:induction false} LedgerRun(t: Topology, s: State, events: seq<Event>, id: nat)
    requires WellFormed(t) && AllOk(t, s)
    ensures var s' := Run(t, s, events);
            && |s.published| <= |s'.published|
            && Settled(s', id) + Losses(t, s, events, id)
               == Settled(s, id) + Doublings(t, s, events, id) + Overlaps(t, s, events, id)
                  + if |s.published| <= id < |s'.published| then 1 else 0
    decreases |events|
  {
    if events != [] {
      var e := events[0];
      if Enabled(t, s, e) {
        OkStep(t, s, e);
        PublishedGrows(t, s, e);
        SettledStep(t, s, e, id);
        LedgerRun(t, Next(t, s, e), events[1..], id);
      } else {
        LedgerRun(t, s, events[1..], id);
      }
    }
  }

  /** Conservation, exactly, over every run. A published message stands once, plus once for each copy
      that a crash added, for each retry that marked a row another one had marked meanwhile, and for
      each retry that has published and not marked yet, less once for each of its copies whose
      storing failed. So it stands at least once unless a storing failed; and when no crash and no such
      overlap happened and no retry is half-way, exactly once, or nowhere if a storing failed. */
  lemma MessagesAreConserved(t: Topology, events: seq<Event>, id: nat)
    requires WellFormed(t) && id < |Run(t, INITIAL, events).published|
    ensures var s := Run(t, INITIAL, events);
            var standing, flying := StandingFor(s.copies, id), FlyingFor(s.retries, id);
            var losses, overlaps := Losses(t, INITIAL, events, id), Overlaps(t, INITIAL, events, id);
            && standing + losses == 1 + Doublings(t, INITIAL, events, id) + overlaps + flying
            && (losses == 0 ==> 1 <= standing)
            && (NoCrash(events) && overlaps == 0 && flying == 0 ==> standing == if losses == 0 then 1 else 0)
  {
    LedgerRun(t, INITIAL, events, id);
    if NoCrash(events) {
      NoCrashNoDoubling(t, INITIAL, events, id);
    }
  }

  /** A message whose storing failed is never made good: ever after it stands only in copies that crashes
      or overlapping retries added. */
  lemma UnstoredIsLost(t: Topology, events: seq<Event>, i: nat, c: nat, later: seq<Event>)
    requires WellFormed(t) && Enabled(t, Run(t, INITIAL, events), StoreFails(i, c))
    ensures var s := Run(t, INITIAL, events);
            var s', id := Next(t, s, StoreFails(i, c)), s.copies[i].trace.id;
            StandingFor(Run(t, s', later).copies, id) <=
            Doublings(t, INITIAL, events, id) + Doublings(t, s', later, id) +
            Overlaps(t, INITIAL, events, id) + Overlaps(t, s', later, id) + FlyingFor(Run(t, s', later).retries, id)
  {
    var s, e := Run(t, INITIAL, events), StoreFails(i, c);
    var id := s.copies[i].trace.id;
    OkRun(t, INITIAL, events);
    assert CopyOk(t, s.published, s.now, s.copies[i]);
    LedgerRun(t, INITIAL, events, id);
    OkStep(t, s, e);
    PublishedGrows(t, s, e);
    SettledStep(t, s, e, id);
    LedgerRun(t, Next(t, s, e), later, id);
  }
}
