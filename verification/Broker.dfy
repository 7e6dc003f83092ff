/** The broker with its consumers: messages in queues, deliveries, retries through queues with a
    time to live, dead-lettering into stored rows, and the admin actions on those rows. */
module Broker {
  import opened Wrappers
  import opened Queues

  // A body is a JSON document or text that does not parse.
  datatype Document = Document(content: string) | RawText(text: string)

  datatype Body = Event(doc: Document) | Garbled(text: string)

  datatype Headers = Headers(attempt: Option<nat>, error: Option<string>, origin: Option<string>)

  const NO_HEADERS := Headers(None, None, None)

  datatype Message = Message(body: Body, headers: Headers)

  datatype Status = PENDING | RETRIED | DISCARDED

  datatype Place =
    | InQueue(queue: string)
    | Unacked(queue: string)
    | Acked
    | Rejected
    | Stored(queue: string, status: Status)

  /** Bookkeeping of the model: the publication a copy goes back to, how often an admin has
      republished it and from which stored row last, handler runs since the last (re)publication
      and in all, and when that was. */
  datatype Trace = Trace(id: nat, life: nat, row: Option<nat>, runs: nat, total: nat, born: int)

  datatype Copy = Copy(message: Message, place: Place, since: int, trace: Trace)

  datatype Original = Original(home: nat, body: Body)

  datatype Phase = Selected | Sent | Closed

  /** One row in the hands of a retry action: the row as the action read it, and how far it got. */
  datatype Retrying = Retrying(pk: nat, row: Copy, phase: Phase)

  /** Every copy ever made, in the order of their making; a copy changes place but never leaves.
      The index of a stored row is its primary key. */
  datatype State = State(copies: seq<Copy>, now: int, published: seq<Original>, retries: seq<Retrying>)

  function Attempt(m: Message): nat {
    m.headers.attempt.GetOr(0)
  }

  function Enqueue(s: State, queue: string, m: Message, trace: Trace): State {
    s.(copies := s.copies + [Copy(m, InQueue(queue), s.now, trace)])
  }

  function Move(s: State, i: nat, place: Place): State
    requires i < |s.copies|
  {
    s.(copies := s.copies[i := s.copies[i].(place := place, since := s.now)])
  }

  function Ran(t: Trace): Trace {
    t.(runs := t.runs + 1, total := t.total + 1)
  }

  predicate At(s: State, i: nat, place: Place) {
    i < |s.copies| && s.copies[i].place == place
  }

  // ---------- What a consumer does with a delivery ----------

  function RetryHeaders(m: Message): Headers {
    m.headers.(attempt := Some(Attempt(m) + 1))
  }

  function DeadHeaders(m: Message, dead: string, error: string): Headers {
    m.headers.(error := Some(error),
               origin := if HasDeadSuffix(dead) then Some(StripDeadSuffix(dead)) else m.headers.origin)
  }

  // What the failure branch publishes, before it rejects the delivery.
  function PublishFailure(s: State, i: nat, c: QueueConfig, error: string): State
    requires i < |s.copies|
  {
    var copy := s.copies[i];
    match RouteOf(c, Attempt(copy.message))
    case Retry(q) => Enqueue(s, q, copy.message.(headers := RetryHeaders(copy.message)), Ran(copy.trace))
    case DeadLetter(q) => Enqueue(s, q, copy.message.(headers := DeadHeaders(copy.message, q, error)), Ran(copy.trace))
    case Drop => s
  }

  function Processed(s: State, i: nat, c: QueueConfig, failure: Option<string>): State
    requires i < |s.copies|
  {
    match failure
    case None => Move(s.(copies := s.copies[i := s.copies[i].(trace := Ran(s.copies[i].trace))]), i, Acked)
    case Some(error) => Move(PublishFailure(s, i, c, error), i, Rejected)
  }

  /** The copy is the message one attempt on, waiting in the retry queue of that attempt. */
  predicate IsRetryOf(c: QueueConfig, m: Message, copy: Copy) {
    && copy.place.InQueue? && Waits(c) != 0
    && copy.place.queue == (if Named(c.retryQueue) then c.retryQueue.value
                            else if Listed(c.retryQueues) && Attempt(m) < |c.retryQueues.value|
                            then c.retryQueues.value[Attempt(m)].name else "")
    && copy.message.body == m.body && copy.message.headers.attempt == Some(Attempt(m) + 1)
    && copy.message.headers.error == m.headers.error && copy.message.headers.origin == m.headers.origin
  }

  /** The copy is the message, dead-lettered with this error. */
  predicate IsDeathOf(c: QueueConfig, m: Message, error: string, copy: Copy) {
    && c.deadLetterQueue.Some? && copy.place == InQueue(c.deadLetterQueue.value)
    && copy.message.body == m.body && copy.message.headers.attempt == m.headers.attempt
    && copy.message.headers.error == Some(error)
  }

  // The retry queue of the next attempt is listed without a name, which the consumer takes for none.
  predicate UnnamedNext(c: QueueConfig, m: Message) {
    Listed(c.retryQueues) && Attempt(m) < |c.retryQueues.value| && c.retryQueues.value[Attempt(m)].name == ""
  }

  // ---------- Admin actions on stored rows ----------

  function Republished(b: Body): Body {
    match b
    case Event(_) => b
    case Garbled(text) => Event(RawText(text))
  }

  // The queue a row is republished to; the empty string stands for "none found".
  function OriginalQueue(m: Message, dead: string): string {
    if Named(m.headers.origin) then m.headers.origin.value
    else if HasDeadSuffix(dead) then StripDeadSuffix(dead)
    else ""
  }

  /** The message's own queue, if it names one, or else the one whose dead-letter queue it lies in. */
  predicate GoesBackTo(m: Message, dead: string, queue: string) {
    if Named(m.headers.origin) then queue == m.headers.origin.value else queue != "" && dead == queue + "_dead"
  }

  lemma OriginalQueueIs(m: Message, dead: string)
    ensures OriginalQueue(m, dead) != "" ==> GoesBackTo(m, dead, OriginalQueue(m, dead))
    ensures OriginalQueue(m, dead) == "" ==> forall queue :: !GoesBackTo(m, dead, queue)
  {
    DeadSuffixUndoes(dead, OriginalQueue(m, dead));
    forall queue | GoesBackTo(m, dead, queue)
      ensures OriginalQueue(m, dead) == queue
    {
      DeadSuffixUndoes(dead, queue);
    }
  }

  predicate PendingRow(s: State, pk: nat) {
    pk < |s.copies| && s.copies[pk].place.Stored? && s.copies[pk].place.status == PENDING
  }

  // The trace of the message republished from the row pk.
  function Relived(t: Trace, pk: nat, now: int): Trace {
    Trace(t.id, t.life + 1, Some(pk), 0, t.total, now)
  }

  function RetryRow(s: State, pk: nat): State {
    if !PendingRow(s, pk) then s
    else
      var row := s.copies[pk];
      var queue := OriginalQueue(row.message, row.place.queue);
      var s' := if queue == "" then s
                else
                  Enqueue(s, queue, Message(Republished(row.message.body), NO_HEADERS), Relived(row.trace, pk, s.now));
      s'.(copies := s'.copies[pk := row.(place := Stored(row.place.queue, RETRIED))])
  }

  function RetryRows(s: State, pks: seq<nat>): (after: State)
    ensures |s.copies| <= |after.copies|
  {
    if pks == [] then s else RetryRow(RetryRows(s, pks[..|pks| - 1]), pks[|pks| - 1])
  }

  // ---------- A retry action, one row at a time ----------

  // The action reads the row without a lock...
  function SelectRow(s: State, pk: nat): State
    requires pk < |s.copies|
  {
    s.(retries := s.retries + [Retrying(pk, s.copies[pk], Selected)])
  }

  function QueueOf(r: Retrying): string {
    if r.row.place.Stored? then OriginalQueue(r.row.message, r.row.place.queue) else ""
  }

  function Close(s: State, k: nat, phase: Phase): State
    requires k < |s.retries|
  {
    s.(retries := s.retries[k := s.retries[k].(phase := phase)])
  }

  // ...publishes what it read...
  function SendRow(s: State, k: nat): State
    requires k < |s.retries|
  {
    var r := s.retries[k];
    var sent := Close(s, k, Sent);
    if QueueOf(r) == "" then sent
    else
      Enqueue(sent, QueueOf(r), Message(Republished(r.row.message.body), NO_HEADERS),
              Relived(r.row.trace, r.pk, s.now))
  }

  // ...and marks the row, whatever its status is by then.
  function CommitRow(s: State, k: nat): State
    requires k < |s.retries| && s.retries[k].pk < |s.copies| && s.copies[s.retries[k].pk].place.Stored?
  {
    var pk := s.retries[k].pk;
    Close(s, k, Closed).(copies := s.copies[pk := s.copies[pk].(place := Stored(s.copies[pk].place.queue, RETRIED))])
  }

  /** With nothing in between, the three steps do to the copies what the action alone does. */
  lemma StepsMakeTheAction(s: State, pk: nat)
    requires PendingRow(s, pk)
    ensures var k := |s.retries|;
            var sent := SendRow(SelectRow(s, pk), k);
            && sent.retries[k].pk == pk < |sent.copies| && sent.copies[pk].place.Stored?
            && CommitRow(sent, k).(retries := s.retries) == RetryRow(s, pk)
  {
  }

  function DiscardRow(copy: Copy): Copy {
    if copy.place.Stored? && copy.place.status == PENDING
    then copy.(place := Stored(copy.place.queue, DISCARDED))
    else copy
  }

  function DiscardRows(s: State, pks: seq<nat>): State {
    s.(copies := seq(|s.copies|, i requires 0 <= i < |s.copies| =>
      if i in pks then DiscardRow(s.copies[i]) else s.copies[i]))
  }

  // ---------- The consumer and the admin actions, step by step on the shared state ----------

  class Connection {
    var state: State

    constructor ()
      ensures state == State([], 0, [], [])
    {
      state := State([], 0, [], []);
    }

    method Publish(queue: string, m: Message, trace: Trace)
      modifies this
      ensures state == Enqueue(old(state), queue, m, trace)
    {
      state := state.(copies := state.copies + [Copy(m, InQueue(queue), state.now, trace)]);
    }

    method Settle(i: nat, place: Place)
      requires i < |state.copies|
      modifies this
      ensures state == Move(old(state), i, place)
    {
      state := state.(copies := state.copies[i := state.copies[i].(place := place, since := state.now)]);
    }

    /** `process_message`: run the handler; on an exception publish to the next retry queue or to
        the dead-letter queue, then reject the delivery without requeueing. */
    method ProcessMessage(i: nat, c: QueueConfig, failure: Option<string>)
      requires At(state, i, Unacked(c.name))
      modifies this
      ensures state == Processed(old(state), i, c, failure)
      ensures failure.None? ==> |state.copies| == |old(state).copies| && state.copies[i].place == Acked
      ensures failure.Some? ==> i < |state.copies| && state.copies[i].place == Rejected
      ensures failure.Some? && Accepted(c) && NamesSet(c) ==>
                var before, n := old(state).copies[i].message, |old(state).copies|;
                && (Endless(c) || Attempt(before) < Budget(c) ==>
                      |state.copies| == n + 1 && IsRetryOf(c, before, state.copies[n]))
                && (!Endless(c) && Budget(c) <= Attempt(before) && Named(c.deadLetterQueue) ==>
                      |state.copies| == n + 1 && IsDeathOf(c, before, failure.value, state.copies[n]))
                && (!Endless(c) && Budget(c) <= Attempt(before) && !Named(c.deadLetterQueue) ==>
                      |state.copies| == n)
      ensures failure.Some? && UnnamedNext(c, old(state).copies[i].message) ==>
                var before, n := old(state).copies[i].message, |old(state).copies|;
                if Named(c.deadLetterQueue) then
                  |state.copies| == n + 1 && IsDeathOf(c, before, failure.value, state.copies[n])
                else |state.copies| == n
    {
      if Accepted(c) && NamesSet(c) {
        RouteByBudget(c, Attempt(state.copies[i].message));
      }
      var message := state.copies[i].message;
      var trace := Ran(state.copies[i].trace);
      if failure.None? {
        state := state.(copies := state.copies[i := state.copies[i].(trace := trace)]);
        Settle(i, Acked);
        return;
      }
      var headers := message.headers;
      var attempt := headers.attempt.GetOr(0);
      var nextQueue := "";
      if c.retryQueues.Some? && c.retryQueues.value != [] {
        if attempt < |c.retryQueues.value| {
          nextQueue := c.retryQueues.value[attempt].name;
        }
      } else if c.retryQueue.Some? && c.retryQueue.value != "" {
        if c.maxRetries.None? || c.maxRetries.value == 0 || attempt < c.maxRetries.value {
          nextQueue := c.retryQueue.value;
        }
      }
      if nextQueue != "" {
        headers := headers.(attempt := Some(attempt + 1));
        Publish(nextQueue, Message(message.body, headers), trace);
      } else if c.deadLetterQueue.Some? && c.deadLetterQueue.value != "" {
        headers := headers.(error := failure);
        if HasDeadSuffix(c.deadLetterQueue.value) {
          headers := headers.(origin := Some(StripDeadSuffix(c.deadLetterQueue.value)));
        }
        Publish(c.deadLetterQueue.value, Message(message.body, headers), trace);
      }
      Settle(i, Rejected);
    }

    /** `action_retry`: ids are handled one after another, repeated ids included. */
    method ActionRetry(pks: seq<nat>)
      modifies this
      ensures state == RetryRows(old(state), pks)
    {
      for k := 0 to |pks|
        invariant state == RetryRows(old(state), pks[..k])
      {
        assert pks[..k + 1][..k] == pks[..k];
        var pk := pks[k];
        if PendingRow(state, pk) {
          var row := state.copies[pk];
          var originalQueue := if row.message.headers.origin.Some? then row.message.headers.origin.value else "";
          if originalQueue == "" && HasDeadSuffix(row.place.queue) {
            originalQueue := StripDeadSuffix(row.place.queue);
          }
          if originalQueue != "" {
            var payload := match row.message.body
              case Event(_) => row.message.body
              case Garbled(text) => Event(RawText(text));
            Publish(originalQueue, Message(payload, NO_HEADERS), Relived(row.trace, pk, state.now));
          }
          state := state.(copies := state.copies[pk := row.(place := Stored(row.place.queue, RETRIED))]);
        }
      }
      assert pks[..|pks|] == pks;
    }

    /** `action_discard`: one UPDATE. Every pending row whose id is listed becomes DISCARDED and keeps
        the rest; no other copy changes and none is added. */
    method ActionDiscard(pks: seq<nat>)
      modifies this
      ensures |state.copies| == |old(state).copies|
      ensures forall i :: 0 <= i < |state.copies| ==>
                var before := old(state).copies[i];
                state.copies[i] ==
                if i in pks && before.place.Stored? && before.place.status == PENDING
                then before.(place := Stored(before.place.queue, DISCARDED))
                else before
      ensures state.now == old(state).now && state.published == old(state).published
      ensures state == DiscardRows(old(state), pks)
    {
      if pks != [] {
        var rows := state.copies;
        state := state.(copies := seq(|rows|, i requires 0 <= i < |rows| =>
          if i in pks && rows[i].place.Stored? && rows[i].place.status == PENDING
          then rows[i].(place := Stored(rows[i].place.queue, DISCARDED))
          else rows[i]));
      }
      assert state.copies == DiscardRows(old(state), pks).copies;
    }
  }

  // ---------- Declaring the queues ----------

  // The arguments of a declared queue: its time to live and where expired messages go.
  datatype Arguments = Plain | DeadLetterTo(ttl: int, queue: string)

  ghost predicate Declares(declared: map<string, Arguments>, c: QueueConfig) {
    forall r :: HasRole(c, r) ==>
      && RoleName(c, r) in declared
      && declared[RoleName(c, r)] == if r.Waiting? then DeadLetterTo(SlotTtl(c, r.k), c.name) else Plain
  }

  /** The same in the configuration's own terms: its main and dead-letter queues are plain, and each retry
      queue has the time to live configured for it and dead-letters into the main queue. */
  ghost predicate Routes(declared: map<string, Arguments>, c: QueueConfig) {
    && c.name in declared && declared[c.name] == Plain
    && (Named(c.deadLetterQueue) ==>
          c.deadLetterQueue.value in declared && declared[c.deadLetterQueue.value] == Plain)
    && (Named(c.retryQueue) ==>
          && c.retryQueue.value in declared && c.retryTtl.Some?
          && declared[c.retryQueue.value] == DeadLetterTo(c.retryTtl.value, c.name))
    && (c.retryQueues.Some? ==>
          forall q :: q in c.retryQueues.value ==>
                        q.name in declared && declared[q.name] == DeadLetterTo(q.ttl, c.name))
  }

  lemma DeclaresRoutes(declared: map<string, Arguments>, c: QueueConfig)
    requires Accepted(c) && Declares(declared, c)
    ensures Routes(declared, c)
  {
    assert HasRole(c, Main) && RoleName(c, Main) == c.name;
    assert Named(c.deadLetterQueue) ==> HasRole(c, Dead) && RoleName(c, Dead) == c.deadLetterQueue.value;
    assert Named(c.retryQueue) ==> HasRole(c, Waiting(0)) && RoleName(c, Waiting(0)) == c.retryQueue.value;
    if c.retryQueues.Some? {
      forall q | q in c.retryQueues.value
        ensures q.name in declared && declared[q.name] == DeadLetterTo(q.ttl, c.name)
      {
        var k: nat :| k < |c.retryQueues.value| && c.retryQueues.value[k] == q;
        assert HasRole(c, Waiting(k)) && RoleName(c, Waiting(k)) == q.name;
      }
    }
  }

  // The name of one of the queues of this configuration.
  ghost predicate IsQueueOf(c: QueueConfig, name: string) {
    exists r :: HasRole(c, r) && RoleName(c, r) == name
  }

  ghost predicate NameIn(retries: seq<RetryQueue>, name: string) {
    exists k :: 0 <= k < |retries| && retries[k].name == name
  }

  lemma QueueNames(c: QueueConfig, name: string)
    requires Accepted(c)
    ensures IsQueueOf(c, name) <==>
              || name == c.name
              || (Named(c.retryQueue) && name == c.retryQueue.value)
              || (Listed(c.retryQueues) && NameIn(c.retryQueues.value, name))
              || (Named(c.deadLetterQueue) && name == c.deadLetterQueue.value)
  {
    assert HasRole(c, Main) && RoleName(c, Main) == c.name;
    if Named(c.retryQueue) {
      assert HasRole(c, Waiting(0)) && RoleName(c, Waiting(0)) == c.retryQueue.value;
    }
    if k: nat :| Listed(c.retryQueues) && k < |c.retryQueues.value| && c.retryQueues.value[k].name == name {
      assert HasRole(c, Waiting(k)) && RoleName(c, Waiting(k)) == name;
    }
    if Named(c.deadLetterQueue) {
      assert HasRole(c, Dead) && RoleName(c, Dead) == c.deadLetterQueue.value;
    }
  }

  method DeclareRetries(declared: map<string, Arguments>, retries: seq<RetryQueue>, main: string)
    returns (d: map<string, Arguments>)
    requires forall j, k :: 0 <= j < k < |retries| ==> retries[j].name != retries[k].name
    ensures forall name :: name in d <==> name in declared || NameIn(retries, name)
    ensures forall k :: 0 <= k < |retries| ==>
              retries[k].name in d && d[retries[k].name] == DeadLetterTo(retries[k].ttl, main)
    ensures forall name :: name in declared && !NameIn(retries, name) ==> d[name] == declared[name]
  {
    d := declared;
    for k := 0 to |retries|
      invariant forall name :: name in d <==> name in declared || NameIn(retries[..k], name)
      invariant forall j :: 0 <= j < k ==>
                  retries[j].name in d && d[retries[j].name] == DeadLetterTo(retries[j].ttl, main)
      invariant forall name :: name in declared && !NameIn(retries, name) ==> d[name] == declared[name]
    {
      d := d[retries[k].name := DeadLetterTo(retries[k].ttl, main)];
      assert retries[..k + 1] == retries[..k] + [retries[k]];
      assert forall name :: NameIn(retries[..k], name) ==> NameIn(retries[..k + 1], name);
      assert retries[..k + 1][k] == retries[k];
    }
    assert retries[..|retries|] == retries;
  }

  lemma RolesDiffer(q: QueueConfig, r: Role, r': Role)
    requires Distinct([q]) && HasRole(q, r) && HasRole(q, r') && r != r'
    ensures RoleName(q, r) != RoleName(q, r')
  {
    assert [q][0] == q;
  }

  method DeclareQueues(declared: map<string, Arguments>, q: QueueConfig) returns (d: map<string, Arguments>)
    requires Distinct([q]) && Accepted(q)
    ensures Declares(d, q)
    ensures forall name :: name in d <==> name in declared || IsQueueOf(q, name)
    ensures forall name :: name in declared && !IsQueueOf(q, name) ==> d[name] == declared[name]
  {
    forall r, r' | HasRole(q, r) && HasRole(q, r') && r != r'
      ensures RoleName(q, r) != RoleName(q, r')
    {
      RolesDiffer(q, r, r');
    }
    forall name
      ensures IsQueueOf(q, name) <==>
              || name == q.name
              || (Named(q.retryQueue) && name == q.retryQueue.value)
              || (Listed(q.retryQueues) && NameIn(q.retryQueues.value, name))
              || (Named(q.deadLetterQueue) && name == q.deadLetterQueue.value)
    {
      QueueNames(q, name);
    }
    d := declared[q.name := Plain];
    if Named(q.retryQueue) {
      d := d[q.retryQueue.value := DeadLetterTo(q.retryTtl.value, q.name)];
    }
    if Listed(q.retryQueues) {
      forall j, k | 0 <= j < k < |q.retryQueues.value|
        ensures q.retryQueues.value[j].name != q.retryQueues.value[k].name
      {
        RolesDiffer(q, Waiting(j), Waiting(k));
      }
      d := DeclareRetries(d, q.retryQueues.value, q.name);
    }
    if Named(q.deadLetterQueue) {
      d := d[q.deadLetterQueue.value := Plain];
    }
    forall r | HasRole(q, r)
      ensures RoleName(q, r) in d
      ensures d[RoleName(q, r)] == if r.Waiting? then DeadLetterTo(SlotTtl(q, r.k), q.name) else Plain
    {
      assert r != Main ==> RoleName(q, r) != RoleName(q, Main);
      assert r != Dead && Named(q.deadLetterQueue) ==> RoleName(q, r) != RoleName(q, Dead);
      match r {
        case Main =>
          forall k: nat | HasRole(q, Waiting(k))
            ensures RoleName(q, Waiting(k)) != q.name
          {
            assert RoleName(q, Main) == q.name;
          }
          if Listed(q.retryQueues) && NameIn(q.retryQueues.value, q.name) {
            var k: nat :| k < |q.retryQueues.value| && q.retryQueues.value[k].name == q.name;
            assert HasRole(q, Waiting(k));
          }
          assert Named(q.retryQueue) ==> HasRole(q, Waiting(0));
        case Waiting(k) =>
          if Listed(q.retryQueues) {
            assert RoleName(q, r) == q.retryQueues.value[k].name;
          }
        case Dead =>
      }
    }
  }

  /** `start_consumers`: after it, every main and dead-letter queue is a plain queue, a message
      that outlives its stay in a retry queue goes back to the main queue of the same
      configuration, and each main queue has the consumer of its own configuration. */
  method StartConsumers(configs: seq<QueueConfig>)
    returns (declared: map<string, Arguments>, consumers: map<string, QueueConfig>)
    requires WellFormed(configs)
    ensures forall c :: 0 <= c < |configs| ==> Declares(declared, configs[c])
    ensures forall c :: 0 <= c < |configs| ==> Routes(declared, configs[c])
    ensures forall name :: name in declared ==> exists c :: 0 <= c < |configs| && IsQueueOf(configs[c], name)
    ensures forall c :: 0 <= c < |configs| ==> configs[c].name in consumers && consumers[configs[c].name] == configs[c]
  {
    declared, consumers := map[], map[];
    for n := 0 to |configs|
      invariant forall c :: 0 <= c < n ==> Declares(declared, configs[c])
      invariant forall name :: name in declared ==> exists c :: 0 <= c < n && IsQueueOf(configs[c], name)
      invariant forall c :: 0 <= c < n ==> configs[c].name in consumers && consumers[configs[c].name] == configs[c]
    {
      var before := declared;
      declared := DeclareQueues(declared, configs[n]);
      forall c | 0 <= c < n
        ensures Declares(declared, configs[c]) && configs[c].name != configs[n].name
      {
        DeclaresKept(configs, c, n, before, declared);
      }
      consumers := consumers[configs[n].name := configs[n]];
    }
    forall c | 0 <= c < |configs|
      ensures Routes(declared, configs[c])
    {
      DeclaresRoutes(declared, configs[c]);
    }
  }

  // Declaring the queues of one configuration leaves the declarations of another alone.
  lemma DeclaresKept(
    configs: seq<QueueConfig>, c: nat, n: nat, before: map<string, Arguments>, after: map<string, Arguments>)
    requires Distinct(configs) && c < n < |configs| && Declares(before, configs[c])
    requires forall name :: name in before ==> name in after
    requires forall name :: name in before && !IsQueueOf(configs[n], name) ==> after[name] == before[name]
    ensures Declares(after, configs[c]) && configs[c].name != configs[n].name
  {
    assert HasRole(configs[c], Main) && HasRole(configs[n], Main);
    assert RoleName(configs[c], Main) != RoleName(configs[n], Main);
    forall r | HasRole(configs[c], r)
      ensures !IsQueueOf(configs[n], RoleName(configs[c], r))
    {
    }
  }
}
