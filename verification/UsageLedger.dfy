/** Committing usage logs and the credits counter of a workspace's subscription. Amounts are in
    hundredths of a credit. */
module UsageLedger {
  import opened Wrappers
  import opened Sums

  datatype Status = Pending | Success | Failed | Expired

  datatype Log = Log(
    key: nat,
    workspace: nat,
    created: int,
    reserved: nat,
    status: Status,
    charged: Option<nat>,
    deleted: bool)

  /** `testKeys` never consume credits; `used` holds the counter of each workspace that has a
      subscription context. */
  datatype Ledger = Ledger(logs: seq<Log>, testKeys: set<nat>, used: map<nat, int>)

  // A log as the commit leaves it; one that is no longer pending is returned as it is.
  function Committed(log: Log, success: bool): Log {
    if log.status != Pending then log
    else if success then log.(status := Success, charged := Some(log.reserved))
    else log.(status := Failed)
  }

  // The API key exists and owns the existing log.
  predicate Reaches(l: Ledger, key: Option<nat>, id: nat) {
    key.Some? && id < |l.logs| && !l.logs[id].deleted && l.logs[id].key == key.value
  }

  // A commit of this log charges its workspace's counter, whatever was committed before.
  predicate Charges(l: Ledger, key: Option<nat>, id: nat, success: bool) {
    && Reaches(l, key, id) && success && Committed(l.logs[id], success).charged.Some?
    && key.value !in l.testKeys && l.logs[id].workspace in l.used
  }

  function AfterCommit(l: Ledger, key: Option<nat>, id: nat, success: bool): Ledger {
    if !Reaches(l, key, id) then l
    else
      var log := Committed(l.logs[id], success);
      l.(logs := l.logs[id := log],
         used := if Charges(l, key, id, success)
                 then l.used[log.workspace := l.used[log.workspace] + log.charged.value]
                 else l.used)
  }

  // A charge is stored exactly in a log that was committed as a success.
  predicate ChargesMatch(logs: seq<Log>) {
    forall i :: 0 <= i < |logs| ==> (logs[i].charged.Some? <==> logs[i].status == Success)
  }

  class QuotaService {
    var logs: seq<Log>
    var testKeys: set<nat>
    var used: map<nat, int>

    ghost function Books(): Ledger
      reads this
    {
      Ledger(logs, testKeys, used)
    }

    /** Only a commit through a key that does not own the log is refused. A pending log takes its
        final status; the counter moves by the charge of a log that is, or already was, a success. */
    method CommitUsage(key: Option<nat>, id: nat, success: bool) returns (ok: bool)
      requires ChargesMatch(logs)
      modifies this
      ensures Books() == AfterCommit(old(Books()), key, id, success)
      ensures ChargesMatch(logs) && testKeys == old(testKeys)
      ensures !ok <==> key.Some? && id < |old(logs)| && !old(logs)[id].deleted && old(logs)[id].key != key.value
      ensures !(key.Some? && id < |old(logs)| && !old(logs)[id].deleted && old(logs)[id].key == key.value) ==>
                Books() == old(Books())
      ensures used.Keys == old(used).Keys && |logs| == |old(logs)|
      ensures forall i :: 0 <= i < |logs| && i != id ==> logs[i] == old(logs)[i]
      ensures forall w :: w in used ==>
                used[w] == old(used)[w] +
                           if key.Some? && id < |old(logs)| && !old(logs)[id].deleted && old(logs)[id].key == key.value
                              && success && key.value !in testKeys && old(logs)[id].workspace == w
                           then (match old(logs)[id].status
                                 case Pending => old(logs)[id].reserved
                                 case Success => old(logs)[id].charged.GetOr(0)
                                 case _ => 0)
                           else 0
      ensures Reaches(old(Books()), key, id) && old(logs)[id].status == Pending ==>
                logs[id].status == (if success then Success else Failed) &&
                logs[id].charged == (if success then Some(old(logs)[id].reserved) else None)
    {
      if key.None? || |logs| <= id || logs[id].deleted {
        return true;
      }
      var log := logs[id];
      if log.key != key.value {
        return false;
      }
      if log.status == Pending {
        log := log.(status := if success then Success else Failed);
        if success {
          log := log.(charged := Some(log.reserved));
        }
      }
      logs := logs[id := log];
      if success && log.charged.Some? && key.value !in testKeys && log.workspace in used {
        used := used[log.workspace := used[log.workspace] + log.charged.value];
      }
      ok := true;
    }
  }

  // ---------- Committing twice ----------

  /** What the first commit's log holds for the counter. */
  function Amount(log: Log): nat {
    if log.status == Pending then log.reserved else log.charged.GetOr(0)
  }

  /** A repeated commit changes nothing, as its documentation promises, exactly when it is not a
      success of a pending or successful log with a nonzero charge, of a live key, whose workspace
      has a counter. In that case the counter moves again by the whole charge. */
  lemma CommitTwiceIff(l: Ledger, key: Option<nat>, id: nat, success: bool)
    requires ChargesMatch(l.logs)
    ensures var once := AfterCommit(l, key, id, success);
            var twice := AfterCommit(once, key, id, success);
            && twice.logs == once.logs
            && (twice == once <==>
                !(Reaches(l, key, id) && success &&
                  l.logs[id].status in {Pending, Success} && Amount(l.logs[id]) != 0 &&
                  key.value !in l.testKeys && l.logs[id].workspace in l.used))
            && (twice != once ==>
                  twice.used[l.logs[id].workspace] == l.used[l.logs[id].workspace] + 2 * Amount(l.logs[id]))
  {
    var once := AfterCommit(l, key, id, success);
    var twice := AfterCommit(once, key, id, success);
    if Reaches(l, key, id) {
      assert Committed(once.logs[id], success) == once.logs[id];
      assert twice.logs == once.logs;
      if Charges(l, key, id, success) {
        var w := l.logs[id].workspace;
        assert twice.used == once.used[w := once.used[w] + Amount(l.logs[id])];
        assert Amount(l.logs[id]) == 0 ==> twice.used == once.used;
        assert Amount(l.logs[id]) != 0 ==> twice.used[w] != once.used[w];
      }
    }
  }

  // ---------- Whole runs ----------

  datatype Event =
    | Reserve(key: nat, workspace: nat, now: int, reserved: nat)
    | Commit(caller: Option<nat>, id: nat, success: bool)
    | ExpirePending(olderThan: int)

  function ExpireRow(log: Log, olderThan: int): Log {
    if log.status == Pending && log.created < olderThan && !log.deleted then log.(status := Expired) else log
  }

  function ExpireAll(logs: seq<Log>, olderThan: int): seq<Log> {
    seq(|logs|, i requires 0 <= i < |logs| => ExpireRow(logs[i], olderThan))
  }

  function Next(l: Ledger, e: Event): Ledger {
    match e
    case Reserve(key, workspace, now, reserved) =>
      l.(logs := l.logs + [Log(key, workspace, now, reserved, Pending, None, false)])
    case Commit(key, id, success) => AfterCommit(l, key, id, success)
    case ExpirePending(olderThan) => l.(logs := ExpireAll(l.logs, olderThan))
  }

  function Run(l: Ledger, events: seq<Event>): Ledger
    decreases |events|
  {
    if events == [] then l else Run(Next(l, events[0]), events[1..])
  }

  // A log keeps its final status and charge.
  predicate Settles(a: Log, b: Log) {
    b == a || (a.status == Pending && b == a.(status := b.status, charged := b.charged))
  }

  lemma StepSettles(l: Ledger, e: Event)
    requires ChargesMatch(l.logs)
    ensures ChargesMatch(Next(l, e).logs) && |l.logs| <= |Next(l, e).logs|
    ensures forall i :: 0 <= i < |l.logs| ==> Settles(l.logs[i], Next(l, e).logs[i])
    ensures e.Reserve? ==>
              && |Next(l, e).logs| == |l.logs| + 1
              && var log := Next(l, e).logs[|l.logs|];
                 && log.key == e.key && log.workspace == e.workspace && log.created == e.now && !log.deleted
                 && log.reserved == e.reserved && log.status == Pending && log.charged.None?
    ensures forall i :: 0 <= i < |l.logs| && l.logs[i].status == Pending ==>
              (Next(l, e).logs[i].status == Expired <==>
               e.ExpirePending? && l.logs[i].created < e.olderThan && !l.logs[i].deleted)
  {
  }

  /** Over any run a log leaves the pending state at most once and its charge is then fixed. */
  lemma {:induction false} StatusIsFinal(l: Ledger, events: seq<Event>, i: nat)
    requires ChargesMatch(l.logs) && i < |l.logs|
    ensures ChargesMatch(Run(l, events).logs) && |l.logs| <= |Run(l, events).logs|
    ensures Settles(l.logs[i], Run(l, events).logs[i])
    decreases |events|
  {
    if events != [] {
      StepSettles(l, events[0]);
      StatusIsFinal(Next(l, events[0]), events[1..], i);
    }
  }

  // ---------- The counter against the logs ----------

  // What a log adds to the bill of workspace w.
  function Bill(log: Log, testKeys: set<nat>, w: nat): nat {
    if log.workspace == w && log.key !in testKeys then log.charged.GetOr(0) else 0
  }

  function BillOf(testKeys: set<nat>, w: nat): Log -> nat {
    log => Bill(log, testKeys, w)
  }

  function Billed(logs: seq<Log>, testKeys: set<nat>, w: nat): nat {
    Sum(logs, BillOf(testKeys, w))
  }

  // The charge that an event adds to the counter of w a second time.
  function Repeated(l: Ledger, e: Event, w: nat): nat {
    if e.Commit? && Reaches(l, e.caller, e.id) && e.success && l.logs[e.id].status == Success
    then Bill(l.logs[e.id], l.testKeys, w)
    else 0
  }

  function RepeatedTotal(l: Ledger, events: seq<Event>, w: nat): nat
    decreases |events|
  {
    if events == [] then 0 else Repeated(l, events[0], w) + RepeatedTotal(Next(l, events[0]), events[1..], w)
  }

  lemma StepDrifts(l: Ledger, e: Event, w: nat)
    requires ChargesMatch(l.logs) && w in l.used
    ensures var n := Next(l, e);
            && w in n.used && n.testKeys == l.testKeys
            && n.used[w] - Billed(n.logs, n.testKeys, w)
               == l.used[w] - Billed(l.logs, l.testKeys, w) + Repeated(l, e, w)
  {
    var n := Next(l, e);
    match e
    case Reserve(_, _, _, _) => assert n.logs[..|l.logs|] == l.logs;
    case ExpirePending(_) => SumSame(l.logs, n.logs, BillOf(l.testKeys, w));
    case Commit(key, id, success) =>
      if Reaches(l, key, id) {
        SumUpdate(l.logs, id, Committed(l.logs[id], success), BillOf(l.testKeys, w));
      }
  }

  /** Between two renewals, the counter of a workspace runs ahead of the charges stored in its live
      keys' logs by exactly the charges of the success commits that repeated an earlier one. */
  lemma {:induction false} CounterDrift(l: Ledger, events: seq<Event>, w: nat)
    requires ChargesMatch(l.logs) && w in l.used
    ensures var n := Run(l, events);
            && w in n.used
            && n.used[w] - Billed(n.logs, n.testKeys, w) ==
               l.used[w] - Billed(l.logs, l.testKeys, w) + RepeatedTotal(l, events, w)
    decreases |events|
  {
    if events != [] {
      StepSettles(l, events[0]);
      StepDrifts(l, events[0], w);
      CounterDrift(Next(l, events[0]), events[1..], w);
    }
  }

  // Some event of the run repeats a success commit with a nonzero charge to w.
  predicate SomeRepeat(l: Ledger, events: seq<Event>, w: nat)
    decreases |events|
  {
    events != [] && (Repeated(l, events[0], w) != 0 || SomeRepeat(Next(l, events[0]), events[1..], w))
  }

  lemma {:induction false} TotalZeroIff(l: Ledger, events: seq<Event>, w: nat)
    ensures RepeatedTotal(l, events, w) == 0 <==> !SomeRepeat(l, events, w)
    decreases |events|
  {
    if events != [] {
      TotalZeroIff(Next(l, events[0]), events[1..], w);
    }
  }

  /** A counter that starts in balance ends in balance exactly when no success commit with a nonzero
      charge was delivered twice; it never falls behind. */
  lemma BalancedIff(l: Ledger, events: seq<Event>, w: nat)
    requires ChargesMatch(l.logs) && w in l.used && l.used[w] == Billed(l.logs, l.testKeys, w)
    ensures var n := Run(l, events);
            && w in n.used && Billed(n.logs, n.testKeys, w) <= n.used[w]
            && (n.used[w] == Billed(n.logs, n.testKeys, w) <==> !SomeRepeat(l, events, w))
  {
    CounterDrift(l, events, w);
    TotalZeroIff(l, events, w);
  }
}
