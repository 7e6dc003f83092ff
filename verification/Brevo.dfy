/** Sending mail through Brevo: the retry loop around one request, its waits, and the batches. */
module Brevo {
  import opened Wrappers

  const BACKOFF_BASE: real := 3.0
  const BACKOFF_MAX: real := 60.0
  const JITTER: real := 0.2
  const MESSAGE_VERSION_BATCH_SIZE: nat := 1000

  /** What comes back for one sent request; `reset` is the rate-limit header as a number, None when
      it is missing or does not parse. */
  datatype Reply = Answer(status: int, reset: Option<real>) | NetworkFailure

  datatype Outcome = Body | Failed(status: int)

  predicate Successful(r: Reply) { r.Answer? && 200 <= r.status < 300 }

  predicate Retryable(r: Reply) {
    r.NetworkFailure? || 500 <= r.status < 600 || r.status == 429
  }

  // The status raised for a reply that ends the loop.
  function FailureStatus(r: Reply): int {
    if r.NetworkFailure? then 503 else r.status
  }

  function Pow2(n: nat): nat { if n == 0 then 1 else 2 * Pow2(n - 1) }

  function Min(a: real, b: real): real { if a < b then a else b }

  function Base(attempt: nat): real
    requires 1 <= attempt
  {
    Min(BACKOFF_BASE * Pow2(attempt - 1) as real, BACKOFF_MAX)
  }

  // The wait after an attempt; only a 429's header is looked at.
  function ComputeBackoff(attempt: nat, r: Reply, jitter: real): real
    requires 1 <= attempt
  {
    if r.Answer? && r.status == 429 && r.reset.Some? then r.reset.value else Base(attempt) * jitter
  }

  predicate JitterInRange(jitter: real) { 1.0 - JITTER <= jitter <= 1.0 + JITTER }

  function Sum(waits: seq<real>): real {
    if waits == [] then 0.0 else Sum(waits[..|waits| - 1]) + waits[|waits| - 1]
  }

  // What the base delays of s sleeps add up to.
  function BaseTotal(s: nat): real {
    if s <= 5 then 3.0 * (Pow2(s) - 1) as real else 93.0 + 60.0 * (s - 5) as real
  }

  lemma PowersOfTwo()
    ensures Pow2(0) == 1 && Pow2(1) == 2 && Pow2(2) == 4 && Pow2(3) == 8 && Pow2(4) == 16 && Pow2(5) == 32
  {
    assert Pow2(3) == 2 * Pow2(2);
    assert Pow2(5) == 2 * Pow2(4);
  }

  lemma {:induction false} PowerGrows(n: nat)
    requires 5 <= n
    ensures 32 <= Pow2(n)
  {
    PowersOfTwo();
    if 5 < n {
      PowerGrows(n - 1);
    }
  }

  /** The i-th wait, counted from 0: the reset header of a 429, or 3, 6, 12, 24, 48, 60, 60, ... seconds,
      stretched by the jitter. */
  predicate IsWait(i: nat, r: Reply, jitter: real, wait: real) {
    if r.Answer? && r.status == 429 && r.reset.Some? then wait == r.reset.value
    else
      wait == jitter * (if i == 0 then 3.0 else if i == 1 then 6.0 else if i == 2 then 12.0 else if i == 3 then 24.0
                        else if i == 4 then 48.0 else 60.0)
  }

  lemma BackoffIsWait(i: nat, r: Reply, jitter: real)
    ensures IsWait(i, r, jitter, ComputeBackoff(i + 1, r, jitter))
  {
    PowersOfTwo();
    if 5 <= i {
      PowerGrows(i);
    }
  }

  /** One more sleep adds its capped base delay. */
  lemma BaseTotalStep(s: nat)
    ensures BaseTotal(s + 1) == BaseTotal(s) + Base(s + 1)
  {
    PowersOfTwo();
    if 5 <= s {
      PowerGrows(s);
    }
  }

  // No 429 among the replies carries a usable reset header.
  predicate NoResets(replies: seq<Reply>) {
    forall i :: 0 <= i < |replies| && replies[i].Answer? && replies[i].status == 429 ==> replies[i].reset.None?
  }

  // The sleeps are the waits computed after the replies, in order.
  predicate SleepsFollow(sleeps: seq<real>, replies: seq<Reply>, jitters: seq<real>)
    requires |sleeps| <= |replies| && |sleeps| <= |jitters|
  {
    forall i :: 0 <= i < |sleeps| ==> sleeps[i] == ComputeBackoff(i + 1, replies[i], jitters[i])
  }

  /** Without reset headers s sleeps total within 20% of 3 * (2^s - 1) seconds for s <= 5, and of
      93 + 60 * (s - 5) beyond. */
  lemma {:induction false} SleepsBound(sleeps: seq<real>, replies: seq<Reply>, jitters: seq<real>)
    requires |sleeps| <= |replies| && |sleeps| <= |jitters| && SleepsFollow(sleeps, replies, jitters)
    requires NoResets(replies)
    requires forall i :: 0 <= i < |jitters| ==> JitterInRange(jitters[i])
    ensures 0.8 * BaseTotal(|sleeps|) <= Sum(sleeps) <= 1.2 * BaseTotal(|sleeps|)
    decreases |sleeps|
  {
    PowersOfTwo();
    if sleeps != [] {
      var n := |sleeps| - 1;
      SleepsBound(sleeps[..n], replies, jitters);
      BaseTotalStep(n);
      assert sleeps[n] == Base(n + 1) * jitters[n];
    }
  }

  /** The loop against a script of replies. It sends at most `maxAttempts` requests; it goes on only
      past retryable replies and stops at the first other one; the outcome is the last reply's; it
      sleeps between two requests and no more. Nothing is sent when `maxAttempts` is not positive. */
  method Request(replies: seq<Reply>, jitters: seq<real>, maxAttempts: int)
    returns (outcome: Outcome, sent: nat, sleeps: seq<real>)
    requires maxAttempts <= |replies| && maxAttempts <= |jitters|
    requires forall i :: 0 <= i < |jitters| ==> JitterInRange(jitters[i])
    ensures maxAttempts <= 0 ==> sent == 0 && outcome == Failed(500) && sleeps == []
    ensures 0 < maxAttempts ==> 1 <= sent <= maxAttempts && |sleeps| == sent - 1
    ensures sent <= |replies| && |sleeps| <= |jitters| && |sleeps| <= |replies|
    ensures forall i :: 0 <= i < sent - 1 ==>
              replies[i].NetworkFailure? || replies[i].status == 429 || 500 <= replies[i].status < 600
    ensures 0 < sent < maxAttempts ==>
              replies[sent - 1].Answer? && replies[sent - 1].status != 429 && !(500 <= replies[sent - 1].status < 600)
    ensures 0 < sent ==>
              match replies[sent - 1]
              case NetworkFailure => outcome == Failed(503)
              case Answer(status, _) => outcome == if 200 <= status < 300 then Body else Failed(status)
    ensures SleepsFollow(sleeps, replies, jitters)
    ensures forall i :: 0 <= i < |sleeps| ==> IsWait(i, replies[i], jitters[i], sleeps[i])
    ensures NoResets(replies) ==> 0.8 * BaseTotal(|sleeps|) <= Sum(sleeps) <= 1.2 * BaseTotal(|sleeps|)
  {
    sleeps, sent := [], 0;
    var attempt := 1;
    while attempt <= maxAttempts
      invariant sent == attempt - 1 == |sleeps| && sent <= |replies| && |sleeps| <= |jitters|
      invariant 0 < maxAttempts ==> attempt <= maxAttempts
      invariant maxAttempts <= 0 ==> attempt == 1
      invariant forall i :: 0 <= i < sent ==> Retryable(replies[i])
      invariant SleepsFollow(sleeps, replies, jitters)
      decreases maxAttempts - attempt
    {
      var reply := replies[attempt - 1];
      sent := attempt;
      if Successful(reply) {
        outcome := Body;
        break;
      }
      if !Retryable(reply) {
        outcome := Failed(reply.status);
        break;
      }
      var wait := ComputeBackoff(attempt, reply, jitters[attempt - 1]);
      if attempt == maxAttempts {
        outcome := Failed(FailureStatus(reply));
        break;
      }
      sleeps := sleeps + [wait];
      attempt := attempt + 1;
    }
    if maxAttempts <= 0 {
      outcome := Failed(500);
    }
    if NoResets(replies) {
      SleepsBound(sleeps, replies, jitters);
    }
    forall i | 0 <= i < |sleeps|
      ensures IsWait(i, replies[i], jitters[i], sleeps[i])
    {
      BackoffIsWait(i, replies[i], jitters[i]);
    }
  }

  // ---------- Batches ----------

  // The slices that start at i, i + size, and so on.
  function Slices<T>(xs: seq<T>, i: nat, size: nat): seq<seq<T>>
    requires 1 <= size
    decreases |xs| - i
  {
    if |xs| <= i then []
    else [if i + size <= |xs| then xs[i..i + size] else xs[i..]] + Slices(xs, i + size, size)
  }

  // None is the error on an empty list.
  function Batches<T>(versions: seq<T>): Option<seq<seq<T>>> {
    if versions == [] then None else Some(Slices(versions, 0, MESSAGE_VERSION_BATCH_SIZE))
  }

  function Flatten<T>(xss: seq<seq<T>>): seq<T> {
    if xss == [] then [] else xss[0] + Flatten(xss[1..])
  }

  lemma {:induction false} SlicesCover<T>(xs: seq<T>, i: nat, size: nat)
    requires 1 <= size && i <= |xs|
    ensures Flatten(Slices(xs, i, size)) == xs[i..]
    ensures forall k :: 0 <= k < |Slices(xs, i, size)| ==> 1 <= |Slices(xs, i, size)[k]| <= size
    ensures forall k :: 0 <= k < |Slices(xs, i, size)| - 1 ==> |Slices(xs, i, size)[k]| == size
    ensures (|Slices(xs, i, size)| - 1) * size < |xs| - i || |xs| == i
    ensures |xs| - i <= |Slices(xs, i, size)| * size
    decreases |xs| - i
  {
    var all := Slices(xs, i, size);
    if i + size <= |xs| {
      var rest := Slices(xs, i + size, size);
      SlicesCover(xs, i + size, size);
      assert all[1..] == rest;
      assert xs[i..] == xs[i..i + size] + xs[i + size..];
      MulStep(|rest|, size);
      MulStep(|rest| - 1, size);
      if |rest| == 0 {
        MulStep(0, size);
      }
    } else if i < |xs| {
      assert Slices(xs, i + size, size) == [];
      assert all == [xs[i..]];
      assert Flatten(all) == xs[i..] + Flatten(all[1..]);
      MulStep(0, size);
    }
  }

  lemma MulStep(m: int, n: int)
    ensures (m + 1) * n == m * n + n
    ensures m == 0 ==> m * n == 0
  {
  }

  /** For every nonempty list the batches put end to end are the list, so each message is in exactly
      one; each holds between 1 and 1000 messages, all but the last 1000; and there are
      ceil(n / 1000). The empty list is an error. */
  lemma BatchesPartition<T>(versions: seq<T>)
    ensures Batches(versions).None? <==> versions == []
    ensures Batches(versions).Some? ==>
              var batches := Batches(versions).value;
              && Flatten(batches) == versions
              && (forall k :: 0 <= k < |batches| ==> 1 <= |batches[k]| <= 1000)
              && (forall k :: 0 <= k < |batches| - 1 ==> |batches[k]| == 1000)
              && |batches| == (|versions| + 999) / 1000
  {
    if versions != [] {
      SlicesCover(versions, 0, MESSAGE_VERSION_BATCH_SIZE);
      assert versions[0..] == versions;
    }
  }
}
