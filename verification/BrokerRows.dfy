/** What a retry action does to the stored rows it is given, however their ids are listed. */
module BrokerRows {
  import opened Queues
  import opened Broker

  // The rows a retry action will republish.
  function Retryable(s: State, pks: seq<nat>): set<nat> {
    set pk | pk in pks && PendingRow(s, pk) && OriginalQueue(s.copies[pk].message, s.copies[pk].place.queue) != ""
  }

  function Marked(s: State, pks: seq<nat>, i: nat): Copy
    requires i < |s.copies|
  {
    if i in pks && PendingRow(s, i)
    then s.copies[i].(place := Stored(s.copies[i].place.queue, RETRIED))
    else s.copies[i]
  }

  // s' is s after the rows listed in pks were retried.
  ghost predicate Touched(s: State, pks: seq<nat>, s': State) {
    && s'.now == s.now
    && |s'.copies| == |s.copies| + |Retryable(s, pks)|
    && (forall i :: 0 <= i < |s.copies| ==> s'.copies[i] == Marked(s, pks, i))
    && (forall i :: |s.copies| <= i < |s'.copies| ==> s'.copies[i].place.InQueue?)
  }

  lemma OneTouched(s: State, pk: nat)
    ensures Touched(s, [pk], RetryRow(s, pk))
  {
    assert Retryable(s, [pk]) == if pk in Retryable(s, [pk]) then {pk} else {};
  }

  lemma RetryableNow(s: State, init: seq<nat>, pk: nat, before: State)
    requires Touched(s, init, before)
    ensures Retryable(before, [pk]) == if pk !in init && pk in Retryable(s, [pk]) then {pk} else {}
  {
    if pk < |s.copies| {
      assert before.copies[pk] == Marked(s, init, pk);
    }
    assert pk in Retryable(before, [pk]) <==> pk !in init && pk in Retryable(s, [pk]);
    assert forall x :: x in Retryable(before, [pk]) ==> x == pk;
  }

  lemma RetryableThen(s: State, init: seq<nat>, pk: nat, before: State)
    requires Touched(s, init, before)
    ensures |Retryable(s, init + [pk])| == |Retryable(s, init)| + |Retryable(before, [pk])|
  {
    RetryableSplits(s, init, pk);
    RetryableNow(s, init, pk, before);
    if pk !in init && pk in Retryable(s, [pk]) {
      assert Retryable(s, [pk]) == {pk} && pk !in Retryable(s, init);
    } else if pk in init {
      assert Retryable(s, init + [pk]) == Retryable(s, init);
    } else {
      assert Retryable(s, [pk]) == {};
    }
  }

  lemma TouchedThen(s: State, init: seq<nat>, pk: nat, before: State, after: State)
    requires Touched(s, init, before) && Touched(before, [pk], after)
    ensures Touched(s, init + [pk], after)
  {
    RetryableThen(s, init, pk, before);
    forall i | 0 <= i < |s.copies|
      ensures after.copies[i] == Marked(s, init + [pk], i)
    {
    }
    forall i | |s.copies| <= i < |before.copies|
      ensures after.copies[i].place.InQueue?
    {
      assert after.copies[i] == Marked(before, [pk], i);
    }
  }

  /** A retry action marks every listed pending row RETRIED, leaves every other copy alone, and adds
      exactly one copy for each distinct row that has a queue to go to, however often its id is listed. */
  lemma {:induction false} RetryRowsTouch(s: State, pks: seq<nat>)
    ensures Touched(s, pks, RetryRows(s, pks))
    decreases |pks|
  {
    if pks == [] {
      assert Retryable(s, pks) == {};
    } else {
      var init, pk := pks[..|pks| - 1], pks[|pks| - 1];
      RetryRowsTouch(s, init);
      OneTouched(RetryRows(s, init), pk);
      TouchedThen(s, init, pk, RetryRows(s, init), RetryRows(s, pks));
      assert pks == init + [pk];
    }
  }

  lemma RetryableSplits(s: State, init: seq<nat>, pk: nat)
    ensures Retryable(s, init + [pk]) == Retryable(s, init) + Retryable(s, [pk])
    ensures pk in init ==> Retryable(s, [pk]) <= Retryable(s, init)
    ensures Retryable(s, [pk]) <= {pk}
  {
  }

  lemma RetryRowAdds(s: State, pk: nat)
    requires |s.copies| < |RetryRow(s, pk).copies|
    ensures pk in Retryable(s, [pk]) && |RetryRow(s, pk).copies| == |s.copies| + 1
    ensures RepublishedFrom(s, pk, RetryRow(s, pk).copies[|s.copies|])
  {
    if PendingRow(s, pk) {
      OriginalQueueIs(s.copies[pk].message, s.copies[pk].place.queue);
    }
  }

  /** Each copy a retry action adds starts a new life of one retryable row, in the queue that row
      goes back to, with its body and with the attempt count back at zero. */
  lemma {:induction false} RetryRowsAdd(s: State, pks: seq<nat>, i: nat) returns (pk: nat)
    requires |s.copies| <= i < |RetryRows(s, pks).copies|
    ensures pk in Retryable(s, pks) && RepublishedFrom(s, pk, RetryRows(s, pks).copies[i])
    decreases |pks|
  {
    var init, last := pks[..|pks| - 1], pks[|pks| - 1];
    assert pks == init + [last];
    RetryableSplits(s, init, last);
    var before := RetryRows(s, init);
    RetryRowsTouch(s, init);
    if i < |before.copies| {
      pk := RetryRowsAdd(s, init, i);
    } else {
      pk := last;
      RetryRowAdds(before, last);
      SameRow(s, init, before, last);
    }
  }

  lemma SameRow(s: State, init: seq<nat>, before: State, pk: nat)
    requires Touched(s, init, before) && pk in Retryable(before, [pk])
    ensures pk < |s.copies| && before.copies[pk] == s.copies[pk] && pk in Retryable(s, [pk])
  {
    assert pk < |s.copies| ==> before.copies[pk] == Marked(s, init, pk);
  }

  ghost predicate RepublishedFrom(s: State, pk: nat, copy: Copy)
    requires pk < |s.copies| && PendingRow(s, pk)
  {
    var row := s.copies[pk];
    && copy.place.InQueue? && GoesBackTo(row.message, row.place.queue, copy.place.queue)
    && copy.message.headers == NO_HEADERS && Attempt(copy.message) == 0
    && (row.message.body.Event? ==> copy.message.body == row.message.body)
    && (row.message.body.Garbled? ==> copy.message.body == Event(RawText(row.message.body.text)))
    && copy.trace.id == row.trace.id && copy.trace.life == row.trace.life + 1
  }

  // The rows of one message that a retry action will republish.
  function RetryableFor(s: State, pks: seq<nat>, id: nat): set<nat> {
    set pk | pk in Retryable(s, pks) && s.copies[pk].trace.id == id
  }

  lemma RetryableForSplits(s: State, init: seq<nat>, pk: nat, id: nat)
    ensures RetryableFor(s, init + [pk], id) == RetryableFor(s, init, id) + RetryableFor(s, [pk], id)
    ensures pk in init ==> RetryableFor(s, [pk], id) <= RetryableFor(s, init, id)
    ensures pk !in init ==> pk !in RetryableFor(s, init, id)
    ensures RetryableFor(s, [pk], id) <= {pk}
  {
    RetryableSplits(s, init, pk);
  }

  lemma RetryableForThen(s: State, init: seq<nat>, pk: nat, id: nat)
    ensures var before := RetryRows(s, init);
            |RetryableFor(s, init + [pk], id)| == |RetryableFor(s, init, id)| +
            if pk in Retryable(before, [pk]) && before.copies[pk].trace.id == id then 1 else 0
  {
    var before := RetryRows(s, init);
    RetryRowsTouch(s, init);
    RetryableNow(s, init, pk, before);
    RetryableForSplits(s, init, pk, id);
    if pk in Retryable(before, [pk]) {
      SameRow(s, init, before, pk);
    }
    AddOne(RetryableFor(s, init, id), RetryableFor(s, [pk], id), pk);
  }

  // The union with at most one element.
  lemma AddOne(a: set<nat>, b: set<nat>, x: nat)
    requires b <= {x}
    ensures |a + b| == |a| + if x in b && x !in a then 1 else 0
  {
    if x in b {
      assert b == {x};
      assert x in a ==> a + b == a;
    } else {
      assert a + b == a;
    }
  }

  // What the retry of one more id adds to the copies added so far: the message of that row, or nothing.
  lemma RetryRowsThen(s: State, init: seq<nat>, pk: nat) returns (added: seq<Copy>)
    ensures RetryRows(s, init + [pk]).copies[|s.copies|..] == RetryRows(s, init).copies[|s.copies|..] + added
    ensures |added| == if pk in Retryable(RetryRows(s, init), [pk]) then 1 else 0
    ensures added != [] ==>
              added[0].place.InQueue? && added[0].trace.id == RetryRows(s, init).copies[pk].trace.id
  {
    var n, before := |s.copies|, RetryRows(s, init);
    RetryRowsTouch(s, init);
    assert (init + [pk])[..|init|] == init;
    var after := RetryRow(before, pk);
    if PendingRow(before, pk) {
      assert pk < n;
    }
    if pk in Retryable(before, [pk]) {
      added := [after.copies[|before.copies|]];
    } else {
      added := [];
    }
    assert after.copies[n..] == before.copies[n..] + added;
  }
}
