/** The cached record of one API key: a Redis hash that a request fills field by field after a cache
    miss (HSET id, EXPIRE, HSET workspace_id, HSET is_test_key, HSET plan_id) while other requests,
    lapses and invalidations come in between. */
module ApiKeyCache {
  import opened Wrappers

  const TTL: int := 15

  datatype Field = Id | Workspace | IsTest | Plan

  // A field's text, when it was written, and the cache miss after which its writer asked the database.
  datatype Cell = Cell(text: string, at: int, read: int)

  // `made` is when the first field of this hash was written.
  datatype Entry = Entry(fields: map<Field, Cell>, deadline: Option<int>, made: int)

  // What one call of `cache_api_key_info` writes; `plan` is empty when there is none.
  datatype Info = Info(id: string, workspace: string, isTest: bool, plan: string)

  function TextOf(info: Info, f: Field): string {
    match f
    case Id => info.id
    case Workspace => info.workspace
    case IsTest => if info.isTest then "1" else "0"
    case Plan => info.plan
  }

  // ---------- The server's commands on the key ----------

  predicate Live(e: Option<Entry>, now: int) {
    e.Some? && match e.value.deadline case None => true case Some(d) => now < d
  }

  // HSET on a lapsed or missing key makes a new hash without a deadline.
  function HSet(e: Option<Entry>, now: int, f: Field, cell: Cell): Option<Entry> {
    if Live(e, now) then Some(e.value.(fields := e.value.fields[f := cell]))
    else Some(Entry(map[f := cell], None, now))
  }

  function Expire(e: Option<Entry>, now: int): Option<Entry> {
    if Live(e, now) then Some(e.value.(deadline := Some(now + TTL))) else e
  }

  // What `get_cached_api_key_info` returns.
  function Served(e: Option<Entry>, now: int): Option<map<Field, Cell>> {
    if Live(e, now) && Id in e.value.fields && e.value.fields[Id].text != "" then Some(e.value.fields) else None
  }

  // How a request for a workspace is answered from the cache; `Fault` is a missing dictionary key.
  datatype Answer = Absent | Fault | Denied | Resolved(id: string, isTest: bool, plan: Option<string>)

  function AnswerFrom(served: Option<map<Field, Cell>>, workspace: string): Answer {
    if served.None? then Absent
    else if Workspace !in served.value then Fault
    else if served.value[Workspace].text != workspace then Denied
    else if Id !in served.value || IsTest !in served.value then Fault
    else Resolved(served.value[Id].text, served.value[IsTest].text == "1",
                  if Plan in served.value && served.value[Plan].text != "" then Some(served.value[Plan].text) else None)
  }

  // What a request of this workspace gets when nobody else interferes.
  function Resolution(info: Info): Answer {
    Resolved(info.id, info.isTest, if info.plan == "" then None else Some(info.plan))
  }

  /** One request alone: the calls run start to end with no other client in between. */
  class KeyCache {
    var entry: Option<Entry>

    /** `get_cached_api_key_info` and, on a miss, `cache_api_key_info` with what the database holds. */
    method Resolve(info: Info, now: int) returns (answer: Answer)
      requires info.id != ""
      modifies this
      ensures Served(old(entry), now).Some? ==>
                entry == old(entry) && answer == AnswerFrom(Served(entry, now), info.workspace)
      ensures Served(old(entry), now).Some? && Workspace in entry.value.fields ==>
                && (answer == Denied <==> entry.value.fields[Workspace].text != info.workspace)
                && (answer.Resolved? ==>
                      && Id in entry.value.fields && entry.value.fields[Id].text == answer.id
                      && IsTest in entry.value.fields && (answer.isTest <==> entry.value.fields[IsTest].text == "1")
                      && (Plan in entry.value.fields && entry.value.fields[Plan].text != "" ==>
                            answer.plan == Some(entry.value.fields[Plan].text))
                      && (Plan !in entry.value.fields || entry.value.fields[Plan].text == "" ==> answer.plan == None))
      ensures Served(old(entry), now).None? ==>
                && answer == Resolution(info) == AnswerFrom(Served(entry, now), info.workspace)
                && answer == Resolved(info.id, info.isTest, if info.plan == "" then None else Some(info.plan))
                && entry.value.deadline == Some(now + TTL)
    {
      var cached := GetCachedApiKeyInfo(now);
      if cached.Some? {
        return AnswerFrom(cached, info.workspace);
      }
      CacheApiKeyInfo(info, now);
      answer := Resolution(info);
    }

    method CacheApiKeyInfo(info: Info, now: int)
      modifies this
      ensures Live(entry, now) && entry.value.deadline == Some(now + TTL)
      ensures forall f: Field :: f in entry.value.fields && entry.value.fields[f] == Cell(TextOf(info, f), now, now)
      ensures info.id != "" ==> AnswerFrom(Served(entry, now), info.workspace) == Resolution(info)
    {
      entry := HSet(entry, now, Id, Cell(info.id, now, now));
      entry := Expire(entry, now);
      entry := HSet(entry, now, Workspace, Cell(info.workspace, now, now));
      entry := HSet(entry, now, IsTest, Cell(if info.isTest then "1" else "0", now, now));
      entry := HSet(entry, now, Plan, Cell(info.plan, now, now));
      forall f: Field
        ensures f in entry.value.fields && entry.value.fields[f] == Cell(TextOf(info, f), now, now)
      {
        match f
        case Id =>
        case Workspace =>
        case IsTest =>
        case Plan =>
      }
    }

    method GetCachedApiKeyInfo(now: int) returns (info: Option<map<Field, Cell>>)
      ensures info == Served(entry, now)
    {
      if !Live(entry, now) {
        return None;
      }
      var cached := entry.value.fields;
      if Id in cached && cached[Id].text != "" {
        return Some(cached);
      }
      info := None;
    }
  }

  // ---------- Any number of writers ----------

  /** A request that missed at `since`, and then the last command of its write that has been executed:
      HSET id, EXPIRE, HSET workspace_id, HSET is_test_key. */
  datatype Writer =
    | Idle
    | Missed(since: int)
    | Named(info: Info, since: int)
    | Timed(info: Info, since: int)
    | Placed(info: Info, since: int)
    | Tested(info: Info, since: int)

  // `armed` is when an EXPIRE last took effect.
  datatype State = State(entry: Option<Entry>, now: int, writers: seq<Writer>, armed: int)

  datatype Event =
    | Miss(i: nat)
    | GiveUp(i: nat)                // the database does not know the key
    | Begin(i: nat, info: Info)
    | Step(i: nat)
    | Invalidate
    | Tick(d: nat)
    | Crash(i: nat)

  function Init(n: nat): State {
    State(None, 0, seq(n, i => Idle), 0)
  }

  function Reads(s: State): Option<map<Field, Cell>> {
    Served(s.entry, s.now)
  }

  predicate Begins(s: State, e: Event) {
    e.Begin? && e.i < |s.writers| && s.writers[e.i].Missed? && e.info.id != ""
  }

  // A disabled event changes nothing.
  function Next(s: State, e: Event): State {
    match e
    case Miss(i) =>
      if i < |s.writers| && s.writers[i].Idle? && Reads(s) == None then
        s.(writers := s.writers[i := Missed(s.now)])
      else s
    case GiveUp(i) =>
      if i < |s.writers| && s.writers[i].Missed? then s.(writers := s.writers[i := Idle]) else s
    case Begin(i, info) => if Begins(s, e) then Put(s, i, Id, info, Named(info, s.writers[i].since)) else s
    case Step(i) => if i < |s.writers| then DoStep(s, i) else s
    case Invalidate => s.(entry := None)
    case Tick(d) => s.(now := s.now + d)
    case Crash(i) => if i < |s.writers| then s.(writers := s.writers[i := Idle]) else s
  }

  // Writer i's next command.
  function DoStep(s: State, i: nat): State
    requires i < |s.writers|
  {
    match s.writers[i]
    case Named(info, since) =>
      s.(entry := Expire(s.entry, s.now), writers := s.writers[i := Timed(info, since)],
         armed := if Live(s.entry, s.now) then s.now else s.armed)
    case Timed(info, since) => Put(s, i, Workspace, info, Placed(info, since))
    case Placed(info, since) => Put(s, i, IsTest, info, Tested(info, since))
    case Tested(info, since) => Put(s, i, Plan, info, Idle)
    case _ => s
  }

  function Put(s: State, i: nat, f: Field, info: Info, after: Writer): State
    requires i < |s.writers| && !s.writers[i].Idle?
  {
    s.(entry := HSet(s.entry, s.now, f, Cell(TextOf(info, f), s.now, s.writers[i].since)),
       writers := s.writers[i := after])
  }

  function Run(s: State, events: seq<Event>): State
    decreases |events|
  {
    if events == [] then s else Run(Next(s, events[0]), events[1..])
  }

  predicate NoCrash(events: seq<Event>) {
    forall e :: e in events ==> !e.Crash?
  }

  predicate NoBegin(events: seq<Event>) {
    forall e :: e in events ==> !e.Begin?
  }

  predicate MidWay(w: Writer) {
    w.Named? || w.Timed? || w.Placed? || w.Tested?
  }

  // No writer is between its first and its last command.
  predicate Quiet(s: State) {
    forall i :: 0 <= i < |s.writers| ==> !MidWay(s.writers[i])
  }

  lemma {:induction false} RunConcat(s: State, a: seq<Event>, b: seq<Event>)
    ensures Run(s, a + b) == Run(Run(s, a), b)
    decreases |a|
  {
    if a == [] {
      assert a + b == b;
    } else {
      assert (a + b)[1..] == a[1..] + b;
      RunConcat(Next(s, a[0]), a[1..], b);
    }
  }

  lemma RunOne(s: State, e: Event)
    ensures Run(s, [e]) == Next(s, e)
  {
    assert Run(Next(s, e), [e][1..]) == Next(s, e);
  }

  lemma RunLast(s: State, events: seq<Event>)
    requires events != []
    ensures Run(s, events) == Next(Run(s, events[..|events| - 1]), events[|events| - 1])
  {
    var n := |events| - 1;
    assert events == events[..n] + [events[n]];
    RunConcat(s, events[..n], [events[n]]);
    RunOne(Run(s, events[..n]), events[n]);
  }

  // ---------- What every reachable state satisfies ----------

  predicate Recent(s: State, f: Field) {
    s.entry.Some? && f in s.entry.value.fields && s.armed <= s.entry.value.fields[f].at
  }

  /** A deadline is 15 seconds after the last EXPIRE that took effect. */
  predicate DeadlineRight(s: State) {
    && s.armed <= s.now
    && (s.entry.Some? && s.entry.value.deadline.Some? ==> s.entry.value.deadline.value == s.armed + TTL)
    && (Live(s.entry, s.now) && Id in s.entry.value.fields ==> s.entry.value.fields[Id].text != "")
  }

  /** A live hash holding `id` without a deadline has a writer between HSET id and EXPIRE. */
  ghost predicate NamerArms(s: State) {
    Live(s.entry, s.now) && Id in s.entry.value.fields && s.entry.value.deadline.None? ==>
      exists i :: 0 <= i < |s.writers| && s.writers[i].Named?
  }

  // Writer w has armed the deadline and every field it has written since is recent.
  predicate Completing(s: State, w: Writer) {
    match w
    case Timed(_, _) => true
    case Placed(_, _) => Recent(s, Workspace)
    case Tested(_, _) => Recent(s, Workspace) && Recent(s, IsTest)
    case _ => false
  }

  predicate AllRecent(s: State) {
    Recent(s, Workspace) && Recent(s, IsTest) && Recent(s, Plan)
  }

  /** In a live hash with a deadline the other three fields are no older than that deadline's
      EXPIRE, or a writer is still on its way to make them so. */
  ghost predicate FillerCompletes(s: State) {
    Live(s.entry, s.now) && s.entry.value.deadline.Some? ==>
      AllRecent(s) || exists i :: 0 <= i < |s.writers| && Completing(s, s.writers[i])
  }

  ghost predicate Safe(s: State) {
    DeadlineRight(s) && NamerArms(s) && FillerCompletes(s)
  }

  lemma NamerStep(s: State, e: Event)
    requires Safe(s) && !e.Crash?
    ensures NamerArms(Next(s, e))
  {
    var t := Next(s, e);
    if Live(t.entry, t.now) && Id in t.entry.value.fields && t.entry.value.deadline.None? {
      if Begins(s, e) {
        assert t.writers[e.i].Named?;
      } else if t.entry != s.entry || t.writers != s.writers || t.now != s.now {
        var i :| 0 <= i < |s.writers| && s.writers[i].Named?;
        assert t.writers[i].Named?;
      }
    }
  }

  lemma FillerStep(s: State, e: Event)
    requires Safe(s) && !e.Crash?
    ensures FillerCompletes(Next(s, e))
  {
    var t := Next(s, e);
    if Live(t.entry, t.now) && t.entry.value.deadline.Some? && !AllRecent(t) {
      if e.Step? && e.i < |s.writers| && s.writers[e.i].Named? {
        assert Completing(t, t.writers[e.i]);
      } else {
        var i :| 0 <= i < |s.writers| && Completing(s, s.writers[i]);
        assert Completing(t, t.writers[i]);
      }
    }
  }

  /** Any writers, any interleaving, no crash: a hash holding `id` has a deadline at most 15 seconds
      away or a writer between HSET id and EXPIRE, and a hash that is served incomplete or with a
      field older than its deadline's EXPIRE has a writer still filling it. */
  lemma {:induction false} EveryReachableStateIsSafe(n: nat, events: seq<Event>)
    requires NoCrash(events)
    ensures Safe(Run(Init(n), events))
    decreases |events|
  {
    if events != [] {
      var init, e := events[..|events| - 1], events[|events| - 1];
      EveryReachableStateIsSafe(n, init);
      RunLast(Init(n), events);
      NamerStep(Run(Init(n), init), e);
      FillerStep(Run(Init(n), init), e);
    }
  }

  /** Whenever no writer is mid-way, what is served has all four fields, so no request faults, and
      every field but `id` was written less than 15 seconds ago. */
  lemma QuietServesCompleteAndRecent(n: nat, events: seq<Event>, workspace: string)
    requires NoCrash(events) && Quiet(Run(Init(n), events))
    ensures var s := Run(Init(n), events);
            && AnswerFrom(Reads(s), workspace) != Fault
            && (Reads(s).Some? ==>
                  && s.entry.value.deadline.Some? && s.entry.value.deadline.value <= s.now + TTL
                  && forall f :: f in {Workspace, IsTest, Plan} ==>
                       f in Reads(s).value && s.now - TTL < Reads(s).value[f].at)
  {
    EveryReachableStateIsSafe(n, events);
  }

  // ---------- A key that is no longer active ----------

  lemma {:induction false} QuietRun(s: State, events: seq<Event>)
    requires Quiet(s) && NoBegin(events)
    ensures var t := Run(s, events);
            Quiet(t) && s.now <= t.now && (t.entry == s.entry || t.entry == None)
    decreases |events|
  {
    if events != [] {
      assert events[0] in events;
      QuietRun(Next(s, events[0]), events[1..]);
    }
  }

  /** Once the database stops answering for a key, so that no write of it starts, and the writes
      under way have finished, the key is served for less than 15 seconds more. */
  lemma RevokedKeyFades(n: nat, events: seq<Event>, later: seq<Event>)
    requires NoCrash(events) && NoBegin(later)
    requires Quiet(Run(Init(n), events))
    requires Run(Init(n), events).now + TTL <= Run(Run(Init(n), events), later).now
    ensures Reads(Run(Run(Init(n), events), later)) == None
  {
    var s := Run(Init(n), events);
    EveryReachableStateIsSafe(n, events);
    QuietRun(s, later);
  }

  // ---------- What a served entry lacks ----------

  // The event executes HSET of this field.
  predicate Puts(s: State, e: Event, f: Field) {
    match f
    case Id => Begins(s, e)
    case Workspace => e.Step? && e.i < |s.writers| && s.writers[e.i].Timed?
    case IsTest => e.Step? && e.i < |s.writers| && s.writers[e.i].Placed?
    case Plan => e.Step? && e.i < |s.writers| && s.writers[e.i].Tested?
  }

  predicate LiveAfter(s: State, events: seq<Event>, n: nat)
    requires n <= |events|
  {
    Live(Run(s, events[..n]).entry, Run(s, events[..n]).now)
  }

  // The run's k-th event writes the field, and the hash has been live ever since.
  ghost predicate PutStands(s: State, events: seq<Event>, f: Field, k: nat)
    requires k < |events|
  {
    Puts(Run(s, events[..k]), events[k], f) && forall j :: k < j <= |events| ==> LiveAfter(s, events, j)
  }

  ghost predicate PutSince(s: State, events: seq<Event>, f: Field) {
    exists k :: 0 <= k < |events| && PutStands(s, events, f, k)
  }

  predicate Holds(s: State, f: Field) {
    Live(s.entry, s.now) && f in s.entry.value.fields
  }

  lemma HoldsStep(s: State, e: Event, f: Field)
    ensures Holds(Next(s, e), f) <==>
            Live(Next(s, e).entry, Next(s, e).now) && (Puts(s, e, f) || Holds(s, f))
  {
  }

  lemma PutSinceStep(s: State, events: seq<Event>, f: Field)
    requires events != []
    ensures var n := |events| - 1;
            PutSince(s, events, f) <==>
            LiveAfter(s, events, |events|) &&
            (Puts(Run(s, events[..n]), events[n], f) ||
             (PutSince(s, events[..n], f) && (0 < n ==> LiveAfter(s, events, n))))
  {
    var n := |events| - 1;
    var prefix := events[..n];
    assert forall j :: 0 <= j <= n ==> events[..j] == prefix[..j];
    assert forall j :: 0 <= j <= n ==> (LiveAfter(s, events, j) <==> LiveAfter(s, prefix, j));
    if PutSince(s, events, f) {
      var k :| 0 <= k < |events| && PutStands(s, events, f, k);
      if k < n {
        assert PutStands(s, prefix, f, k);
      }
    }
    if LiveAfter(s, events, |events|) {
      if Puts(Run(s, events[..n]), events[n], f) {
        assert PutStands(s, events, f, n);
      } else if PutSince(s, prefix, f) {
        var k :| 0 <= k < n && PutStands(s, prefix, f, k);
        assert prefix[k] == events[k];
        assert PutStands(s, events, f, k);
      }
    }
  }

  lemma {:induction false} HoldsIff(s: State, events: seq<Event>, f: Field)
    requires s.entry == None
    ensures Holds(Run(s, events), f) <==> PutSince(s, events, f)
    decreases |events|
  {
    if events != [] {
      var n := |events| - 1;
      HoldsIff(s, events[..n], f);
      RunLast(s, events);
      HoldsStep(Run(s, events[..n]), events[n], f);
      PutSinceStep(s, events, f);
      assert events[..|events|] == events;
    }
  }

  /** After any run, crashes included, a request faults exactly when the live hash had its `id` written,
      and either `workspace_id` was not written since the hash was made, or it names the request's
      workspace and `is_test_key` was not. */
  lemma FaultIff(n: nat, events: seq<Event>, workspace: string)
    ensures var s := Run(Init(n), events);
            AnswerFrom(Reads(s), workspace) == Fault <==>
            (&& PutSince(Init(n), events, Id)
             && (!PutSince(Init(n), events, Workspace) ||
                 (WorkspaceOf(s) == Some(workspace) && !PutSince(Init(n), events, IsTest))))
  {
    HoldsIff(Init(n), events, Id);
    HoldsIff(Init(n), events, Workspace);
    HoldsIff(Init(n), events, IsTest);
    IdsSetRun(Init(n), events);
  }

  // Some answer of the database that the run wrote from had this text in the field.
  ghost predicate Read(events: seq<Event>, f: Field, text: string) {
    exists k :: 0 <= k < |events| && events[k].Begin? && TextOf(events[k].info, f) == text
  }

  function Writing(w: Writer): Option<Info> {
    if w.Idle? || w.Missed? then None else Some(w.info)
  }

  // What the requests are writing and what the hash holds was read by requests of the run.
  ghost predicate AllRead(s: State, events: seq<Event>) {
    && (forall i, f :: 0 <= i < |s.writers| && Writing(s.writers[i]).Some? ==>
          Read(events, f, TextOf(Writing(s.writers[i]).value, f)))
    && (s.entry.Some? ==> forall f :: f in s.entry.value.fields ==> Read(events, f, s.entry.value.fields[f].text))
  }

  lemma ReadStays(events: seq<Event>, e: Event, f: Field, text: string)
    ensures Read(events, f, text) || (e.Begin? && TextOf(e.info, f) == text) ==> Read(events + [e], f, text)
  {
    assert (events + [e])[|events|] == e;
    if Read(events, f, text) {
      var k :| 0 <= k < |events| && events[k].Begin? && TextOf(events[k].info, f) == text;
      assert (events + [e])[k] == events[k];
    }
  }

  lemma WritersRead(s: State, events: seq<Event>, e: Event, i: nat, f: Field)
    requires AllRead(s, events) && i < |Next(s, e).writers| && Writing(Next(s, e).writers[i]).Some?
    ensures Read(events + [e], f, TextOf(Writing(Next(s, e).writers[i]).value, f))
  {
    var info := Writing(Next(s, e).writers[i]).value;
    ReadStays(events, e, f, TextOf(info, f));
    assert Writing(s.writers[i]) == Some(info) || (e.Begin? && e.info == info);
  }

  lemma FieldsRead(s: State, events: seq<Event>, e: Event, f: Field)
    requires AllRead(s, events) && Next(s, e).entry.Some? && f in Next(s, e).entry.value.fields
    ensures Read(events + [e], f, Next(s, e).entry.value.fields[f].text)
  {
    var text := Next(s, e).entry.value.fields[f].text;
    ReadStays(events, e, f, text);
    if e.Step? && Puts(s, e, f) {
      assert text == TextOf(Writing(s.writers[e.i]).value, f);
    }
  }

  lemma {:induction false} AllReadRun(n: nat, events: seq<Event>)
    ensures AllRead(Run(Init(n), events), events)
    decreases |events|
  {
    if events != [] {
      var init := events[..|events| - 1];
      AllReadRun(n, init);
      RunLast(Init(n), events);
      var before, last := Run(Init(n), init), events[|events| - 1];
      var s := Next(before, last);
      assert events == init + [last];
      forall i, f | 0 <= i < |s.writers| && Writing(s.writers[i]).Some?
        ensures Read(events, f, TextOf(Writing(s.writers[i]).value, f))
      {
        WritersRead(before, init, last, i, f);
      }
      if s.entry.Some? {
        forall f | f in s.entry.value.fields
          ensures Read(events, f, s.entry.value.fields[f].text)
        {
          FieldsRead(before, init, last, f);
        }
      }
    }
  }

  /** After any run, crashes included: a request is denied if and only if the hash is served and holds
      another workspace; it is resolved only if the hash holds the request's own, with the hash's
      `id`, test flag and plan; and each of these was in an answer of the database in the run. */
  lemma AnswersAreTheEntry(n: nat, events: seq<Event>, workspace: string)
    ensures var s := Run(Init(n), events);
            var a := AnswerFrom(Reads(s), workspace);
            && (a.Absent? <==> !(Live(s.entry, s.now) && Id in s.entry.value.fields))
            && (a.Denied? <==> !a.Absent? && WorkspaceOf(s).Some? && WorkspaceOf(s) != Some(workspace))
            && (a.Resolved? ==>
                  && WorkspaceOf(s) == Some(workspace) && Read(events, Workspace, workspace)
                  && Holds(s, Id) && s.entry.value.fields[Id].text == a.id && Read(events, Id, a.id)
                  && Holds(s, IsTest) && s.entry.value.fields[IsTest].text == (if a.isTest then "1" else "0")
                  && (a.plan.None? <==> !Holds(s, Plan) || s.entry.value.fields[Plan].text == "")
                  && (a.plan.Some? ==>
                        s.entry.value.fields[Plan].text == a.plan.value && Read(events, Plan, a.plan.value)))
  {
    AllReadRun(n, events);
    IdsSetRun(Init(n), events);
  }

  function WorkspaceOf(s: State): Option<string> {
    if Holds(s, Workspace) then Some(s.entry.value.fields[Workspace].text) else None
  }

  predicate IdsSet(s: State) {
    s.entry.Some? && Id in s.entry.value.fields ==> s.entry.value.fields[Id].text != ""
  }

  lemma {:induction false} IdsSetRun(s: State, events: seq<Event>)
    requires IdsSet(s)
    ensures IdsSet(Run(s, events))
    decreases |events|
  {
    if events != [] {
      IdsSetRun(Next(s, events[0]), events[1..]);
    }
  }

  // ---------- A writer that dies ----------

  predicate MayArm(w: Writer) {
    w.Missed? || w.Named?
  }

  /** The entry is served, has no deadline, and no request will ever set one. */
  predicate Stuck(s: State) {
    && Reads(s).Some? && s.entry.value.deadline.None?
    && forall i :: 0 <= i < |s.writers| ==> !MayArm(s.writers[i])
  }

  // The client is the only one that may still set a deadline.
  predicate OnlyArmer(s: State, i: nat) {
    i < |s.writers| && MayArm(s.writers[i]) && forall k :: 0 <= k < |s.writers| && k != i ==> !MayArm(s.writers[k])
  }

  /** In every state, reachable or not: an event makes an entry stuck if and only if the entry is served
      without a deadline and the only request that missed and has not executed its EXPIRE dies, or
      gives up because the database no longer knows the key. */
  lemma StickIff(s: State, e: Event)
    requires !Stuck(s)
    ensures Stuck(Next(s, e)) <==>
            (&& Reads(s).Some? && s.entry.value.deadline.None?
             && ((e.Crash? && OnlyArmer(s, e.i)) || (e.GiveUp? && OnlyArmer(s, e.i) && s.writers[e.i].Missed?)))
  {
    var t := Next(s, e);
    if e.Crash? || e.GiveUp? {
      assert forall k :: 0 <= k < |s.writers| && k != e.i ==> t.writers[k] == s.writers[k];
    } else if Reads(s).Some? && s.entry.value.deadline.None? {
      var i :| 0 <= i < |s.writers| && MayArm(s.writers[i]);
      StaysArmed(s, e, i);
    } else if Begins(s, e) {
      assert MayArm(t.writers[e.i]);
    }
  }

  lemma StaysArmed(s: State, e: Event, i: nat)
    requires i < |s.writers| && MayArm(s.writers[i]) && !e.Crash? && !e.GiveUp?
    ensures !Stuck(Next(s, e))
  {
    var t := Next(s, e);
    assert MayArm(t.writers[i]) || (e.Step? && e.i == i && s.writers[i].Named?);
  }

  /** A stuck entry is served for ever unless it is invalidated, whatever requests come: none of them
      misses. */
  lemma {:induction false} StuckForever(s: State, events: seq<Event>)
    requires Stuck(s) && Invalidate !in events
    ensures Stuck(Run(s, events))
    decreases |events|
  {
    if events != [] {
      assert events[0] in events;
      StuckForever(Next(s, events[0]), events[1..]);
    }
  }

  // ---------- Hashes without an id ----------

  // A live hash made by a late field; it has no deadline and is not served.
  predicate Leftover(s: State) {
    Live(s.entry, s.now) && Id !in s.entry.value.fields
  }

  // A writer past its EXPIRE finds the hash gone.
  predicate Late(s: State, e: Event) {
    e.Step? && e.i < |s.writers| && (s.writers[e.i].Timed? || s.writers[e.i].Placed? || s.writers[e.i].Tested?)
    && !Live(s.entry, s.now)
  }

  predicate EverLeftover(s: State, events: seq<Event>)
    decreases |events|
  {
    Leftover(s) || (events != [] && EverLeftover(Next(s, events[0]), events[1..]))
  }

  predicate EverLate(s: State, events: seq<Event>)
    decreases |events|
  {
    events != [] && (Late(s, events[0]) || EverLate(Next(s, events[0]), events[1..]))
  }

  /** A run meets a hash without `id` exactly when some writer past its EXPIRE writes a field after the
      hash has lapsed or been invalidated. */
  lemma {:induction false} LeftoverIff(s: State, events: seq<Event>)
    requires !Leftover(s)
    ensures EverLeftover(s, events) <==> EverLate(s, events)
    decreases |events|
  {
    if events != [] {
      if !Late(s, events[0]) {
        LeftoverIff(Next(s, events[0]), events[1..]);
      }
    }
  }

  /** An invalidation in the middle of a write, however fast, leaves a hash without `id`; the application has
      the call but never makes it. */
  lemma InvalidationLeavesLeftover(n: nat, info: Info)
    requires 1 <= n && info.id != ""
    ensures var s := Run(Init(n), [Miss(0), Begin(0, info), Step(0)] + [Invalidate, Step(0), Tick(0)]);
            Leftover(s) && Prompt(s, 0)
  {
    RunConcat(Init(n), [Miss(0), Begin(0, info), Step(0)], [Invalidate, Step(0), Tick(0)]);
    RunThree(Init(n), Miss(0), Begin(0, info), Step(0));
    RunThree(Run(Init(n), [Miss(0), Begin(0, info), Step(0)]), Invalidate, Step(0), Tick(0));
  }

  // Two requests miss together; the first writes at once, the second when the hash is about to lapse.
  function LateBegin(a: Info, b: Info): seq<Event> {
    [Miss(0), Miss(1), Begin(0, a)] + [Step(0), Step(0), Step(0)] +
    [Step(0), Tick(14), Begin(1, b)] + [Tick(1), Step(1), Step(1)]
  }

  /** Nor is it enough that writes are short, as the time counts from the miss: here each write takes at
      most a second from its HSET id to its last command, and yet a hash without `id` is left. */
  lemma LateBeginLeavesLeftover(n: nat, a: Info, b: Info)
    requires 2 <= n && a.id != "" && b.id != ""
    ensures Leftover(Run(Init(n), LateBegin(a, b)))
  {
    var x, y := [Miss(0), Miss(1), Begin(0, a)], [Step(0), Step(0), Step(0)];
    var z, w := [Step(0), Tick(14), Begin(1, b)], [Tick(1), Step(1), Step(1)];
    var s1 := Run(Init(n), x);
    var s2 := Run(s1, y);
    var s3 := Run(s2, z);
    RunConcat(Init(n), x, y);
    RunConcat(Init(n), x + y, z);
    RunConcat(Init(n), x + y + z, w);
    RunThree(Init(n), Miss(0), Miss(1), Begin(0, a));
    assert s1.now == 0 && |s1.writers| == n && Live(s1.entry, 0);
    assert s1.writers[0] == Named(a, 0) && s1.writers[1] == Missed(0);
    FirstWritesOn(s1, a, 0);
    SecondBegins(s2, a, b, 0);
    SecondIsLate(s3, b, 0);
  }

  // ---------- Writers that finish in time ----------

  // No request is busy for more than d seconds after its miss.
  predicate Prompt(s: State, d: int) {
    forall i :: 0 <= i < |s.writers| && !s.writers[i].Idle? ==> s.now <= s.writers[i].since + d
  }

  predicate PromptRun(s: State, events: seq<Event>, d: int)
    decreases |events|
  {
    Prompt(s, d) && (events != [] ==> PromptRun(Next(s, events[0]), events[1..], d))
  }

  // A live hash has its id, was made after every busy request missed, and holds nothing older.
  predicate HashFitting(s: State, d: int) {
    Live(s.entry, s.now) ==>
      && Id in s.entry.value.fields
      && (s.entry.value.deadline.Some? ==> s.entry.value.made <= s.armed)
      && (forall i :: 0 <= i < |s.writers| && !s.writers[i].Idle? ==> s.writers[i].since <= s.entry.value.made)
      && (forall f :: f in s.entry.value.fields ==>
            var c := s.entry.value.fields[f];
            s.entry.value.made <= c.at <= s.now && c.at - d <= c.read)
  }

  // While a write is under way its hash is live.
  predicate WritesLive(s: State) {
    !Quiet(s) ==> Live(s.entry, s.now)
  }

  predicate Fitting(s: State, d: int) {
    HashFitting(s, d) && WritesLive(s)
  }

  predicate MissesPast(s: State) {
    forall k :: 0 <= k < |s.writers| && !s.writers[k].Idle? ==> s.writers[k].since <= s.now
  }

  // The fields a request reads besides the id, which the key's hash determines.
  predicate Young(s: State, f: Field, d: int)
    requires s.entry.Some?
  {
    f in s.entry.value.fields ==>
      s.now - s.entry.value.fields[f].at < TTL && s.now - s.entry.value.fields[f].read < TTL + d
  }

  /** If no request is busy for more than d < 15 seconds after its miss, none dies and none is
      invalidated, then no hash without `id` ever arises, no writer past its EXPIRE is late, and every
      field but `id` that is served, complete or not, was written less than 15 seconds ago from a
      database answer less than 15 + d seconds old. */
  lemma PromptWritersKeepTheWindow(n: nat, events: seq<Event>, d: int)
    requires 0 <= d < TTL && PromptRun(Init(n), events, d) && NoCrash(events) && Invalidate !in events
    ensures !EverLeftover(Init(n), events) && !EverLate(Init(n), events)
    ensures var s := Run(Init(n), events);
            Reads(s).Some? ==> forall f :: f in Reads(s).value && f != Id ==>
              s.now - Reads(s).value[f].at < TTL && s.now - Reads(s).value[f].read < TTL + d
  {
    FittingRun(Init(n), events, d);
    LeftoverIff(Init(n), events);
    var s := Run(Init(n), events);
    if Reads(s).Some? {
      forall f | f in Reads(s).value && f != Id
        ensures s.now - Reads(s).value[f].at < TTL && s.now - Reads(s).value[f].read < TTL + d
      {
        FittingIsYoung(s, f, d);
      }
    }
  }

  // ---------- Where the window is not kept, and how close it comes ----------

  // The hash after an EXPIRE, a wait, and an HSET workspace_id on whatever is there.
  function PlacedEntry(entry: Entry, cell: Cell, now: int, wait: nat): Entry {
    if wait < TTL then entry.(fields := entry.fields[Workspace := cell], deadline := Some(now + TTL))
    else Entry(map[Workspace := cell], None, now + wait)
  }

  function FinishedEntry(entry: Entry, info: Info, now: int, since: int): Entry {
    entry.(fields := entry.fields[IsTest := Cell(TextOf(info, IsTest), now, since)]
                                 [Plan := Cell(info.plan, now, since)])
  }

  // One write with a wait before it, a wait after its EXPIRE, and a wait at its end.
  function OneWrite(info: Info, before: nat, between: nat, after: nat): seq<Event> {
    [Miss(0), Tick(before), Begin(0, info)] + [Step(0), Tick(between), Step(0)] + [Step(0), Step(0), Tick(after)]
  }

  function OneWritten(info: Info, before: nat, between: nat): Entry {
    var begun := Entry(map[Id := Cell(info.id, before, 0)], None, before);
    FinishedEntry(PlacedEntry(begun, Cell(info.workspace, before + between, 0), before, between),
                  info, before + between, 0)
  }

  /** The bound is attained: for every d below 15 some run of requests that prompt serves a plan from a
      database answer 14 + d seconds old. */
  lemma WindowIsAttained(n: nat, info: Info, d: nat)
    requires 1 <= n && info.id != "" && d < TTL
    ensures var events := OneWrite(info, d, 0, 14);
            var s := Run(Init(n), events);
            && PromptRun(Init(n), events, d) && NoCrash(events) && Invalidate !in events
            && Reads(s).Some? && Plan in Reads(s).value && Reads(s).value[Plan].text == info.plan
            && s.now - Reads(s).value[Plan].read == TTL + d - 1
  {
    OneWriteIsPrompt(n, info, d, 0, 14);
  }

  /** At 15 seconds the bound is gone: if requests may be busy that long, then for any age there is a run
      that answers a request with a plan that old, whatever the plan of the write that put the `id`
      there. The late fields stay behind without a deadline until the next write's HSET id. */
  lemma StalePlanServed(n: nat, late: Info, newer: Info, age: nat)
    requires 1 <= n && late.id != "" && newer.id != ""
    ensures var events := OneWrite(late, 0, 15, age) + [Miss(0), Tick(0), Begin(0, newer)];
            var s := Run(Init(n), events);
            && PromptRun(Init(n), events, TTL) && NoCrash(events) && Invalidate !in events
            && Reads(s).Some? && Plan in Reads(s).value
            && Reads(s).value[Plan] == Cell(late.plan, s.now - age, s.now - age - TTL)
            && AnswerFrom(Reads(s), late.workspace) ==
               Resolved(newer.id, late.isTest, if late.plan == "" then None else Some(late.plan))
  {
    OneWriteIsPrompt(n, late, 0, 15, age);
    var events, more := OneWrite(late, 0, 15, age), [Miss(0), Tick(0), Begin(0, newer)];
    var s := Run(Init(n), events);
    RunConcat(Init(n), events, more);
    PromptConcat(Init(n), events, more, TTL);
    BeginOnLeftover(s, newer);
  }

  // ---------- The runs that show it, three events at a time ----------

  lemma RunThree(s: State, a: Event, b: Event, c: Event)
    ensures Run(s, [a, b, c]) == Next(Next(Next(s, a), b), c)
  {
    RunConcat(s, [a], [b]);
    RunConcat(s, [a, b], [c]);
    RunOne(s, a);
    RunOne(Next(s, a), b);
    RunOne(Next(Next(s, a), b), c);
    assert [a] + [b] == [a, b] && [a, b] + [c] == [a, b, c];
  }

  lemma {:induction false} PromptConcat(s: State, a: seq<Event>, b: seq<Event>, d: int)
    ensures PromptRun(s, a + b, d) <==> PromptRun(s, a, d) && PromptRun(Run(s, a), b, d)
    decreases |a|
  {
    if a == [] {
      assert a + b == b;
    } else {
      assert (a + b)[1..] == a[1..] + b;
      PromptConcat(Next(s, a[0]), a[1..], b, d);
    }
  }

  lemma PromptThree(s: State, a: Event, b: Event, c: Event, d: int)
    requires Prompt(s, d) && Prompt(Next(s, a), d)
    requires Prompt(Next(Next(s, a), b), d) && Prompt(Next(Next(Next(s, a), b), c), d)
    ensures PromptRun(s, [a, b, c], d)
  {
    var s1, s2 := Next(s, a), Next(Next(s, a), b);
    assert [a, b, c][1..] == [b, c] && [b, c][1..] == [c];
    assert PromptRun(s2, [c], d) by {
      assert PromptRun(Next(s2, c), [c][1..], d);
    }
    assert PromptRun(s1, [b, c], d);
  }

  // Only the first of the clients may be busy.
  predicate OnlyFirst(s: State, w: Writer) {
    |s.writers| >= 1 && s.writers[0] == w && forall i :: 1 <= i < |s.writers| ==> s.writers[i].Idle?
  }

  lemma PromptFirst(s: State, w: Writer, d: int)
    requires OnlyFirst(s, w) && (w.Idle? || s.now <= w.since + d)
    ensures Prompt(s, d)
  {
  }

  // A request that waits d seconds for the database after its miss.
  lemma WaitThenBegin(s: State, info: Info, d: nat)
    requires OnlyFirst(s, Idle) && s.entry == None && info.id != ""
    ensures Run(s, [Miss(0), Tick(d), Begin(0, info)])
            == s.(now := s.now + d, writers := s.writers[0 := Named(info, s.now)],
                  entry := Some(Entry(map[Id := Cell(info.id, s.now + d, s.now)], None, s.now + d)))
    ensures PromptRun(s, [Miss(0), Tick(d), Begin(0, info)], d)
  {
    var s1 := Next(s, Miss(0));
    var s2 := Next(s1, Tick(d));
    var s3 := Next(s2, Begin(0, info));
    RunThree(s, Miss(0), Tick(d), Begin(0, info));
    PromptFirst(s, Idle, d);
    PromptFirst(s1, Missed(s.now), d);
    PromptFirst(s2, Missed(s.now), d);
    PromptFirst(s3, Named(info, s.now), d);
    PromptThree(s, Miss(0), Tick(d), Begin(0, info), d);
  }

  lemma ExpireThenPlace(s: State, info: Info, since: int, wait: nat, d: int)
    requires OnlyFirst(s, Named(info, since)) && Live(s.entry, s.now) && s.now + wait <= since + d
    ensures Run(s, [Step(0), Tick(wait), Step(0)])
            == s.(now := s.now + wait, armed := s.now, writers := s.writers[0 := Placed(info, since)],
                  entry := Some(PlacedEntry(s.entry.value, Cell(info.workspace, s.now + wait, since), s.now, wait)))
    ensures PromptRun(s, [Step(0), Tick(wait), Step(0)], d)
  {
    var s1 := Next(s, Step(0));
    var s2 := Next(s1, Tick(wait));
    var s3 := Next(s2, Step(0));
    RunThree(s, Step(0), Tick(wait), Step(0));
    PromptFirst(s, Named(info, since), d);
    PromptFirst(s1, Timed(info, since), d);
    PromptFirst(s2, Timed(info, since), d);
    PromptFirst(s3, Placed(info, since), d);
    PromptThree(s, Step(0), Tick(wait), Step(0), d);
  }

  // The last two fields, and time passing.
  lemma FinishThenWait(s: State, info: Info, since: int, wait: nat, d: int)
    requires OnlyFirst(s, Placed(info, since)) && Live(s.entry, s.now) && s.now <= since + d
    ensures Run(s, [Step(0), Step(0), Tick(wait)])
            == s.(now := s.now + wait, writers := s.writers[0 := Idle],
                  entry := Some(FinishedEntry(s.entry.value, info, s.now, since)))
    ensures PromptRun(s, [Step(0), Step(0), Tick(wait)], d)
  {
    var s1 := Next(s, Step(0));
    var s2 := Next(s1, Step(0));
    var s3 := Next(s2, Tick(wait));
    RunThree(s, Step(0), Step(0), Tick(wait));
    PromptFirst(s, Placed(info, since), d);
    PromptFirst(s1, Tested(info, since), d);
    PromptFirst(s2, Idle, d);
    PromptFirst(s3, Idle, d);
    PromptThree(s, Step(0), Step(0), Tick(wait), d);
  }

  lemma OneWriteRuns(s: State, info: Info, before: nat, between: nat, after: nat, d: int, s1: State, s2: State)
    requires s1 == Run(s, [Miss(0), Tick(before), Begin(0, info)])
    requires s2 == Run(s1, [Step(0), Tick(between), Step(0)])
    ensures Run(s, OneWrite(info, before, between, after)) == Run(s2, [Step(0), Step(0), Tick(after)])
    ensures PromptRun(s, OneWrite(info, before, between, after), d) <==>
            PromptRun(s, [Miss(0), Tick(before), Begin(0, info)], d) &&
            PromptRun(s1, [Step(0), Tick(between), Step(0)], d) && PromptRun(s2, [Step(0), Step(0), Tick(after)], d)
  {
    var a, b := [Miss(0), Tick(before), Begin(0, info)], [Step(0), Tick(between), Step(0)];
    var c := [Step(0), Step(0), Tick(after)];
    RunConcat(s, a, b);
    RunConcat(s, a + b, c);
    PromptConcat(s, a, b, d);
    PromptConcat(s, a + b, c, d);
  }

  lemma {:induction false} PromptLonger(s: State, events: seq<Event>, d: int, longer: int)
    requires PromptRun(s, events, d) && d <= longer
    ensures PromptRun(s, events, longer)
    decreases |events|
  {
    if events != [] {
      PromptLonger(Next(s, events[0]), events[1..], d, longer);
    }
  }

  lemma OneWriteIsPrompt(n: nat, info: Info, before: nat, between: nat, after: nat)
    requires 1 <= n && info.id != ""
    ensures PromptRun(Init(n), OneWrite(info, before, between, after), before + between)
    ensures Run(Init(n), OneWrite(info, before, between, after))
            == Init(n).(now := before + between + after, armed := before,
                        entry := Some(OneWritten(info, before, between)))
  {
    var s := Init(n);
    var d := before + between;
    var s1 := Run(s, [Miss(0), Tick(before), Begin(0, info)]);
    var s2 := Run(s1, [Step(0), Tick(between), Step(0)]);
    OneWriteRuns(s, info, before, between, after, d, s1, s2);
    WaitThenBegin(s, info, before);
    PromptLonger(s, [Miss(0), Tick(before), Begin(0, info)], before, d);
    ExpireThenPlace(s1, info, 0, between, d);
    FinishThenWait(s2, info, 0, after, d);
  }

  lemma BeginOnLeftover(s: State, info: Info)
    requires OnlyFirst(s, Idle) && Leftover(s) && info.id != ""
    ensures Run(s, [Miss(0), Tick(0), Begin(0, info)])
            == s.(writers := s.writers[0 := Named(info, s.now)],
                  entry := Some(s.entry.value.(fields := s.entry.value.fields[Id := Cell(info.id, s.now, s.now)])))
    ensures PromptRun(s, [Miss(0), Tick(0), Begin(0, info)], TTL)
  {
    var s1 := Next(s, Miss(0));
    var s2 := Next(s1, Tick(0));
    var s3 := Next(s2, Begin(0, info));
    RunThree(s, Miss(0), Tick(0), Begin(0, info));
    PromptFirst(s, Idle, TTL);
    PromptFirst(s1, Missed(s.now), TTL);
    PromptFirst(s2, Missed(s.now), TTL);
    PromptFirst(s3, Named(info, s.now), TTL);
    PromptThree(s, Miss(0), Tick(0), Begin(0, info), TTL);
  }

  lemma FirstWritesOn(s: State, a: Info, since: int)
    requires 2 <= |s.writers| && s.writers[0] == Named(a, since) && Live(s.entry, s.now)
    ensures var t := Run(s, [Step(0), Step(0), Step(0)]);
            && |t.writers| == |s.writers| && t.writers[0] == Tested(a, since) && t.writers[1] == s.writers[1]
            && t.now == s.now && t.entry.Some? && t.entry.value.deadline == Some(s.now + TTL)
  {
    RunThree(s, Step(0), Step(0), Step(0));
  }

  lemma SecondBegins(s: State, a: Info, b: Info, since: int)
    requires 2 <= |s.writers| && s.writers[0] == Tested(a, since) && s.writers[1] == Missed(since) && b.id != ""
    requires s.entry.Some? && s.entry.value.deadline == Some(s.now + TTL)
    ensures var t := Run(s, [Step(0), Tick(14), Begin(1, b)]);
            && t == s.(entry := t.entry, now := s.now + 14, writers := s.writers[0 := Idle][1 := Named(b, since)])
            && t.entry.Some? && t.entry.value.deadline == Some(t.now + 1)
  {
    RunThree(s, Step(0), Tick(14), Begin(1, b));
  }

  lemma SecondIsLate(s: State, b: Info, since: int)
    requires 2 <= |s.writers| && s.writers[1] == Named(b, since)
    requires s.entry.Some? && s.entry.value.deadline == Some(s.now + 1)
    ensures Leftover(Run(s, [Tick(1), Step(1), Step(1)]))
  {
    RunThree(s, Tick(1), Step(1), Step(1));
  }

  // ---------- Why writers that finish in time keep the window ----------

  lemma FittingTick(s: State, n: nat, d: int)
    requires d < TTL && Safe(s) && Fitting(s, d) && Prompt(Next(s, Tick(n)), d)
    ensures Fitting(Next(s, Tick(n)), d)
  {
    var t := Next(s, Tick(n));
    if !Quiet(t) {
      var i :| 0 <= i < |t.writers| && MidWay(t.writers[i]);
      assert s.writers[i].since <= s.entry.value.made;
      assert t.now <= s.writers[i].since + d;
    }
  }

  lemma FittingStep(s: State, i: nat, d: int)
    requires Safe(s) && Fitting(s, d) && Prompt(s, d)
    ensures Fitting(Next(s, Step(i)), d)
  {
    var t := Next(s, Step(i));
    if i < |s.writers| && MidWay(s.writers[i]) {
      assert !Quiet(s);
      assert Live(t.entry, t.now);
    }
  }

  lemma FittingNext(s: State, e: Event, d: int)
    requires 0 <= d < TTL && Safe(s) && Fitting(s, d) && MissesPast(s) && Prompt(s, d) && Prompt(Next(s, e), d)
    requires !e.Crash? && !e.Invalidate?
    ensures Fitting(Next(s, e), d) && MissesPast(Next(s, e))
  {
    match e {
      case Miss(i) =>
      case GiveUp(i) =>
      case Begin(i, info) =>
        if Begins(s, e) {
        }
      case Step(i) => FittingStep(s, i, d);
      case Tick(n) => FittingTick(s, n, d);
    }
  }

  lemma {:induction false} FittingRun(s: State, events: seq<Event>, d: int)
    requires 0 <= d < TTL && Safe(s) && Fitting(s, d) && MissesPast(s)
    requires PromptRun(s, events, d) && NoCrash(events) && Invalidate !in events
    ensures var t := Run(s, events);
            Safe(t) && Fitting(t, d) && Prompt(t, d)
    ensures !EverLeftover(s, events)
    decreases |events|
  {
    if events != [] {
      var e := events[0];
      assert e in events;
      assert Prompt(Next(s, e), d);
      FittingNext(s, e, d);
      NamerStep(s, e);
      FillerStep(s, e);
      FittingRun(Next(s, e), events[1..], d);
    }
  }

  lemma FittingIsYoung(s: State, f: Field, d: int)
    requires 0 <= d < TTL && Safe(s) && Fitting(s, d) && Prompt(s, d) && Live(s.entry, s.now) && f != Id
    ensures Young(s, f, d)
  {
    if f in s.entry.value.fields {
      var cell := s.entry.value.fields[f];
      if s.entry.value.deadline.Some? && AllRecent(s) {
        assert Recent(s, f);
      } else {
        assert exists i :: 0 <= i < |s.writers| && (s.writers[i].Named? || Completing(s, s.writers[i]));
        var i :| 0 <= i < |s.writers| && (s.writers[i].Named? || Completing(s, s.writers[i]));
      }
    }
  }
}
