/** The quota cache while its listeners are deferred: a flush writes the row and schedules a task;
    tasks run later, first in first out, and read the mapped object only when they run. */
module QuotaTasks {
  import opened Wrappers
  import opened QuotaCache

  datatype Key = FeatureKey(key: string) | PlanKey(plan: string)

  // A mapped object of some session; several sessions can each have one for the same row.
  datatype Mapped = Feature(key: string, feature: FeatureRow) | Rule(plan: string, rule: PlanRow)

  function KeyOf(m: Mapped): Key {
    match m
    case Feature(key, _) => FeatureKey(key)
    case Rule(plan, _) => PlanKey(plan)
  }

  datatype Task = Changed(obj: nat) | Deleted(obj: nat)

  /** A task writes to the backend that was there when it was scheduled: `tasks` holds those whose
      backend is the one in use. */
  datatype State = State(db: Database, objects: seq<Mapped>, cache: Cache, tasks: seq<Task>)

  function Row(db: Database, k: Key): Option<Mapped> {
    match k
    case FeatureKey(key) => if key in db.features then Some(Feature(key, db.features[key])) else None
    case PlanKey(plan) => if plan in db.plans then Some(Rule(plan, db.plans[plan])) else None
  }

  function Put(db: Database, m: Mapped): Database {
    match m
    case Feature(key, r) => db.(features := db.features[key := r])
    case Rule(plan, r) => db.(plans := db.plans[plan := r])
  }

  function Remove(db: Database, k: Key): Database {
    match k
    case FeatureKey(key) => db.(features := db.features - {key})
    case PlanKey(plan) => db.(plans := db.plans - {plan})
  }

  // A scheduled task run now, on the object's present attributes.
  function RunTask(c: Cache, t: Task, m: Mapped): Cache {
    match m
    case Feature(key, r) => if t.Changed? then OnFeature(c, key, r) else DropFeature(c, key)
    case Rule(plan, r) => if t.Changed? then OnPlan(c, plan, r) else DropPlan(c, plan)
  }

  datatype Event =
    | Insert(m: Mapped)
    | Reload(k: Key)                          // a session maps an object to an existing row
    | Flush(o: nat, change: Mapped -> Mapped) // writes the columns that `change` changes
    | HardDelete(o: nat)
    | RunNext
    | LookupFeature(key: string)
    | LookupPlan(plan: string)
    | Refresh(rebuilt: bool)                  // in memory the backend is a new one

  ghost predicate Enabled(s: State, e: Event) {
    match e
    case Insert(m) => Row(s.db, KeyOf(m)).None?
    case Reload(k) => Row(s.db, k).Some?
    case Flush(o, change) =>
      && o < |s.objects| && Row(s.db, KeyOf(s.objects[o])).Some?
      && forall m :: KeyOf(change(m)) == KeyOf(m)
    case HardDelete(o) => o < |s.objects| && Row(s.db, KeyOf(s.objects[o])).Some?
    case RunNext => s.tasks != [] && s.tasks[0].obj < |s.objects|
    case _ => true
  }

  ghost function Next(s: State, e: Event): State
    requires Enabled(s, e)
  {
    match e
    case Insert(m) =>
      State(Put(s.db, m), s.objects + [m], s.cache, s.tasks + [Changed(|s.objects|)])
    case Reload(k) => s.(objects := s.objects + [Row(s.db, k).value])
    case Flush(o, change) =>
      State(Put(s.db, change(Row(s.db, KeyOf(s.objects[o])).value)), s.objects[o := change(s.objects[o])],
            s.cache, s.tasks + [Changed(o)])
    case HardDelete(o) => s.(db := Remove(s.db, KeyOf(s.objects[o])), tasks := s.tasks + [Deleted(o)])
    case RunNext => s.(cache := RunTask(s.cache, s.tasks[0], s.objects[s.tasks[0].obj]), tasks := s.tasks[1..])
    case LookupFeature(key) => s.(cache := GetFeature(s.cache, s.db, key).0)
    case LookupPlan(plan) => s.(cache := GetPlan(s.cache, s.db, Some(plan)).0)
    case Refresh(rebuilt) => s.(cache := Load(EMPTY, s.db), tasks := if rebuilt then [] else s.tasks)
  }

  // The flushing object shows the row as it is, so the columns it does not change are current.
  ghost predicate Current(s: State, e: Event) {
    e.Flush? && e.o < |s.objects| ==> Row(s.db, KeyOf(s.objects[e.o])) == Some(s.objects[e.o])
  }

  // ---------- What every reachable state satisfies ----------

  ghost predicate CoherentAt(c: Cache, db: Database, k: Key) {
    match k
    case FeatureKey(key) => FeatureCoherent(c, db, key)
    case PlanKey(plan) => PlanCoherent(c, db, plan)
  }

  ghost predicate TasksValid(objects: seq<Mapped>, tasks: seq<Task>) {
    forall i :: 0 <= i < |tasks| ==> tasks[i].obj < |objects|
  }

  // The last pending task for a key.
  ghost function LastTask(objects: seq<Mapped>, tasks: seq<Task>, k: Key): Option<Task>
    requires TasksValid(objects, tasks)
  {
    if tasks == [] then None
    else if KeyOf(objects[tasks[|tasks| - 1].obj]) == k then Some(tasks[|tasks| - 1])
    else LastTask(objects, tasks[..|tasks| - 1], k)
  }

  // The last pending task leaves the row as it is in the database.
  ghost predicate WillAgree(objects: seq<Mapped>, db: Database, t: Task, k: Key)
    requires t.obj < |objects|
  {
    if t.Changed? then Row(db, k) == Some(objects[t.obj]) else Row(db, k) == None
  }

  lemma {:induction false} LastTaskValid(objects: seq<Mapped>, tasks: seq<Task>, k: Key)
    requires TasksValid(objects, tasks) && LastTask(objects, tasks, k).Some?
    ensures LastTask(objects, tasks, k).value.obj < |objects|
    ensures KeyOf(objects[LastTask(objects, tasks, k).value.obj]) == k
    decreases |tasks|
  {
    if KeyOf(objects[tasks[|tasks| - 1].obj]) != k {
      LastTaskValid(objects, tasks[..|tasks| - 1], k);
    }
  }

  /** A key without a pending task is coherent; a key with pending tasks will be once they ran. */
  ghost predicate KeyOk(s: State, k: Key)
    requires TasksValid(s.objects, s.tasks)
  {
    var t := LastTask(s.objects, s.tasks, k);
    || (t.None? && CoherentAt(s.cache, s.db, k))
    || (t.Some? && t.value.obj < |s.objects| && WillAgree(s.objects, s.db, t.value, k))
  }

  ghost predicate Inv(s: State) {
    TasksValid(s.objects, s.tasks) && forall k :: KeyOk(s, k)
  }

  lemma {:induction false} LastTaskOfRest(objects: seq<Mapped>, tasks: seq<Task>, k: Key)
    requires TasksValid(objects, tasks) && tasks != []
    ensures TasksValid(objects, tasks[1..])
    ensures LastTask(objects, tasks, k) ==
            if LastTask(objects, tasks[1..], k).Some? then LastTask(objects, tasks[1..], k)
            else if KeyOf(objects[tasks[0].obj]) == k then Some(tasks[0]) else None
    decreases |tasks|
  {
    if 1 < |tasks| {
      var init := tasks[..|tasks| - 1];
      assert tasks[1..][..|tasks| - 2] == init[1..];
      LastTaskOfRest(objects, init, k);
    }
  }

  // Tasks see only the keys of the objects, which never change.
  lemma {:induction false} LastTaskSameKeys(a: seq<Mapped>, b: seq<Mapped>, tasks: seq<Task>, k: Key)
    requires TasksValid(a, tasks) && |a| <= |b| && forall i :: 0 <= i < |a| ==> KeyOf(a[i]) == KeyOf(b[i])
    ensures TasksValid(b, tasks) && LastTask(b, tasks, k) == LastTask(a, tasks, k)
    decreases |tasks|
  {
    if tasks != [] {
      LastTaskSameKeys(a, b, tasks[..|tasks| - 1], k);
    }
  }

  lemma TaskLeavesOthers(c: Cache, db: Database, t: Task, m: Mapped, k: Key)
    requires KeyOf(m) != k
    ensures CoherentAt(RunTask(c, t, m), db, k) <==> CoherentAt(c, db, k)
  {
    match (m, k)
    case (Feature(key, r), FeatureKey(other)) => assert key != other;
    case (Rule(plan, r), PlanKey(other)) => PlanTaskLeaves(c, db, t, plan, r, other);
    case (Feature(_, _), PlanKey(_)) =>
    case (Rule(_, _), FeatureKey(_)) =>
  }

  lemma PlanTaskLeaves(c: Cache, db: Database, t: Task, plan: string, r: PlanRow, other: string)
    requires plan != other
    ensures PlanCoherent(RunTask(c, t, Rule(plan, r)), db, other) <==> PlanCoherent(c, db, other)
  {
  }

  lemma RunNextKeyOk(s: State, k: Key)
    requires TasksValid(s.objects, s.tasks) && s.tasks != [] && KeyOk(s, k)
    ensures Enabled(s, RunNext) && TasksValid(s.objects, Next(s, RunNext).tasks) && KeyOk(Next(s, RunNext), k)
  {
    LastTaskOfRest(s.objects, s.tasks, k);
    var t := s.tasks[0];
    if KeyOf(s.objects[t.obj]) != k {
      TaskLeavesOthers(s.cache, s.db, t, s.objects[t.obj], k);
    } else if WillAgree(s.objects, s.db, t, k) {
    }
  }

  lemma PutElsewhere(c: Cache, db: Database, m: Mapped, k: Key)
    requires k != KeyOf(m)
    ensures Row(Put(db, m), k) == Row(db, k) && (CoherentAt(c, Put(db, m), k) <==> CoherentAt(c, db, k))
    ensures Row(Remove(db, KeyOf(m)), k) == Row(db, k)
    ensures CoherentAt(c, Remove(db, KeyOf(m)), k) <==> CoherentAt(c, db, k)
  {
  }

  lemma PutThere(db: Database, m: Mapped)
    ensures Row(Put(db, m), KeyOf(m)) == Some(m) && Row(Remove(db, KeyOf(m)), KeyOf(m)) == None
  {
  }

  // One write of the row of m, with a task of an object of that key appended, leaves other keys as they are.
  lemma WriteElsewhereOk(s: State, objects: seq<Mapped>, db: Database, m: Mapped, t: Task, k: Key)
    requires TasksValid(s.objects, s.tasks) && KeyOk(s, k) && |s.objects| <= |objects| && t.obj < |objects|
    requires forall i :: 0 <= i < |s.objects| ==> KeyOf(s.objects[i]) == KeyOf(objects[i])
    requires forall i :: 0 <= i < |s.objects| && i != t.obj ==> s.objects[i] == objects[i]
    requires KeyOf(objects[t.obj]) == KeyOf(m) != k
    requires db == Put(s.db, m) || db == Remove(s.db, KeyOf(m))
    ensures TasksValid(objects, s.tasks + [t]) && KeyOk(State(db, objects, s.cache, s.tasks + [t]), k)
  {
    assert (s.tasks + [t])[..|s.tasks|] == s.tasks;
    LastTaskSameKeys(s.objects, objects, s.tasks, k);
    PutElsewhere(s.cache, s.db, m, k);
    if LastTask(s.objects, s.tasks, k).Some? {
      LastTaskValid(s.objects, s.tasks, k);
    }
  }

  // One write: the row m (or its removal) with a task of object o appended.
  lemma WriteOk(s: State, objects: seq<Mapped>, db: Database, m: Mapped, t: Task)
    requires Inv(s) && |s.objects| <= |objects| && t.obj < |objects|
    requires forall i :: 0 <= i < |s.objects| ==> KeyOf(s.objects[i]) == KeyOf(objects[i])
    requires forall i :: 0 <= i < |s.objects| && i != t.obj ==> s.objects[i] == objects[i]
    requires KeyOf(objects[t.obj]) == KeyOf(m)
    requires db == (if t.Changed? then Put(s.db, m) else Remove(s.db, KeyOf(m)))
    requires t.Changed? ==> objects[t.obj] == m
    ensures Inv(State(db, objects, s.cache, s.tasks + [t]))
  {
    PutThere(s.db, m);
    forall k
      ensures KeyOk(State(db, objects, s.cache, s.tasks + [t]), k)
    {
      assert KeyOk(s, k);
      if k != KeyOf(m) {
        WriteElsewhereOk(s, objects, db, m, t, k);
      } else {
        assert (s.tasks + [t])[|s.tasks|] == t;
      }
    }
  }

  lemma LookupOk(s: State, c: Cache)
    requires Inv(s)
    requires forall k :: CoherentAt(s.cache, s.db, k) ==> CoherentAt(c, s.db, k)
    ensures Inv(s.(cache := c))
  {
    forall k
      ensures KeyOk(s.(cache := c), k)
    {
      assert KeyOk(s, k);
    }
  }

  lemma LoadCoherentAt(db: Database, k: Key)
    ensures CoherentAt(Load(EMPTY, db), db, k)
  {
    LoadCoherentIff(EMPTY, db);
    match k
    case FeatureKey(key) => assert FeatureCoherent(Load(EMPTY, db), db, key);
    case PlanKey(plan) => assert PlanCoherent(Load(EMPTY, db), db, plan);
  }

  lemma RefreshOk(s: State, tasks: seq<Task>)
    requires Inv(s) && (tasks == [] || tasks == s.tasks)
    ensures Inv(s.(cache := Load(EMPTY, s.db), tasks := tasks))
  {
    forall k
      ensures KeyOk(s.(cache := Load(EMPTY, s.db), tasks := tasks), k)
    {
      assert KeyOk(s, k);
      LoadCoherentAt(s.db, k);
    }
  }

  lemma StepOk(s: State, e: Event)
    requires Inv(s) && Enabled(s, e) && Current(s, e)
    ensures Inv(Next(s, e))
  {
    match e {
      case Insert(m) => WriteOk(s, s.objects + [m], Put(s.db, m), m, Changed(|s.objects|));
      case Reload(k) =>
        forall k'
          ensures KeyOk(Next(s, e), k')
        {
          assert KeyOk(s, k');
          LastTaskSameKeys(s.objects, Next(s, e).objects, s.tasks, k');
        }
      case Flush(o, change) =>
        var m := change(s.objects[o]);
        WriteOk(s, s.objects[o := m], Put(s.db, m), m, Changed(o));
      case HardDelete(o) => WriteOk(s, s.objects, Remove(s.db, KeyOf(s.objects[o])), s.objects[o], Deleted(o));
      case RunNext =>
        forall k
          ensures KeyOk(Next(s, e), k)
        {
          assert KeyOk(s, k);
          RunNextKeyOk(s, k);
        }
      case LookupFeature(key) =>
        forall k | CoherentAt(s.cache, s.db, k)
          ensures CoherentAt(Next(s, e).cache, s.db, k)
        {
        }
        LookupOk(s, Next(s, e).cache);
      case LookupPlan(plan) =>
        forall k | CoherentAt(s.cache, s.db, k)
          ensures CoherentAt(Next(s, e).cache, s.db, k)
        {
        }
        LookupOk(s, Next(s, e).cache);
      case Refresh(_) => RefreshOk(s, Next(s, e).tasks);
    }
  }

  // A run whose flushes all come from current objects; disabled events change nothing.
  ghost predicate CurrentRun(s: State, events: seq<Event>)
    decreases |events|
  {
    events == [] ||
    (Current(s, events[0]) && CurrentRun(if Enabled(s, events[0]) then Next(s, events[0]) else s, events[1..]))
  }

  ghost function Run(s: State, events: seq<Event>): State
    decreases |events|
  {
    if events == [] then s
    else Run(if Enabled(s, events[0]) then Next(s, events[0]) else s, events[1..])
  }

  lemma {:induction false} RunOk(s: State, events: seq<Event>)
    requires Inv(s) && CurrentRun(s, events)
    ensures Inv(Run(s, events))
    decreases |events|
  {
    if events != [] {
      var e := events[0];
      if Enabled(s, e) {
        StepOk(s, e);
      }
      RunOk(if Enabled(s, e) then Next(s, e) else s, events[1..]);
    }
  }

  // ---------- Tasks that run at once are the listeners ----------

  lemma RunStep(s: State, e: Event, rest: seq<Event>)
    requires Enabled(s, e)
    ensures Run(s, [e] + rest) == Run(Next(s, e), rest)
  {
    assert ([e] + rest)[1..] == rest;
  }

  lemma WritesAtOnce(s: State, m: Mapped) returns (events: seq<Event>)
    requires s.tasks == []
    ensures Run(s, events) == State(Put(s.db, m), Run(s, events).objects, RunTask(s.cache, Changed(0), m), [])
  {
    if Row(s.db, KeyOf(m)).None? {
      events := [Insert(m)] + ([RunNext] + []);
      RunStep(s, Insert(m), [RunNext] + []);
      RunStep(Next(s, Insert(m)), RunNext, []);
    } else {
      var change := (x: Mapped) => if KeyOf(x) == KeyOf(m) then m else x;
      var reloaded := Next(s, Reload(KeyOf(m)));
      PutThere(s.db, Row(s.db, KeyOf(m)).value);
      assert KeyOf(reloaded.objects[|s.objects|]) == KeyOf(m);
      var flush := Flush(|s.objects|, change);
      events := [Reload(KeyOf(m))] + ([flush] + ([RunNext] + []));
      RunStep(s, Reload(KeyOf(m)), [flush] + ([RunNext] + []));
      RunStep(reloaded, flush, [RunNext] + []);
      RunStep(Next(reloaded, flush), RunNext, []);
    }
  }

  lemma RemovesAtOnce(s: State, k: Key) returns (events: seq<Event>)
    requires s.tasks == [] && Row(s.db, k).Some?
    ensures Run(s, events) == State(Remove(s.db, k), Run(s, events).objects,
                                    RunTask(s.cache, Deleted(0), Row(s.db, k).value), [])
  {
    var reloaded, remove := Next(s, Reload(k)), HardDelete(|s.objects|);
    events := [Reload(k)] + ([remove] + ([RunNext] + []));
    RunStep(s, Reload(k), [remove] + ([RunNext] + []));
    RunStep(reloaded, remove, [RunNext] + []);
    RunStep(Next(reloaded, remove), RunNext, []);
  }

  /** A write, removal, lookup or refresh whose task runs at once, alone, does to the rows and the cache what
      the listeners and getters do in one step. */
  lemma PromptTasksAreListeners(s: State, op: Op) returns (events: seq<Event>)
    requires s.tasks == [] && !op.Cost?
    requires op.RemoveFeature? ==> op.key in s.db.features
    requires op.RemovePlan? ==> op.plan in s.db.plans
    ensures Run(s, events) == State(Write(s.db, op), Run(s, events).objects, CachedStep(s.cache, s.db, op).0, [])
  {
    match op {
      case WriteFeature(key, r) => events := WritesAtOnce(s, Feature(key, r));
      case WritePlan(plan, r) => events := WritesAtOnce(s, Rule(plan, r));
      case RemoveFeature(key) => events := RemovesAtOnce(s, FeatureKey(key));
      case RemovePlan(plan) => events := RemovesAtOnce(s, PlanKey(plan));
      case LookupFeature(key) =>
        events := [Event.LookupFeature(key)];
        assert Run(s, events) == Run(Next(s, events[0]), []);
      case LookupPlan(plan) =>
        if plan.None? {
          events := [];
        } else {
          events := [Event.LookupPlan(plan.value)];
          assert Run(s, events) == Run(Next(s, events[0]), []);
        }
      case Refresh =>
        events := [Event.Refresh(false)];
        assert Run(s, events) == Run(Next(s, events[0]), []);
    }
  }

  // All pending tasks run, in order, on the objects as they are now.
  ghost function Replay(c: Cache, objects: seq<Mapped>, tasks: seq<Task>): Cache
    requires TasksValid(objects, tasks)
    decreases |tasks|
  {
    if tasks == [] then c else Replay(RunTask(c, tasks[0], objects[tasks[0].obj]), objects, tasks[1..])
  }

  lemma {:induction false} ReplayKeyOk(s: State, k: Key)
    requires TasksValid(s.objects, s.tasks) && KeyOk(s, k)
    ensures CoherentAt(Replay(s.cache, s.objects, s.tasks), s.db, k)
    decreases |s.tasks|
  {
    if s.tasks != [] {
      RunNextKeyOk(s, k);
      ReplayKeyOk(Next(s, RunNext), k);
    }
  }

  lemma ReplayCoherent(s: State)
    requires Inv(s)
    ensures Coherent(Replay(s.cache, s.objects, s.tasks), s.db)
  {
    var c := Replay(s.cache, s.objects, s.tasks);
    forall key
      ensures FeatureCoherent(c, s.db, key) && PlanCoherent(c, s.db, key)
    {
      assert KeyOk(s, FeatureKey(key)) && KeyOk(s, PlanKey(key));
      ReplayKeyOk(s, FeatureKey(key));
      ReplayKeyOk(s, PlanKey(key));
      assert CoherentAt(c, s.db, FeatureKey(key)) && CoherentAt(c, s.db, PlanKey(key));
    }
  }

  // Tasks of other keys do not matter to a key.
  lemma {:induction false} ReplayElsewhere(c: Cache, objects: seq<Mapped>, tasks: seq<Task>, db: Database, k: Key)
    requires TasksValid(objects, tasks) && LastTask(objects, tasks, k).None?
    ensures CoherentAt(Replay(c, objects, tasks), db, k) <==> CoherentAt(c, db, k)
    decreases |tasks|
  {
    if tasks != [] {
      LastTaskOfRest(objects, tasks, k);
      var m := objects[tasks[0].obj];
      TaskLeavesOthers(c, db, tasks[0], m, k);
      ReplayElsewhere(RunTask(c, tasks[0], m), objects, tasks[1..], db, k);
    }
  }

  lemma {:induction false} ReplayLast(c: Cache, objects: seq<Mapped>, tasks: seq<Task>, t: Task)
    requires TasksValid(objects, tasks) && t.obj < |objects|
    ensures TasksValid(objects, tasks + [t])
    ensures Replay(c, objects, tasks + [t]) == RunTask(Replay(c, objects, tasks), t, objects[t.obj])
    decreases |tasks|
  {
    if tasks == [] {
      assert (tasks + [t])[1..] == [];
    } else {
      assert (tasks + [t])[1..] == tasks[1..] + [t];
      ReplayLast(RunTask(c, tasks[0], objects[tasks[0].obj]), objects, tasks[1..], t);
    }
  }

  /** From `init`, over any interleaving of flushes, hard deletes, lookups, refreshes and task runs in
      which flushes come from current objects: a cached key can be stale only while a task for it is
      pending, and running the pending tasks makes the whole cache agree with the database. */
  lemma StaleOnlyWhilePending(db: Database, events: seq<Event>)
    requires CurrentRun(State(db, [], Load(EMPTY, db), []), events)
    ensures var s := Run(State(db, [], Load(EMPTY, db), []), events);
            && TasksValid(s.objects, s.tasks)
            && (forall k :: LastTask(s.objects, s.tasks, k) == None ==> CoherentAt(s.cache, s.db, k))
            && Coherent(Replay(s.cache, s.objects, s.tasks), s.db)
            && (s.tasks == [] ==> Coherent(s.cache, s.db))
  {
    RunOk(State(db, [], Load(EMPTY, db), []), events);
    var s := Run(State(db, [], Load(EMPTY, db), []), events);
    ReplayCoherent(s);
    forall k | LastTask(s.objects, s.tasks, k) == None
      ensures CoherentAt(s.cache, s.db, k)
    {
      assert KeyOk(s, k);
    }
  }

  // ---------- Where it fails ----------

  predicate IsDeleted(m: Mapped) {
    match m case Feature(_, r) => r.deleted case Rule(_, r) => r.deleted
  }

  // The two rows are cached alike.
  predicate SameEntries(a: Mapped, b: Mapped) {
    match (a, b)
    case (Feature(_, r), Feature(_, q)) => r.cost == q.cost
    case (Rule(_, r), Rule(_, q)) =>
      && r.multiplier == q.multiplier && r.credits == q.credits
      && Encode(r.perMinute) == Encode(q.perMinute) && Encode(r.perDay) == Encode(q.perDay)
    case _ => false
  }

  lemma TaskCoherentIff(c: Cache, db: Database, o: nat, m: Mapped, r: Mapped)
    requires Row(db, KeyOf(m)) == Some(r)
    ensures CoherentAt(RunTask(c, Changed(o), m), db, KeyOf(m)) <==>
            IsDeleted(m) || (!IsDeleted(r) && SameEntries(m, r))
  {
    match m
    case Feature(key, f) =>
    case Rule(plan, p) =>
  }

  /** A flush from any object, current or not, in any state that current flushes and tasks lead to: the
      database keeps the columns the change leaves alone, the task caches the object's own. Once all
      pending tasks have run, every other key agrees with the database, and the flushed key does if
      and only if the object ends deleted, or the row does not and both are cached alike. */
  lemma StaleObjectCoherentIff(s: State, o: nat, change: Mapped -> Mapped)
    requires Inv(s) && Enabled(s, Flush(o, change))
    ensures var s' := Next(s, Flush(o, change));
            var m, r := change(s.objects[o]), change(Row(s.db, KeyOf(s.objects[o])).value);
            && TasksValid(s'.objects, s'.tasks)
            && var c := Replay(s'.cache, s'.objects, s'.tasks);
               && (forall k :: k != KeyOf(m) ==> CoherentAt(c, s'.db, k))
               && (CoherentAt(c, s'.db, KeyOf(m)) <==> IsDeleted(m) || (!IsDeleted(r) && SameEntries(m, r)))
  {
    var s' := Next(s, Flush(o, change));
    var m, r := change(s.objects[o]), change(Row(s.db, KeyOf(s.objects[o])).value);
    assert KeyOf(m) == KeyOf(s.objects[o]) == KeyOf(r);
    PutThere(s.db, r);
    assert TasksValid(s'.objects, s'.tasks);
    ReplayLast(s'.cache, s'.objects, s.tasks, Changed(o));
    TaskCoherentIff(Replay(s'.cache, s'.objects, s.tasks), s'.db, o, m, r);
    forall k | k != KeyOf(m)
      ensures CoherentAt(Replay(s'.cache, s'.objects, s'.tasks), s'.db, k)
    {
      assert KeyOk(s, k);
      WriteElsewhereOk(s, s'.objects, s'.db, r, Changed(o), k);
      ReplayKeyOk(s', k);
    }
  }

  // The second half of a lookup that missed: the cache is filled with the row that was read.
  function Fill(c: Cache, read: Mapped): Cache {
    match read
    case Feature(key, r) => SetFeature(c, key, r.cost)
    case Rule(plan, r) => SetPlan(c, plan, r)
  }

  lemma FillCoherentIff(c: Cache, db: Database, read: Mapped)
    ensures CoherentAt(Fill(c, read), db, KeyOf(read)) <==>
            Row(db, KeyOf(read)).Some? &&
            !IsDeleted(Row(db, KeyOf(read)).value) && SameEntries(read, Row(db, KeyOf(read)).value)
  {
    match read
    case Feature(key, r) =>
    case Rule(plan, r) =>
  }

  /** A lookup split in two: it reads a row, anything happens, flushes, soft and hard deletes and tasks
      included, and then it fills the cache with what it read. Once the tasks pending at that moment
      have run, the key agrees with the database if and only if one of them is for the key, or the
      row is still there, not deleted, and cached alike. */
  lemma SplitLookupCoherentIff(s: State, events: seq<Event>, read: Mapped)
    requires Inv(s) && CurrentRun(s, events) && Row(s.db, KeyOf(read)) == Some(read) && !IsDeleted(read)
    ensures var k, s' := KeyOf(read), Run(s, events);
            && TasksValid(s'.objects, s'.tasks)
            && (CoherentAt(Replay(Fill(s'.cache, read), s'.objects, s'.tasks), s'.db, k) <==>
                LastTask(s'.objects, s'.tasks, k).Some? ||
                (Row(s'.db, k).Some? && !IsDeleted(Row(s'.db, k).value) && SameEntries(read, Row(s'.db, k).value)))
  {
    RunOk(s, events);
    var k, s' := KeyOf(read), Run(s, events);
    var filled := s'.(cache := Fill(s'.cache, read));
    assert KeyOk(s', k);
    if LastTask(s'.objects, s'.tasks, k).Some? {
      ReplayKeyOk(filled, k);
    } else {
      ReplayElsewhere(filled.cache, s'.objects, s'.tasks, s'.db, k);
      FillCoherentIff(s'.cache, s'.db, read);
    }
  }
}
