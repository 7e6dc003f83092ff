/** The quota cache in front of the pricing tables. Prices, multipliers and credits are whole
    hundredths, as the columns store them; a billable cost is in ten-thousandths. */
module QuotaCache {
  import opened Wrappers

  // ---------- The tables ----------

  datatype FeatureRow = FeatureRow(cost: int, deleted: bool)

  datatype PlanRow = PlanRow(multiplier: int, credits: int, perMinute: Option<int>, perDay: Option<int>, deleted: bool)

  // One row for each key: the key columns are unique, soft-deleted rows included.
  datatype Database = Database(features: map<string, FeatureRow>, plans: map<string, PlanRow>)

  predicate LiveFeature(db: Database, key: string) {
    key in db.features && !db.features[key].deleted
  }

  predicate LivePlan(db: Database, plan: string) {
    plan in db.plans && !db.plans[plan].deleted
  }

  datatype PlanConfig = PlanConfig(multiplier: int, credits: int, perMinute: Option<int>, perDay: Option<int>)

  // What a lookup that only asks the database returns.
  function DbFeature(db: Database, key: string): Option<int> {
    if LiveFeature(db, key) then Some(db.features[key].cost) else None
  }

  function DbPlan(db: Database, plan: Option<string>): Option<PlanConfig> {
    if plan.Some? && LivePlan(db, plan.value) then
      var r := db.plans[plan.value];
      Some(PlanConfig(r.multiplier, r.credits, r.perMinute, r.perDay))
    else None
  }

  function Product(cost: Option<int>, plan: Option<PlanConfig>): Option<int> {
    if cost.None? || plan.None? then None else Some(cost.value * plan.value.multiplier)
  }

  // ---------- The cache ----------

  const UNLIMITED := -1

  function Encode(limit: Option<int>): int { limit.GetOr(UNLIMITED) }

  function Decode(n: int): Option<int> { if n != UNLIMITED then Some(n) else None }

  datatype Cache = Cache(
    featureCosts: map<string, int>,
    multipliers: map<string, int>,
    credits: map<string, int>,
    rateLimits: map<string, int>,
    dayLimits: map<string, int>)

  const EMPTY := Cache(map[], map[], map[], map[], map[])

  function SetFeature(c: Cache, key: string, cost: int): Cache {
    c.(featureCosts := c.featureCosts[key := cost])
  }

  function DropFeature(c: Cache, key: string): Cache {
    c.(featureCosts := c.featureCosts - {key})
  }

  function SetPlan(c: Cache, plan: string, r: PlanRow): Cache {
    Cache(c.featureCosts,
          c.multipliers[plan := r.multiplier],
          c.credits[plan := r.credits],
          c.rateLimits[plan := Encode(r.perMinute)],
          c.dayLimits[plan := Encode(r.perDay)])
  }

  function DropPlan(c: Cache, plan: string): Cache {
    Cache(c.featureCosts, c.multipliers - {plan}, c.credits - {plan}, c.rateLimits - {plan}, c.dayLimits - {plan})
  }

  predicate FullyCached(c: Cache, plan: string) {
    plan in c.multipliers && plan in c.credits && plan in c.rateLimits && plan in c.dayLimits
  }

  // The listeners on insert and update.
  function OnFeature(c: Cache, key: string, r: FeatureRow): Cache {
    if r.deleted then DropFeature(c, key) else SetFeature(c, key, r.cost)
  }

  function OnPlan(c: Cache, plan: string, r: PlanRow): Cache {
    if r.deleted then DropPlan(c, plan) else SetPlan(c, plan, r)
  }

  function GetFeature(c: Cache, db: Database, key: string): (Cache, Option<int>) {
    if key in c.featureCosts then (c, Some(c.featureCosts[key]))
    else if LiveFeature(db, key) then (SetFeature(c, key, db.features[key].cost), Some(db.features[key].cost))
    else (c, None)
  }

  function GetPlan(c: Cache, db: Database, plan: Option<string>): (Cache, Option<PlanConfig>) {
    if plan.None? then (c, None)
    else if FullyCached(c, plan.value) then
      (c, Some(PlanConfig(c.multipliers[plan.value], c.credits[plan.value],
                          Decode(c.rateLimits[plan.value]), Decode(c.dayLimits[plan.value]))))
    else if LivePlan(db, plan.value) then (SetPlan(c, plan.value, db.plans[plan.value]), DbPlan(db, plan))
    else (c, None)
  }

  function Billable(c: Cache, db: Database, key: string, plan: Option<string>): (Cache, Option<int>) {
    var (c1, cost) := GetFeature(c, db, key);
    var (c2, config) := GetPlan(c1, db, plan);
    (c2, Product(cost, config))
  }

  // `init`: every live row is written over what the backend holds.
  function Load(c: Cache, db: Database): Cache {
    Cache(c.featureCosts + map k | k in db.features && LiveFeature(db, k) :: db.features[k].cost,
          c.multipliers + map p | p in db.plans && LivePlan(db, p) :: db.plans[p].multiplier,
          c.credits + map p | p in db.plans && LivePlan(db, p) :: db.plans[p].credits,
          c.rateLimits + map p | p in db.plans && LivePlan(db, p) :: Encode(db.plans[p].perMinute),
          c.dayLimits + map p | p in db.plans && LivePlan(db, p) :: Encode(db.plans[p].perDay))
  }

  // ---------- Coherence ----------

  ghost predicate FeatureCoherent(c: Cache, db: Database, key: string) {
    key in c.featureCosts ==> LiveFeature(db, key) && c.featureCosts[key] == db.features[key].cost
  }

  // Each of the four entries agrees with the live row on its own, whichever of them are present.
  ghost predicate PlanCoherent(c: Cache, db: Database, plan: string) {
    && (plan in c.multipliers ==> LivePlan(db, plan) && c.multipliers[plan] == db.plans[plan].multiplier)
    && (plan in c.credits ==> LivePlan(db, plan) && c.credits[plan] == db.plans[plan].credits)
    && (plan in c.rateLimits ==> LivePlan(db, plan) && c.rateLimits[plan] == Encode(db.plans[plan].perMinute))
    && (plan in c.dayLimits ==> LivePlan(db, plan) && c.dayLimits[plan] == Encode(db.plans[plan].perDay))
  }

  ghost predicate Coherent(c: Cache, db: Database) {
    && (forall key :: FeatureCoherent(c, db, key))
    && (forall plan :: PlanCoherent(c, db, plan))
  }

  // The value that means "unlimited" in the cache is not a limit of this row.
  predicate SentinelFree(r: PlanRow) {
    r.perMinute != Some(UNLIMITED) && r.perDay != Some(UNLIMITED)
  }

  ghost predicate AllSentinelFree(db: Database) {
    forall plan :: plan in db.plans ==> SentinelFree(db.plans[plan])
  }

  /** A lookup through a coherent cache answers what the database alone answers, except exactly
      when all four entries are cached and one of the row's limits is the sentinel value. */
  lemma PlanLookupTransparentIff(c: Cache, db: Database, plan: Option<string>)
    requires Coherent(c, db)
    ensures GetPlan(c, db, plan).1 == DbPlan(db, plan)
            <==> !(plan.Some? && FullyCached(c, plan.value) &&
                   plan.value in db.plans && !SentinelFree(db.plans[plan.value]))
    ensures Coherent(GetPlan(c, db, plan).0, db)
  {
    if plan.Some? {
      assert PlanCoherent(c, db, plan.value);
      var c' := GetPlan(c, db, plan).0;
      forall key
        ensures FeatureCoherent(c', db, key) && PlanCoherent(c', db, key)
      {
        assert FeatureCoherent(c, db, key) && PlanCoherent(c, db, key);
      }
    }
  }

  lemma FeatureLookupTransparent(c: Cache, db: Database, key: string)
    requires Coherent(c, db)
    ensures GetFeature(c, db, key).1 == DbFeature(db, key)
    ensures Coherent(GetFeature(c, db, key).0, db)
  {
    assert FeatureCoherent(c, db, key);
    var c' := GetFeature(c, db, key).0;
    forall k
      ensures FeatureCoherent(c', db, k) && PlanCoherent(c', db, k)
    {
      assert FeatureCoherent(c, db, k) && PlanCoherent(c, db, k);
    }
  }

  // Every cached entry belongs to a live row, whatever its value.
  ghost predicate OnlyLiveKeys(c: Cache, db: Database) {
    && (forall key :: key in c.featureCosts ==> LiveFeature(db, key))
    && (forall p :: p in c.multipliers.Keys + c.credits.Keys + c.rateLimits.Keys + c.dayLimits.Keys ==> LivePlan(db, p))
  }

  lemma LoadOverLiveKeys(c: Cache, db: Database)
    requires OnlyLiveKeys(c, db)
    ensures Coherent(Load(c, db), db)
  {
    var l := Load(c, db);
    forall key
      ensures FeatureCoherent(l, db, key)
    {
    }
    forall p
      ensures PlanCoherent(l, db, p)
    {
      assert p in c.multipliers.Keys + c.credits.Keys + c.rateLimits.Keys + c.dayLimits.Keys ==> LivePlan(db, p);
    }
  }

  /** `init` makes the cache coherent exactly when the backend held no entry of a row that is not
      live; `refresh`, which clears first, always does. */
  lemma LoadCoherentIff(c: Cache, db: Database)
    ensures Coherent(Load(c, db), db) <==> OnlyLiveKeys(c, db)
    ensures Coherent(Load(EMPTY, db), db)
  {
    var l := Load(c, db);
    if Coherent(l, db) {
      forall key | key in c.featureCosts
        ensures LiveFeature(db, key)
      {
        assert FeatureCoherent(l, db, key);
      }
      forall p | p in c.multipliers.Keys + c.credits.Keys + c.rateLimits.Keys + c.dayLimits.Keys
        ensures LivePlan(db, p)
      {
        assert PlanCoherent(l, db, p);
      }
    }
    if OnlyLiveKeys(c, db) {
      LoadOverLiveKeys(c, db);
    }
    LoadOverLiveKeys(EMPTY, db);
  }

  // ---------- Runs with listeners that apply at once ----------

  datatype Op =
    | WriteFeature(key: string, feature: FeatureRow)
    | RemoveFeature(key: string)
    | WritePlan(plan: string, rule: PlanRow)
    | RemovePlan(plan: string)
    | LookupFeature(key: string)
    | LookupPlan(planId: Option<string>)
    | Cost(key: string, planId: Option<string>)
    | Refresh

  datatype Answer =
    | Quiet
    | FeatureAnswer(cost: Option<int>)
    | PlanAnswer(config: Option<PlanConfig>)
    | CostAnswer(cost: Option<int>)

  // Inserts, updates and soft deletes are one write of the row.
  function Write(db: Database, op: Op): Database {
    match op
    case WriteFeature(key, r) => db.(features := db.features[key := r])
    case RemoveFeature(key) => db.(features := db.features - {key})
    case WritePlan(plan, r) => db.(plans := db.plans[plan := r])
    case RemovePlan(plan) => db.(plans := db.plans - {plan})
    case _ => db
  }

  function DbAnswer(db: Database, op: Op): Answer {
    match op
    case LookupFeature(key) => FeatureAnswer(DbFeature(db, key))
    case LookupPlan(plan) => PlanAnswer(DbPlan(db, plan))
    case Cost(key, plan) => CostAnswer(Product(DbFeature(db, key), DbPlan(db, plan)))
    case _ => Quiet
  }

  function CachedStep(c: Cache, db: Database, op: Op): (Cache, Answer) {
    match op
    case WriteFeature(key, r) => (OnFeature(c, key, r), Quiet)
    case RemoveFeature(key) => (DropFeature(c, key), Quiet)
    case WritePlan(plan, r) => (OnPlan(c, plan, r), Quiet)
    case RemovePlan(plan) => (DropPlan(c, plan), Quiet)
    case LookupFeature(key) => var (c', a) := GetFeature(c, db, key); (c', FeatureAnswer(a))
    case LookupPlan(plan) => var (c', a) := GetPlan(c, db, plan); (c', PlanAnswer(a))
    case Cost(key, plan) => var (c', a) := Billable(c, db, key, plan); (c', CostAnswer(a))
    case Refresh => (Load(EMPTY, db), Quiet)
  }

  function DbRun(db: Database, ops: seq<Op>): seq<Answer>
    decreases |ops|
  {
    if ops == [] then [] else [DbAnswer(db, ops[0])] + DbRun(Write(db, ops[0]), ops[1..])
  }

  function CachedRun(c: Cache, db: Database, ops: seq<Op>): seq<Answer>
    decreases |ops|
  {
    if ops == [] then []
    else
      var (c', a) := CachedStep(c, db, ops[0]);
      [a] + CachedRun(c', Write(db, ops[0]), ops[1..])
  }

  ghost predicate WritesSentinelFree(ops: seq<Op>) {
    forall op :: op in ops && op.WritePlan? ==> SentinelFree(op.rule)
  }

  lemma FeatureWriteCoherent(c: Cache, db: Database, op: Op)
    requires Coherent(c, db) && (op.WriteFeature? || op.RemoveFeature?)
    ensures Coherent(CachedStep(c, db, op).0, Write(db, op))
  {
    var c' := CachedStep(c, db, op).0;
    forall key
      ensures FeatureCoherent(c', Write(db, op), key)
      ensures PlanCoherent(c', Write(db, op), key)
    {
      assert FeatureCoherent(c, db, key);
      assert PlanCoherent(c, db, key);
    }
  }

  lemma DropPlanCoherent(c: Cache, db: Database, plan: string, p: string)
    requires PlanCoherent(c, db, p)
    ensures PlanCoherent(DropPlan(c, plan), db.(plans := db.plans - {plan}), p)
    ensures forall r: PlanRow :: r.deleted ==> PlanCoherent(DropPlan(c, plan), db.(plans := db.plans[plan := r]), p)
  {
  }

  lemma PlanWriteCoherent(c: Cache, db: Database, op: Op)
    requires Coherent(c, db) && (op.WritePlan? || op.RemovePlan?)
    ensures Coherent(CachedStep(c, db, op).0, Write(db, op))
  {
    var c', db' := CachedStep(c, db, op).0, Write(db, op);
    forall key
      ensures FeatureCoherent(c', db', key)
    {
      assert FeatureCoherent(c, db, key);
    }
    forall p
      ensures PlanCoherent(c', db', p)
    {
      assert PlanCoherent(c, db, p);
      if op.WritePlan? && !op.rule.deleted {
      } else {
        DropPlanCoherent(c, db, op.plan, p);
      }
    }
  }

  /** Lookups answer with the columns of rows that are there and not deleted; a billable cost is the
      product of the feature's cost and the plan's multiplier. */
  predicate AnswersFromRows(db: Database, op: Op, a: Answer) {
    match op
    case LookupFeature(key) =>
      a == FeatureAnswer(if key in db.features && !db.features[key].deleted then Some(db.features[key].cost) else None)
    case LookupPlan(plan) =>
      a == PlanAnswer(if plan.Some? && plan.value in db.plans && !db.plans[plan.value].deleted then
                        var row := db.plans[plan.value];
                        Some(PlanConfig(row.multiplier, row.credits, row.perMinute, row.perDay))
                      else None)
    case Cost(key, plan) =>
      a == CostAnswer(if key in db.features && !db.features[key].deleted
                         && plan.Some? && plan.value in db.plans && !db.plans[plan.value].deleted
                      then Some(db.features[key].cost * db.plans[plan.value].multiplier) else None)
    case _ => a == Answer.Quiet
  }

  lemma StepTransparent(c: Cache, db: Database, op: Op)
    requires Coherent(c, db) && AllSentinelFree(db)
    ensures CachedStep(c, db, op).1 == DbAnswer(db, op)
    ensures AnswersFromRows(db, op, CachedStep(c, db, op).1)
    ensures Coherent(CachedStep(c, db, op).0, Write(db, op))
  {
    match op {
      case LookupFeature(key) => FeatureLookupTransparent(c, db, key);
      case LookupPlan(plan) =>
        PlanLookupTransparentIff(c, db, plan);
        assert plan.Some? ==> PlanCoherent(c, db, plan.value);
      case Cost(key, plan) =>
        FeatureLookupTransparent(c, db, key);
        var c1 := GetFeature(c, db, key).0;
        PlanLookupTransparentIff(c1, db, plan);
        assert plan.Some? ==> PlanCoherent(c1, db, plan.value);
      case Refresh => LoadCoherentIff(EMPTY, db);
      case WriteFeature(_, _) => FeatureWriteCoherent(c, db, op);
      case RemoveFeature(_) => FeatureWriteCoherent(c, db, op);
      case WritePlan(_, _) => PlanWriteCoherent(c, db, op);
      case RemovePlan(_) => PlanWriteCoherent(c, db, op);
    }
  }

  /** Cache transparency: from any coherent state, over any run of inserts, updates, soft and hard
      deletes, lookups and refreshes, the cached service answers as the database alone would. */
  lemma {:induction false} RunTransparent(c: Cache, db: Database, ops: seq<Op>)
    requires Coherent(c, db) && AllSentinelFree(db) && WritesSentinelFree(ops)
    ensures CachedRun(c, db, ops) == DbRun(db, ops)
    decreases |ops|
  {
    if ops != [] {
      var op := ops[0];
      assert op in ops;
      StepTransparent(c, db, op);
      RunTransparent(CachedStep(c, db, op).0, Write(db, op), ops[1..]);
    }
  }

  /** The same from start-up: `init` on an empty backend, then any run. */
  lemma StartUpTransparent(db: Database, ops: seq<Op>)
    requires AllSentinelFree(db) && WritesSentinelFree(ops)
    ensures CachedRun(Load(EMPTY, db), db, ops) == DbRun(db, ops)
  {
    LoadCoherentIff(EMPTY, db);
    RunTransparent(Load(EMPTY, db), db, ops);
  }

  /** An update that moves a row to another key only tells the cache about the new key, so it keeps
      the cache coherent exactly when the old key had no entry. */
  lemma RekeyCoherentIff(c: Cache, db: Database, from: string, to: string)
    requires Coherent(c, db) && from in db.features && to !in db.features
    ensures var r := db.features[from];
            Coherent(OnFeature(c, to, r), db.(features := (db.features - {from})[to := r]))
            <==> from !in c.featureCosts
  {
    var r := db.features[from];
    var c', db' := OnFeature(c, to, r), db.(features := (db.features - {from})[to := r]);
    assert FeatureCoherent(c', db', from) <==> from !in c.featureCosts;
    forall key | from !in c.featureCosts
      ensures FeatureCoherent(c', db', key) && PlanCoherent(c', db', key)
    {
      assert FeatureCoherent(c, db, key) && PlanCoherent(c, db, key);
    }
  }

  lemma RekeyedPlan(c: Cache, db: Database, from: string, to: string, p: string)
    requires PlanCoherent(c, db, p) && from in db.plans && to !in db.plans
    ensures var r := db.plans[from];
            PlanCoherent(OnPlan(c, to, r), db.(plans := (db.plans - {from})[to := r]), p) <==>
            p != from || (from !in c.multipliers && from !in c.credits && from !in c.rateLimits && from !in c.dayLimits)
  {
  }

  /** The same for a pricing rule that moves to another plan: all four of the old plan's entries must be
      absent. */
  lemma RekeyPlanCoherentIff(c: Cache, db: Database, from: string, to: string)
    requires Coherent(c, db) && from in db.plans && to !in db.plans
    ensures var r := db.plans[from];
            Coherent(OnPlan(c, to, r), db.(plans := (db.plans - {from})[to := r]))
            <==> from !in c.multipliers && from !in c.credits && from !in c.rateLimits && from !in c.dayLimits
  {
    var r := db.plans[from];
    var c', db' := OnPlan(c, to, r), db.(plans := (db.plans - {from})[to := r]);
    RekeyedPlan(c, db, from, to, from);
    forall key
      ensures FeatureCoherent(c', db', key)
      ensures key != from ==> PlanCoherent(c', db', key)
    {
      assert FeatureCoherent(c, db, key) && PlanCoherent(c, db, key);
      RekeyedPlan(c, db, from, to, key);
    }
  }
}
