/** The quota cache service over its in-memory backend: five dictionaries written entry by entry. Each
    method is proved against the functions of `QuotaCache`. */
module QuotaService {
  import opened Wrappers
  import opened QuotaCache

  class MemoryBackend {
    var featureCosts: map<string, int>
    var planMultipliers: map<string, int>
    var planCredits: map<string, int>
    var planRateLimits: map<string, int>
    var planRateDayLimits: map<string, int>

    function Contents(): Cache
      reads this
    {
      Cache(featureCosts, planMultipliers, planCredits, planRateLimits, planRateDayLimits)
    }

    constructor ()
      ensures Contents() == EMPTY
    {
      featureCosts, planMultipliers, planCredits := map[], map[], map[];
      planRateLimits, planRateDayLimits := map[], map[];
    }

    method SetFeatureCost(key: string, cost: int)
      modifies this
      ensures Contents() == SetFeature(old(Contents()), key, cost)
    {
      featureCosts := featureCosts[key := cost];
    }

    method DeleteFeatureCost(key: string)
      modifies this
      ensures Contents() == DropFeature(old(Contents()), key)
    {
      featureCosts := featureCosts - {key};
    }

    method SetPlanMultiplier(plan: string, multiplier: int)
      modifies this`planMultipliers
      ensures planMultipliers == old(planMultipliers)[plan := multiplier]
    {
      planMultipliers := planMultipliers[plan := multiplier];
    }

    method SetPlanCreditsAllocation(plan: string, credits: int)
      modifies this`planCredits
      ensures planCredits == old(planCredits)[plan := credits]
    {
      planCredits := planCredits[plan := credits];
    }

    method SetPlanRateLimit(plan: string, limit: int)
      modifies this`planRateLimits
      ensures planRateLimits == old(planRateLimits)[plan := limit]
    {
      planRateLimits := planRateLimits[plan := limit];
    }

    method SetPlanRateDayLimit(plan: string, limit: int)
      modifies this`planRateDayLimits
      ensures planRateDayLimits == old(planRateDayLimits)[plan := limit]
    {
      planRateDayLimits := planRateDayLimits[plan := limit];
    }

    method DeletePlanMultiplier(plan: string)
      modifies this`planMultipliers
      ensures planMultipliers == old(planMultipliers) - {plan}
    {
      planMultipliers := planMultipliers - {plan};
    }

    method DeletePlanCreditsAllocation(plan: string)
      modifies this`planCredits
      ensures planCredits == old(planCredits) - {plan}
    {
      planCredits := planCredits - {plan};
    }

    method DeletePlanRateLimit(plan: string)
      modifies this`planRateLimits
      ensures planRateLimits == old(planRateLimits) - {plan}
    {
      planRateLimits := planRateLimits - {plan};
    }

    method DeletePlanRateDayLimit(plan: string)
      modifies this`planRateDayLimits
      ensures planRateDayLimits == old(planRateDayLimits) - {plan}
    {
      planRateDayLimits := planRateDayLimits - {plan};
    }

    method Clear()
      modifies this
      ensures Contents() == EMPTY
    {
      featureCosts, planMultipliers, planCredits := map[], map[], map[];
      planRateLimits, planRateDayLimits := map[], map[];
    }
  }

  // The rows a query for live rows lists, in any order.
  ghost predicate ListsLiveRows(db: Database, features: seq<string>, plans: seq<string>) {
    && (forall key :: key in features <==> LiveFeature(db, key))
    && (forall plan :: plan in plans <==> LivePlan(db, plan))
  }

  class QuotaCacheService {
    var backend: MemoryBackend?
    var initialized: bool

    constructor ()
      ensures backend == null && !initialized
    {
      backend, initialized := null, false;
    }

    method WritePlan(b: MemoryBackend, plan: string, row: PlanRow)
      modifies b
      ensures b.Contents() == SetPlan(old(b.Contents()), plan, row)
    {
      b.SetPlanMultiplier(plan, row.multiplier);
      b.SetPlanCreditsAllocation(plan, row.credits);
      b.SetPlanRateLimit(plan, if row.perMinute.Some? then row.perMinute.value else UNLIMITED);
      b.SetPlanRateDayLimit(plan, if row.perDay.Some? then row.perDay.value else UNLIMITED);
    }

    method ErasePlan(b: MemoryBackend, plan: string)
      modifies b
      ensures b.Contents() == DropPlan(old(b.Contents()), plan)
    {
      b.DeletePlanMultiplier(plan);
      b.DeletePlanCreditsAllocation(plan);
      b.DeletePlanRateLimit(plan);
      b.DeletePlanRateDayLimit(plan);
    }

    method LoadFeatures(b: MemoryBackend, db: Database, features: seq<string>)
      requires forall i :: 0 <= i < |features| ==> LiveFeature(db, features[i])
      modifies b
      ensures b.Contents() == LoadedFeatures(old(b.Contents()), db, features)
    {
      for i := 0 to |features|
        invariant b.Contents() == LoadedFeatures(old(b.Contents()), db, features[..i])
      {
        b.SetFeatureCost(features[i], db.features[features[i]].cost);
        assert features[..i + 1][..i] == features[..i];
      }
      assert features[..|features|] == features;
    }

    method LoadPlans(b: MemoryBackend, db: Database, plans: seq<string>)
      requires forall i :: 0 <= i < |plans| ==> LivePlan(db, plans[i])
      modifies b
      ensures b.Contents() == LoadedPlans(old(b.Contents()), db, plans)
    {
      for i := 0 to |plans|
        invariant b.Contents() == LoadedPlans(old(b.Contents()), db, plans[..i])
      {
        WritePlan(b, plans[i], db.plans[plans[i]]);
        assert plans[..i + 1][..i] == plans[..i];
      }
      assert plans[..|plans|] == plans;
    }

    /** `init`: a new backend holding every live row; nothing when already initialized. */
    method Init(db: Database, features: seq<string>, plans: seq<string>)
      requires ListsLiveRows(db, features, plans)
      modifies this
      ensures initialized
      ensures old(initialized) ==> backend == old(backend)
      ensures !old(initialized) ==> backend != null && fresh(backend) && backend.Contents() == Load(EMPTY, db)
    {
      if initialized {
        return;
      }
      var b := new MemoryBackend();
      LoadedAll(db, features, plans);
      LoadFeatures(b, db, features);
      LoadPlans(b, db, plans);
      backend := b;
      initialized := true;
    }

    method OnFeatureChange(key: string, target: FeatureRow)
      modifies backend
      ensures backend != null ==> backend.Contents() == OnFeature(old(backend.Contents()), key, target)
    {
      if backend == null {
        return;
      }
      if target.deleted {
        backend.DeleteFeatureCost(key);
      } else {
        backend.SetFeatureCost(key, target.cost);
      }
    }

    method OnFeatureDelete(key: string)
      modifies backend
      ensures backend != null ==> backend.Contents() == DropFeature(old(backend.Contents()), key)
    {
      if backend != null {
        backend.DeleteFeatureCost(key);
      }
    }

    method OnPricingChange(plan: string, target: PlanRow)
      modifies backend
      ensures backend != null ==> backend.Contents() == OnPlan(old(backend.Contents()), plan, target)
    {
      if backend == null {
        return;
      }
      if target.deleted {
        ErasePlan(backend, plan);
      } else {
        WritePlan(backend, plan, target);
      }
    }

    method OnPricingDelete(plan: string)
      modifies backend
      ensures backend != null ==> backend.Contents() == DropPlan(old(backend.Contents()), plan)
    {
      if backend != null {
        ErasePlan(backend, plan);
      }
    }

    /** `get_plan_config`: cache, then database (filling the cache), then none. */
    method GetPlanConfig(db: Database, plan: Option<string>) returns (config: Option<PlanConfig>)
      modifies backend
      ensures backend == null ==> config == DbPlan(db, plan)
      ensures backend != null ==> (backend.Contents(), config) == GetPlan(old(backend.Contents()), db, plan)
      ensures plan.Some? && (backend != null ==> PlanCoherent(old(backend.Contents()), db, plan.value)) ==>
                if plan.value in db.plans && !db.plans[plan.value].deleted then
                  var row := db.plans[plan.value];
                  && config.Some? && config.value.multiplier == row.multiplier && config.value.credits == row.credits
                  && (row.perMinute != Some(-1) ==> config.value.perMinute == row.perMinute)
                  && (row.perDay != Some(-1) ==> config.value.perDay == row.perDay)
                else config.None?
      ensures plan.None? ==> config.None?
      ensures backend != null && plan.Some? && FullyCached(old(backend.Contents()), plan.value) ==>
                var held := old(backend.Contents());
                && backend.Contents() == held
                && config.Some? && config.value.multiplier == held.multipliers[plan.value]
                && config.value.credits == held.credits[plan.value]
    {
      if plan.None? {
        return None;
      }
      var id := plan.value;
      if backend != null {
        if id in backend.planMultipliers && id in backend.planCredits
           && id in backend.planRateLimits && id in backend.planRateDayLimits
        {
          var perMinute := backend.planRateLimits[id];
          var perDay := backend.planRateDayLimits[id];
          return Some(PlanConfig(backend.planMultipliers[id], backend.planCredits[id],
                                 if perMinute != UNLIMITED then Some(perMinute) else None,
                                 if perDay != UNLIMITED then Some(perDay) else None));
        }
      }
      if !LivePlan(db, id) {
        return None;
      }
      var rule := db.plans[id];
      if backend != null {
        WritePlan(backend, id, rule);
      }
      config := Some(PlanConfig(rule.multiplier, rule.credits, rule.perMinute, rule.perDay));
    }

    method GetFeatureConfig(db: Database, key: string) returns (cost: Option<int>)
      modifies backend
      ensures backend == null ==> cost == DbFeature(db, key)
      ensures backend != null ==> (backend.Contents(), cost) == GetFeature(old(backend.Contents()), db, key)
      ensures (backend != null ==> FeatureCoherent(old(backend.Contents()), db, key)) ==>
                cost == if key in db.features && !db.features[key].deleted then Some(db.features[key].cost) else None
      ensures backend != null && key in old(backend.Contents()).featureCosts ==>
                var held := old(backend.Contents());
                cost == Some(held.featureCosts[key]) && backend.Contents() == held
    {
      if backend != null && key in backend.featureCosts {
        return Some(backend.featureCosts[key]);
      }
      if !LiveFeature(db, key) {
        return None;
      }
      if backend != null {
        backend.SetFeatureCost(key, db.features[key].cost);
      }
      cost := Some(db.features[key].cost);
    }

    /** Through a coherent cache, or none, the cost of a live feature times the multiplier of a live plan. */
    method CalculateBillableCost(db: Database, key: string, plan: Option<string>) returns (cost: Option<int>)
      modifies backend
      ensures backend == null ==> cost == Product(DbFeature(db, key), DbPlan(db, plan))
      ensures backend != null ==> (backend.Contents(), cost) == Billable(old(backend.Contents()), db, key, plan)
      ensures (backend != null ==> Coherent(old(backend.Contents()), db)) ==>
                cost == if key in db.features && !db.features[key].deleted
                           && plan.Some? && plan.value in db.plans && !db.plans[plan.value].deleted
                        then Some(db.features[key].cost * db.plans[plan.value].multiplier)
                        else None
    {
      ghost var held := if backend == null then EMPTY else backend.Contents();
      if backend != null && Coherent(held, db) {
        FeatureLookupTransparent(held, db, key);
        assert plan.Some? ==> PlanCoherent(GetFeature(held, db, key).0, db, plan.value);
      }
      var feature := GetFeatureConfig(db, key);
      var config := GetPlanConfig(db, plan);
      if feature.None? || config.None? {
        return None;
      }
      cost := Some(feature.value * config.value.multiplier);
    }

    method ClearCache()
      modifies this`initialized, backend
      ensures !initialized && backend == old(backend)
      ensures backend != null ==> backend.Contents() == EMPTY
    {
      if backend != null {
        backend.Clear();
      }
      initialized := false;
    }

    /** `refresh`: whatever the cache held before, it then holds exactly the live rows. */
    method Refresh(db: Database, features: seq<string>, plans: seq<string>)
      requires ListsLiveRows(db, features, plans)
      modifies this, backend
      ensures initialized && backend != null && fresh(backend) && backend.Contents() == Load(EMPTY, db)
    {
      ClearCache();
      Init(db, features, plans);
    }

    /** One flush, removal or lookup: the listener or getter that handles it, on the rows after it. */
    method Handle(op: Op, db: Database, rows: Database -> (seq<string>, seq<string>)) returns (answer: Answer)
      requires backend != null && forall d :: ListsLiveRows(d, rows(d).0, rows(d).1)
      modifies this, backend
      ensures backend != null && (backend == old(backend) || fresh(backend))
      ensures (backend.Contents(), answer) == CachedStep(old(backend.Contents()), db, op)
    {
      answer := Answer.Quiet;
      match op {
        case WriteFeature(key, r) => OnFeatureChange(key, r);
        case RemoveFeature(key) => OnFeatureDelete(key);
        case WritePlan(plan, r) => OnPricingChange(plan, r);
        case RemovePlan(plan) => OnPricingDelete(plan);
        case LookupFeature(key) =>
          var cost := GetFeatureConfig(db, key);
          answer := FeatureAnswer(cost);
        case LookupPlan(plan) =>
          var config := GetPlanConfig(db, plan);
          answer := PlanAnswer(config);
        case Cost(key, plan) =>
          var cost := CalculateBillableCost(db, key, plan);
          answer := CostAnswer(cost);
        case Refresh => Refresh(db, rows(db).0, rows(db).1);
      }
    }

    /** A service that has started up answers any run of flushes and lookups as the database alone. */
    method Serve(start: Database, ops: seq<Op>, rows: Database -> (seq<string>, seq<string>))
      returns (answers: seq<Answer>)
      requires forall d :: ListsLiveRows(d, rows(d).0, rows(d).1)
      requires AllSentinelFree(start) && WritesSentinelFree(ops)
      modifies this, backend
      ensures answers == DbRun(start, ops)
    {
      Refresh(start, rows(start).0, rows(start).1);
      StartUpTransparent(start, ops);
      var db := start;
      answers := [];
      for i := 0 to |ops|
        invariant backend != null && (backend == old(backend) || fresh(backend))
        invariant CachedRun(Load(EMPTY, start), start, ops) == answers + CachedRun(backend.Contents(), db, ops[i..])
      {
        var answer := Handle(ops[i], db, rows);
        assert ops[i..][1..] == ops[i + 1..];
        db := Write(db, ops[i]);
        answers := answers + [answer];
      }
    }
  }

  function LoadedFeatures(c: Cache, db: Database, features: seq<string>): Cache
    requires forall i :: 0 <= i < |features| ==> LiveFeature(db, features[i])
  {
    if features == [] then c
    else
      var last := features[|features| - 1];
      assert LiveFeature(db, last);
      SetFeature(LoadedFeatures(c, db, features[..|features| - 1]), last, db.features[last].cost)
  }

  function LoadedPlans(c: Cache, db: Database, plans: seq<string>): Cache
    requires forall i :: 0 <= i < |plans| ==> LivePlan(db, plans[i])
  {
    if plans == [] then c
    else
      var last := plans[|plans| - 1];
      assert LivePlan(db, last);
      SetPlan(LoadedPlans(c, db, plans[..|plans| - 1]), last, db.plans[last])
  }

  lemma {:induction false} FeaturesLoaded(c: Cache, db: Database, features: seq<string>)
    requires forall i :: 0 <= i < |features| ==> LiveFeature(db, features[i])
    ensures var l := LoadedFeatures(c, db, features);
            && l == c.(featureCosts := l.featureCosts)
            && l.featureCosts.Keys == c.featureCosts.Keys + (set key | key in features)
            && forall key :: key in l.featureCosts ==>
                 l.featureCosts[key] == if key in features then db.features[key].cost else c.featureCosts[key]
    decreases |features|
  {
    if features != [] {
      FeaturesLoaded(c, db, features[..|features| - 1]);
      assert features == features[..|features| - 1] + [features[|features| - 1]];
    }
  }

  // The four entries of every listed plan are there and agree with its row, and no others are added.
  ghost predicate PlansLoaded(c: Cache, db: Database, plans: seq<string>, l: Cache) {
    && l.featureCosts == c.featureCosts
    && (forall p :: p in plans ==> FullyCached(l, p) && PlanCoherent(l, db, p))
    && (forall p :: p !in plans ==>
          && (p in l.multipliers <==> p in c.multipliers) && (p in l.credits <==> p in c.credits)
          && (p in l.rateLimits <==> p in c.rateLimits) && (p in l.dayLimits <==> p in c.dayLimits))
  }

  lemma {:induction false} AllPlansLoaded(c: Cache, db: Database, plans: seq<string>)
    requires forall i :: 0 <= i < |plans| ==> LivePlan(db, plans[i])
    ensures PlansLoaded(c, db, plans, LoadedPlans(c, db, plans))
    decreases |plans|
  {
    if plans != [] {
      var init, last := plans[..|plans| - 1], plans[|plans| - 1];
      AllPlansLoaded(c, db, init);
      assert plans == init + [last];
    }
  }

  // The cache holds exactly the live rows.
  ghost predicate HoldsPlans(c: Cache, db: Database) {
    forall p :: PlanCoherent(c, db, p) && (LivePlan(db, p) ==> FullyCached(c, p))
  }

  lemma PlansDetermined(a: Cache, b: Cache, db: Database)
    requires HoldsPlans(a, db) && HoldsPlans(b, db)
    ensures a == b.(featureCosts := a.featureCosts)
  {
    forall p
      ensures p in a.multipliers <==> LivePlan(db, p)
      ensures p in b.multipliers <==> LivePlan(db, p)
      ensures p in a.credits <==> LivePlan(db, p)
      ensures p in b.credits <==> LivePlan(db, p)
      ensures p in a.rateLimits <==> LivePlan(db, p)
      ensures p in b.rateLimits <==> LivePlan(db, p)
      ensures p in a.dayLimits <==> LivePlan(db, p)
      ensures p in b.dayLimits <==> LivePlan(db, p)
    {
      assert PlanCoherent(a, db, p) && PlanCoherent(b, db, p);
    }
    assert forall p :: p in a.multipliers ==> PlanCoherent(a, db, p) && PlanCoherent(b, db, p);
    assert forall p :: p in a.credits ==> PlanCoherent(a, db, p) && PlanCoherent(b, db, p);
    assert forall p :: p in a.rateLimits ==> PlanCoherent(a, db, p) && PlanCoherent(b, db, p);
    assert forall p :: p in a.dayLimits ==> PlanCoherent(a, db, p) && PlanCoherent(b, db, p);
  }

  lemma LoadHoldsPlans(db: Database)
    ensures HoldsPlans(Load(EMPTY, db), db)
  {
    LoadCoherentIff(EMPTY, db);
  }

  lemma LoadedHoldsPlans(c: Cache, db: Database, plans: seq<string>)
    requires forall plan :: plan in plans <==> LivePlan(db, plan)
    requires forall i :: 0 <= i < |plans| ==> LivePlan(db, plans[i])
    requires c == EMPTY.(featureCosts := c.featureCosts)
    ensures HoldsPlans(LoadedPlans(c, db, plans), db)
    ensures LoadedPlans(c, db, plans).featureCosts == c.featureCosts
  {
    AllPlansLoaded(c, db, plans);
    forall p
      ensures PlanCoherent(LoadedPlans(c, db, plans), db, p)
    {
      assert p in plans <==> LivePlan(db, p);
    }
  }

  lemma FeatureCostsLoaded(db: Database, features: seq<string>)
    requires forall key :: key in features <==> LiveFeature(db, key)
    requires forall i :: 0 <= i < |features| ==> LiveFeature(db, features[i])
    ensures LoadedFeatures(EMPTY, db, features) == EMPTY.(featureCosts := Load(EMPTY, db).featureCosts)
  {
    FeaturesLoaded(EMPTY, db, features);
    var costs, expected := LoadedFeatures(EMPTY, db, features).featureCosts, Load(EMPTY, db).featureCosts;
    forall key
      ensures key in costs <==> key in expected
      ensures key in costs ==> costs[key] == expected[key]
    {
      assert key in features <==> LiveFeature(db, key);
    }
    assert costs == expected;
  }

  lemma SameCache(a: Cache, b: Cache, db: Database)
    requires HoldsPlans(a, db) && HoldsPlans(b, db) && a.featureCosts == b.featureCosts
    ensures a == b
  {
    PlansDetermined(a, b, db);
  }

  /** Loading the rows one by one, in any order, with repetitions or not, gives `Load`. */
  lemma LoadedAll(db: Database, features: seq<string>, plans: seq<string>)
    requires ListsLiveRows(db, features, plans)
    ensures forall i :: 0 <= i < |features| ==> LiveFeature(db, features[i])
    ensures forall i :: 0 <= i < |plans| ==> LivePlan(db, plans[i])
    ensures LoadedPlans(LoadedFeatures(EMPTY, db, features), db, plans) == Load(EMPTY, db)
  {
    assert forall i :: 0 <= i < |features| ==> features[i] in features;
    assert forall i :: 0 <= i < |plans| ==> plans[i] in plans;
    var f := LoadedFeatures(EMPTY, db, features);
    FeatureCostsLoaded(db, features);
    LoadedHoldsPlans(f, db, plans);
    LoadHoldsPlans(db);
    SameCache(LoadedPlans(f, db, plans), Load(EMPTY, db), db);
  }
}
