/** The builders of the two lot-sizing models, proved against the predicates of `LotSizing`. */
module LotSizingBuild {
  import opened Sums
  import opened Scip
  import opened LotSizing

  predicate PlanDomainAt(v: Standard, p: int, t: int) { PlanDomain(v.plan(p), t) }

  predicate PlanRowsAt(inst: Instance, v: Standard, p: int, t: int) {
    0 <= p < |inst.items| ==>
      var item := inst.items[p];
      FlowRow(item, v.plan(p), t) && SetupRow(item, inst.M, v.plan(p), t) && TightenRow(item, v.plan(p), t)
  }

  /** The rows of period `t`: shared time, then three rows per product. */
  ghost predicate PeriodRows(inst: Instance, v: Standard, t: int) {
    TimeRow(inst, v, t) && forall p :: 0 <= p < |inst.items| ==> PlanRowsAt(inst, v, p, t)
  }

  ghost predicate Domains(inst: Instance, v: Standard, n: int) {
    forall p, t :: 0 <= p < n && 1 <= t <= inst.T ==> PlanDomainAt(v, p, t)
  }

  method AddPlanVariables(model: Model<Standard>, inst: Instance)
    modifies model
    ensures forall v :: Holds(model.rows, v) <==> old(Holds(model.rows, v)) && Domains(inst, v, |inst.items|)
  {
    for p := 0 to |inst.items|
      invariant forall v :: Holds(model.rows, v) <==> old(Holds(model.rows, v)) && Domains(inst, v, p)
    {
      for t := 1 to inst.T + 1
        invariant forall v :: Holds(model.rows, v) <==>
                    old(Holds(model.rows, v)) && Domains(inst, v, p) && forall k :: 1 <= k < t ==> PlanDomainAt(v, p, k)
      {
        model.AddCons((v: Standard) => PlanDomainAt(v, p, t));
      }
    }
  }

  method AddPeriodRows(model: Model<Standard>, inst: Instance, t: int)
    modifies model
    ensures forall v :: Holds(model.rows, v) <==> old(Holds(model.rows, v)) && PeriodRows(inst, v, t)
  {
    model.AddCons((v: Standard) => TimeRow(inst, v, t));
    for p := 0 to |inst.items|
      invariant forall v :: Holds(model.rows, v) <==>
                  old(Holds(model.rows, v)) && TimeRow(inst, v, t) && forall q :: 0 <= q < p ==>
                    PlanRowsAt(inst, v, q, t)
    {
      var item, M := inst.items[p], inst.M;
      model.AddCons((v: Standard) => FlowRow(item, v.plan(p), t));
      model.AddCons((v: Standard) => SetupRow(item, M, v.plan(p), t));
      model.AddCons((v: Standard) => TightenRow(item, v.plan(p), t));
      assert forall v :: PlanRowsAt(inst, v, p, t) <==>
               FlowRow(item, v.plan(p), t) && SetupRow(item, M, v.plan(p), t) && TightenRow(item, v.plan(p), t);
    }
  }

  method BuildStandard(inst: Instance) returns (model: Model<Standard>)
    ensures fresh(model)
    ensures forall v :: Holds(model.rows, v) <==> StandardFeasible(inst, v)
    ensures forall v :: model.objective(v) == StandardCost(inst, v)
  {
    model := new Model();
    AddPlanVariables(model, inst);
    for t := 1 to inst.T + 1
      invariant forall v :: Holds(model.rows, v) <==>
                  Domains(inst, v, |inst.items|) && forall k :: 1 <= k < t ==> PeriodRows(inst, v, k)
    {
      AddPeriodRows(model, inst, t);
    }
    model.SetObjective((v: Standard) => StandardCost(inst, v));
    forall v ensures StandardFeasible(inst, v) <==>
                     Domains(inst, v, |inst.items|) && forall t :: 1 <= t <= inst.T ==> PeriodRows(inst, v, t)
    {
      StandardByLoops(inst, v);
    }
  }

  lemma StandardByLoops(inst: Instance, v: Standard)
    ensures StandardFeasible(inst, v) <==>
            Domains(inst, v, |inst.items|) && forall t :: 1 <= t <= inst.T ==> PeriodRows(inst, v, t)
  {
    if StandardFeasible(inst, v) {
      forall p, t | 0 <= p < |inst.items| && 1 <= t <= inst.T
        ensures PlanDomainAt(v, p, t) && PlanRowsAt(inst, v, p, t)
      {
        assert PlanRows(inst.items[p], inst.M, v.plan(p), t);
      }
    }
    if Domains(inst, v, |inst.items|) && forall t :: 1 <= t <= inst.T ==> PeriodRows(inst, v, t) {
      forall p, t | 0 <= p < |inst.items| && 1 <= t <= inst.T ensures PlanRows(inst.items[p], inst.M, v.plan(p), t) {
        assert PlanDomainAt(v, p, t) && PeriodRows(inst, v, t) && PlanRowsAt(inst, v, p, t);
      }
      forall t | 1 <= t <= inst.T ensures TimeRow(inst, v, t) { assert PeriodRows(inst, v, t); }
    }
  }

  // ---------- facility location ----------

  /** The table C of variable plus holding costs, with its running sum. */
  method UnitCosts(item: Item, T: nat) returns (C: map<(int, int), real>)
    ensures forall s, t :: 1 <= s <= t <= T ==> (s, t) in C && C[(s, t)] == UnitCost(item, s, t)
  {
    C := map[];
    for s := 1 to T + 1
      invariant forall s', t :: 1 <= s' < s && s' <= t <= T ==> (s', t) in C && C[(s', t)] == UnitCost(item, s', t)
    {
      var sumC := 0.0;
      for t := s to T + 1
        invariant sumC == Sum(item.h, s, t)
        invariant forall s', t' :: 1 <= s' < s && s' <= t' <= T ==>
                  (s', t') in C && C[(s', t')] == UnitCost(item, s', t')
        invariant forall t' :: s <= t' < t ==> (s, t') in C && C[(s, t')] == UnitCost(item, s, t')
      {
        C := C[(s, t) := item.c(s) + sumC];
        sumC := sumC + item.h(t);
      }
    }
  }

  predicate SetupDomain(v: Facility, p: int, t: int) { Binary(v.split(p).y(t)) }

  predicate DemandRowAt(inst: Instance, v: Facility, p: int, t: int) {
    0 <= p < |inst.items| ==> DemandRow(inst.items[p], v.split(p), t)
  }

  predicate ConnectRowAt(inst: Instance, v: Facility, p: int, s: int, t: int) {
    0 <= p < |inst.items| ==> ConnectRow(inst.items[p], v.split(p), s, t)
  }

  ghost predicate ProductPeriodRows(inst: Instance, v: Facility, p: int, t: int) {
    && SetupDomain(v, p, t) && DemandRowAt(inst, v, p, t)
    && forall s :: 1 <= s <= t ==> ConnectRowAt(inst, v, p, s, t)
  }

  ghost predicate FacilityPeriodRows(inst: Instance, v: Facility, t: int) {
    CapacityRow(inst, v, t) && forall p :: 0 <= p < |inst.items| ==> ProductPeriodRows(inst, v, p, t)
  }

  method AddProductPeriod(model: Model<Facility>, inst: Instance, p: int, t: int)
    requires 1 <= t
    modifies model
    ensures forall v :: Holds(model.rows, v) <==> old(Holds(model.rows, v)) && ProductPeriodRows(inst, v, p, t)
  {
    model.AddCons((v: Facility) => SetupDomain(v, p, t));
    model.AddCons((v: Facility) => DemandRowAt(inst, v, p, t));
    for s := 1 to t + 1
      invariant forall v :: Holds(model.rows, v) <==>
                  && old(Holds(model.rows, v)) && SetupDomain(v, p, t) && DemandRowAt(inst, v, p, t)
                  && forall k :: 1 <= k < s ==> ConnectRowAt(inst, v, p, k, t)
    {
      model.AddCons((v: Facility) => ConnectRowAt(inst, v, p, s, t));
    }
  }

  method AddFacilityPeriod(model: Model<Facility>, inst: Instance, t: int)
    requires 1 <= t
    modifies model
    ensures forall v :: Holds(model.rows, v) <==> old(Holds(model.rows, v)) && FacilityPeriodRows(inst, v, t)
  {
    model.AddCons((v: Facility) => CapacityRow(inst, v, t));
    for p := 0 to |inst.items|
      invariant forall v :: Holds(model.rows, v) <==>
                  && old(Holds(model.rows, v)) && CapacityRow(inst, v, t)
                  && forall q :: 0 <= q < p ==> ProductPeriodRows(inst, v, q, t)
    {
      AddProductPeriod(model, inst, p, t);
    }
  }

  method BuildFacility(inst: Instance) returns (model: Model<Facility>)
    ensures fresh(model)
    ensures forall v :: Holds(model.rows, v) <==> FacilityFeasible(inst, v)
    ensures forall v :: model.objective(v) == FacilityCost(inst, v)
  {
    model := new Model();
    for t := 1 to inst.T + 1
      invariant forall v :: Holds(model.rows, v) <==> forall k :: 1 <= k < t ==> FacilityPeriodRows(inst, v, k)
    {
      AddFacilityPeriod(model, inst, t);
    }
    model.SetObjective((v: Facility) => FacilityCost(inst, v));
    forall v ensures FacilityFeasible(inst, v) <==> forall t :: 1 <= t <= inst.T ==> FacilityPeriodRows(inst, v, t) {
      FacilityByLoops(inst, v);
    }
  }

  lemma FacilityByLoops(inst: Instance, v: Facility)
    ensures FacilityFeasible(inst, v) <==> forall t :: 1 <= t <= inst.T ==> FacilityPeriodRows(inst, v, t)
  {
    if FacilityFeasible(inst, v) {
      forall t, p | 1 <= t <= inst.T && 0 <= p < |inst.items| ensures ProductPeriodRows(inst, v, p, t) {
        assert SplitRows(inst.items[p], inst.T, v.split(p));
        forall s | 1 <= s <= t ensures ConnectRowAt(inst, v, p, s, t) {
          assert ConnectRow(inst.items[p], v.split(p), s, t);
        }
      }
    }
    if forall t :: 1 <= t <= inst.T ==> FacilityPeriodRows(inst, v, t) {
      forall t | 1 <= t <= inst.T ensures CapacityRow(inst, v, t) { assert FacilityPeriodRows(inst, v, t); }
      forall p | 0 <= p < |inst.items| ensures SplitRows(inst.items[p], inst.T, v.split(p)) {
        forall t | 1 <= t <= inst.T ensures Binary(v.split(p).y(t)) && DemandRow(inst.items[p], v.split(p), t) {
          assert FacilityPeriodRows(inst, v, t) && ProductPeriodRows(inst, v, p, t);
        }
        forall s, t | 1 <= s <= t <= inst.T ensures ConnectRow(inst.items[p], v.split(p), s, t) {
          assert FacilityPeriodRows(inst, v, t) && ProductPeriodRows(inst, v, p, t) && ConnectRowAt(inst, v, p, s, t);
        }
      }
    }
  }
}
