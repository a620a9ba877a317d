/** Both formulations have the same optimum. */
module LotSizingMeaning {
  import opened Sums
  import opened LotSizing
  import opened LotSizingSplits

  /** Production and holding cost of the plan with the given margins. */
  lemma FlowCostIsPlanCost(item: Item, v: Split, x: int -> real, T: nat)
    requires Margins(v.X, x, item.d, T)
    ensures Sum(FlowCosts(item, v), 1, T + 1)
         == Sum(Products(item.c, x), 1, T + 1) + Sum(Products(item.h, Nets(x, item.d)), 1, T + 1)
  {
    var lead, H := LeadCosts(item, v.X), Prefix(item.h);
    forall t | 1 <= t < T + 1
      ensures FlowCosts(item, v)(t) == Products(H, item.d)(t) + ColumnSums(lead, 1, T + 1)(t)
    {
      FlowCostOfPeriod(item, v, x, T, t);
    }
    SumPlus(Products(H, item.d), ColumnSums(lead, 1, T + 1), FlowCosts(item, v), 1, T + 1);
    LeadTotal(item, v.X, x, T);
    MarginsBalance(v.X, x, item.d, T);
    HoldingOfBalanced(item.h, x, item.d, T);
  }

  lemma FifoMargins(x: int -> real, d: int -> real, T: nat)
    requires Covers(x, d, T)
    ensures Margins(Fifo(x, d), Useful(x, d, T), d, T)
  {
    forall s | 1 <= s <= T ensures Sum(RowOf(Fifo(x, d), s), 1, T + 1) == Useful(x, d, T)(s) {
      FifoOverDemand(x, d, s, 1, T + 1);
      SumsGrow(x, s - 1, s);
    }
    forall t | 1 <= t <= T ensures Sum(ColumnOf(Fifo(x, d), t), 1, T + 1) == d(t) {
      FifoOverProduction(x, d, T, t);
      SumsGrow(d, t, T);
      SumsGrow(d, t - 1, t);
      assert Net(x, d, T) >= 0.0;
    }
    forall s, t | 1 <= t < s <= T ensures Fifo(x, d)(s, t) == 0.0 { FifoBounds(x, d, T, s, t); }
  }

  lemma SplitOfRows(item: Item, M: int -> real, T: nat, v: Plan)
    requires PlanFeasible(item, M, T, v) && forall t :: 1 <= t <= T ==> 0.0 <= item.d(t)
    ensures SplitRows(item, T, SplitOf(item, v))
  {
    var q := SplitOf(item, v);
    PlanCovers(item, M, T, v);
    FifoMargins(v.x, item.d, T);
    forall t | 1 <= t <= T ensures Binary(q.y(t)) { assert PlanRows(item, M, v, t); }
    forall t | 1 <= t <= T ensures DemandRow(item, q, t) { SplitOfDemand(item, T, v, t); }
    forall s, t | 1 <= s <= t <= T ensures ConnectRow(item, q, s, t) { SplitOfConnect(item, M, T, v, s, t); }
  }

  lemma SplitsOfFeasible(inst: Instance, v: Standard)
    requires NonNegative(inst) && StandardFeasible(inst, v)
    ensures FacilityFeasible(inst, SplitsOf(inst, v))
  {
    var w := SplitsOf(inst, v);
    forall p | 0 <= p < |inst.items| ensures SplitRows(inst.items[p], inst.T, w.split(p)) {
      assert w.split(p) == SplitOf(inst.items[p], v.plan(p));
      assert PlanFeasible(inst.items[p], inst.M, inst.T, v.plan(p));
      SplitOfRows(inst.items[p], inst.M, inst.T, v.plan(p));
    }
    forall t | 1 <= t <= inst.T ensures CapacityRow(inst, w, t) { SplitsOfCapacity(inst, v, t); }
  }

  /** One product: the plan made from a split costs the same. */
  lemma PlanOfCost(item: Item, T: nat, v: Split)
    requires SplitRows(item, T, v)
    ensures Sum(PlanCosts(item, PlanOf(item, T, v)), 1, T + 1)
         == Sum(Products(item.f, v.y), 1, T + 1) + Sum(FlowCosts(item, v), 1, T + 1)
  {
    var Z := Split(v.y, Triangle(v.X));
    TriangleMargins(item, T, v);
    FlowCostIsPlanCost(item, Z, Produced(T, v.X), T);
    forall t | 1 <= t < T + 1 ensures FlowCosts(item, Z)(t) == FlowCosts(item, v)(t) {
      SumCongruent(SplitCosts(item, Z, t), SplitCosts(item, v, t), 1, t + 1);
    }
    SumCongruent(FlowCosts(item, Z), FlowCosts(item, v), 1, T + 1);
    PlanCostParts(item, T, PlanOf(item, T, v));
  }

  /** One product: the first-in-first-out split costs no more than the plan. */
  lemma SplitOfCost(item: Item, M: int -> real, T: nat, v: Plan)
    requires PlanFeasible(item, M, T, v)
    requires forall t :: 1 <= t <= T ==> 0.0 <= item.d(t) && 0.0 <= item.c(t) && 0.0 <= item.h(t)
    ensures Sum(Products(item.f, v.y), 1, T + 1) + Sum(FlowCosts(item, SplitOf(item, v)), 1, T + 1)
         <= Sum(PlanCosts(item, v), 1, T + 1)
  {
    var x' := Useful(v.x, item.d, T);
    PlanCovers(item, M, T, v);
    FifoMargins(v.x, item.d, T);
    FlowCostIsPlanCost(item, SplitOf(item, v), x', T);
    PlanCostParts(item, T, v);
    forall t | 1 <= t < T + 1
      ensures Products(item.c, x')(t) <= Products(item.c, v.x)(t)
      ensures Products(item.h, Nets(x', item.d))(t) <= Products(item.h, v.I)(t)
    {
      SplitOfPeriodCost(item, M, T, v, t);
    }
    SumMonotone(Products(item.c, x'), Products(item.c, v.x), 1, T + 1);
    SumMonotone(Products(item.h, Nets(x', item.d)), Products(item.h, v.I), 1, T + 1);
  }

  // ---------- the two formulations have the same optimum ----------

  /** Every feasible split of demand is a production plan of the same cost. */
  lemma SplitBecomesPlan(inst: Instance, v: Facility)
    requires NonNegative(inst) && FacilityFeasible(inst, v)
    ensures StandardFeasible(inst, PlansOf(inst, v)) && StandardCost(inst, PlansOf(inst, v)) == FacilityCost(inst, v)
  {
    var w, n := PlansOf(inst, v), |inst.items|;
    PlansOfFeasible(inst, v);
    StandardCostByProduct(inst, w);
    FacilityCostByProduct(inst, v);
    forall p | 0 <= p < n ensures PlanTotals(inst, w)(p) == SplitTotals(inst, v)(p) {
      assert w.plan(p) == PlanOf(inst.items[p], inst.T, v.split(p));
      PlanOfCost(inst.items[p], inst.T, v.split(p));
    }
    SumCongruent(PlanTotals(inst, w), SplitTotals(inst, v), 0, n);
  }

  /** Every feasible production plan splits, first in first out, at no greater cost. */
  lemma PlanBecomesSplit(inst: Instance, v: Standard)
    requires NonNegative(inst) && StandardFeasible(inst, v)
    ensures FacilityFeasible(inst, SplitsOf(inst, v)) && FacilityCost(inst, SplitsOf(inst, v)) <= StandardCost(inst, v)
  {
    var w, n := SplitsOf(inst, v), |inst.items|;
    SplitsOfFeasible(inst, v);
    StandardCostByProduct(inst, v);
    FacilityCostByProduct(inst, w);
    forall p | 0 <= p < n ensures SplitTotals(inst, w)(p) <= PlanTotals(inst, v)(p) {
      assert w.split(p) == SplitOf(inst.items[p], v.plan(p));
      assert PlanFeasible(inst.items[p], inst.M, inst.T, v.plan(p));
      SplitOfCost(inst.items[p], inst.M, inst.T, v.plan(p));
    }
    SumMonotone(SplitTotals(inst, w), PlanTotals(inst, v), 0, n);
  }

  /** So an optimum of either formulation is the optimum of the other. */
  lemma SameOptimum(inst: Instance, plan: Standard, split: Facility)
    requires NonNegative(inst) && StandardFeasible(inst, plan) && FacilityFeasible(inst, split)
    requires forall v :: StandardFeasible(inst, v) ==> StandardCost(inst, plan) <= StandardCost(inst, v)
    requires forall v :: FacilityFeasible(inst, v) ==> FacilityCost(inst, split) <= FacilityCost(inst, v)
    ensures StandardCost(inst, plan) == FacilityCost(inst, split)
  {
    SplitBecomesPlan(inst, split);
    PlanBecomesSplit(inst, plan);
  }
}

/** The plan that a split of the demands adds up to, and the first-in-first-out split of a plan. */
module LotSizingSplits {
  import opened Sums
  import opened LotSizing

  // ---------- the cost identity of one product ----------

  /** Net inflow up to period `t`. */
  function Net(x: int -> real, d: int -> real, t: int): real { Sum(x, 1, t + 1) - Sum(d, 1, t + 1) }

  function Nets(x: int -> real, d: int -> real): int -> real { t => Net(x, d, t) }

  function ProductAt(a: int -> real, b: int -> real, t: int): real { a(t) * b(t) }

  function Products(a: int -> real, b: int -> real): int -> real { t => ProductAt(a, b, t) }

  /** Holding cost of one unit from period 1 to just before period `t`. */
  function Prefix(h: int -> real): int -> real { t => Sum(h, 1, t) }

  /** Net inflow up to `t`, weighted with all holding costs up to `t`. */
  function Weighted(h: int -> real, x: int -> real, d: int -> real, t: int): real { Sum(h, 1, t + 1) * Net(x, d, t) }

  function Weights(h: int -> real, x: int -> real, d: int -> real): int -> real { t => Weighted(h, x, d, t) }

  /** A plan's production and demand as the margins of one triangular matrix. */
  ghost predicate Margins(X: (int, int) -> real, x: int -> real, d: int -> real, T: nat) {
    && (forall s :: 1 <= s <= T ==> Sum(RowOf(X, s), 1, T + 1) == x(s))
    && (forall t :: 1 <= t <= T ==> Sum(ColumnOf(X, t), 1, T + 1) == d(t))
    && (forall s, t :: 1 <= t < s <= T ==> X(s, t) == 0.0)
  }

  lemma MarginsBalance(X: (int, int) -> real, x: int -> real, d: int -> real, T: nat)
    requires Margins(X, x, d, T)
    ensures Net(x, d, T) == 0.0
  {
    SumExchanged(X, 1, T + 1, 1, T + 1);
    SumCongruent(RowSums(X, 1, T + 1), x, 1, T + 1);
    SumCongruent(ColumnSums(X, 1, T + 1), d, 1, T + 1);
  }

  /** What production in period `s` costs beyond the prefix of the holding costs. */
  function Lead(item: Item, s: int): real { item.c(s) - Sum(item.h, 1, s) }

  function LeadCost(item: Item, X: (int, int) -> real, s: int, t: int): real { Lead(item, s) * X(s, t) }

  function LeadCosts(item: Item, X: (int, int) -> real): (int, int) -> real { (s, t) => LeadCost(item, X, s, t) }

  function HoldCost(item: Item, X: (int, int) -> real, s: int, t: int): real { Sum(item.h, 1, t) * X(s, t) }

  function HoldCosts(item: Item, X: (int, int) -> real, t: int): int -> real { s => HoldCost(item, X, s, t) }

  lemma SplitCostParts(item: Item, v: Split, s: int, t: int)
    requires 1 <= s <= t
    ensures SplitCost(item, v, s, t) == HoldCost(item, v.X, s, t) + LeadCost(item, v.X, s, t)
  {
    SumSplit(item.h, 1, s, t);
    var hold, lead := Sum(item.h, 1, t), Lead(item, s);
    assert UnitCost(item, s, t) == hold + lead;
    assert (hold + lead) * v.X(s, t) == hold * v.X(s, t) + lead * v.X(s, t);
  }

  lemma SplitCostsParts(item: Item, v: Split, t: int)
    ensures Sum(SplitCosts(item, v, t), 1, t + 1)
         == Sum(HoldCosts(item, v.X, t), 1, t + 1) + Sum(ColumnOf(LeadCosts(item, v.X), t), 1, t + 1)
  {
    var lead, hold := ColumnOf(LeadCosts(item, v.X), t), HoldCosts(item, v.X, t);
    forall s | 1 <= s < t + 1 ensures SplitCosts(item, v, t)(s) == hold(s) + lead(s) { SplitCostParts(item, v, s, t); }
    SumPlus(hold, lead, SplitCosts(item, v, t), 1, t + 1);
  }

  /** The flow cost of the demand of one period. */
  lemma FlowCostOfPeriod(item: Item, v: Split, x: int -> real, T: nat, t: int)
    requires Margins(v.X, x, item.d, T) && 1 <= t <= T
    ensures Sum(SplitCosts(item, v, t), 1, t + 1)
         == Products(Prefix(item.h), item.d)(t) + Sum(ColumnOf(LeadCosts(item, v.X), t), 1, T + 1)
  {
    SplitCostsParts(item, v, t);
    EarlyOnly(item, v.X, x, T, t);
    HoldTotal(item, v.X, T, t);
  }

  lemma HoldTotal(item: Item, X: (int, int) -> real, T: nat, t: int)
    ensures Sum(HoldCosts(item, X, t), 1, T + 1) == Sum(item.h, 1, t) * Sum(ColumnOf(X, t), 1, T + 1)
  {
    SumScaled(Sum(item.h, 1, t), ColumnOf(X, t), HoldCosts(item, X, t), 1, T + 1);
  }

  /** Nothing is produced after the period it is for. */
  lemma EarlyOnly(item: Item, X: (int, int) -> real, x: int -> real, T: nat, t: int)
    requires Margins(X, x, item.d, T) && 1 <= t <= T
    ensures Sum(HoldCosts(item, X, t), 1, t + 1) == Sum(HoldCosts(item, X, t), 1, T + 1)
    ensures Sum(ColumnOf(LeadCosts(item, X), t), 1, t + 1) == Sum(ColumnOf(LeadCosts(item, X), t), 1, T + 1)
  {
    forall s | t + 1 <= s < T + 1 ensures HoldCost(item, X, s, t) == 0.0 && LeadCost(item, X, s, t) == 0.0 {
      assert X(s, t) == 0.0;
    }
    SumExtended(HoldCosts(item, X, t), 1, t + 1, T + 1);
    SumExtended(ColumnOf(LeadCosts(item, X), t), 1, t + 1, T + 1);
  }

  function FlowCosts(item: Item, v: Split): int -> real { t => Sum(SplitCosts(item, v, t), 1, t + 1) }

  lemma LeadOfPeriod(item: Item, X: (int, int) -> real, x: int -> real, T: nat, s: int)
    requires Sum(RowOf(X, s), 1, T + 1) == x(s)
    ensures Products(item.c, x)(s) == RowSums(LeadCosts(item, X), 1, T + 1)(s) + Products(Prefix(item.h), x)(s)
  {
    SumScaled(Lead(item, s), RowOf(X, s), RowOf(LeadCosts(item, X), s), 1, T + 1);
    var lead, H := Lead(item, s), Sum(item.h, 1, s);
    assert (lead + H) * x(s) == lead * x(s) + H * x(s);
  }

  /** The lead costs, summed the other way. */
  lemma LeadTotal(item: Item, X: (int, int) -> real, x: int -> real, T: nat)
    requires Margins(X, x, item.d, T)
    ensures Sum(ColumnSums(LeadCosts(item, X), 1, T + 1), 1, T + 1)
         == Sum(Products(item.c, x), 1, T + 1) - Sum(Products(Prefix(item.h), x), 1, T + 1)
  {
    var lead, H := LeadCosts(item, X), Prefix(item.h);
    SumExchanged(lead, 1, T + 1, 1, T + 1);
    forall s | 1 <= s < T + 1 ensures Products(item.c, x)(s) == RowSums(lead, 1, T + 1)(s) + Products(H, x)(s) {
      LeadOfPeriod(item, X, x, T, s);
    }
    SumPlus(RowSums(lead, 1, T + 1), Products(H, x), Products(item.c, x), 1, T + 1);
  }

  /** Summation by parts of the holding cost. */
  lemma HoldingOfBalanced(h: int -> real, x: int -> real, d: int -> real, T: nat)
    requires Net(x, d, T) == 0.0
    ensures Sum(Products(h, Nets(x, d)), 1, T + 1)
         == Sum(Products(Prefix(h), d), 1, T + 1) - Sum(Products(Prefix(h), x), 1, T + 1)
  {
    forall t | 1 <= t <= T
      ensures Products(h, Nets(x, d))(t)
           == Weights(h, x, d)(t) - Weights(h, x, d)(t - 1) - Products(Prefix(h), x)(t) + Products(Prefix(h), d)(t)
    {
    }
    Telescope(Products(h, Nets(x, d)), Weights(h, x, d), Products(Prefix(h), x), Products(Prefix(h), d), T);
  }

  // ---------- from a split of demand to a production plan ----------

  function TriangleTerm(X: (int, int) -> real, s: int, t: int): real { if s <= t then X(s, t) else 0.0 }

  function Triangle(X: (int, int) -> real): (int, int) -> real { (s, t) => TriangleTerm(X, s, t) }

  /** Everything produced in one period, for whatever demand. */
  function Produced(T: nat, X: (int, int) -> real): int -> real { s => Sum(RowOf(Triangle(X), s), 1, T + 1) }

  function PlanOf(item: Item, T: nat, v: Split): Plan {
    Plan(v.y, Produced(T, v.X), Nets(Produced(T, v.X), item.d))
  }

  lemma ProducedIsShipped(T: nat, X: (int, int) -> real, s: int)
    requires 1 <= s <= T
    ensures Produced(T, X)(s) == Sum(RowOf(X, s), s, T + 1)
  {
    SumSplit(RowOf(Triangle(X), s), 1, s, T + 1);
    SumZero(RowOf(Triangle(X), s), 1, s);
    SumCongruent(RowOf(Triangle(X), s), RowOf(X, s), s, T + 1);
  }

  lemma TriangleMargins(item: Item, T: nat, v: Split)
    requires SplitRows(item, T, v)
    ensures Margins(Triangle(v.X), Produced(T, v.X), item.d, T)
  {
    var Z := Triangle(v.X);
    forall t | 1 <= t <= T ensures Sum(ColumnOf(Z, t), 1, T + 1) == item.d(t) {
      assert DemandRow(item, v, t);
      SumCongruent(ColumnOf(Z, t), ColumnOf(v.X, t), 1, t + 1);
      SumExtended(ColumnOf(Z, t), 1, t + 1, T + 1);
    }
  }

  lemma TriangleNonneg(item: Item, T: nat, v: Split, s: int, t: int)
    requires SplitRows(item, T, v) && 1 <= s <= T && 1 <= t <= T
    ensures 0.0 <= Triangle(v.X)(s, t)
  {
    if s <= t { assert ConnectRow(item, v, s, t); }
  }

  lemma ProducedCoversPrefix(item: Item, T: nat, v: Split, t: nat, s: int)
    requires SplitRows(item, T, v) && t <= T && 1 <= s <= T
    ensures RowSums(Triangle(v.X), 1, t + 1)(s) <= Produced(T, v.X)(s)
  {
    var row := RowOf(Triangle(v.X), s);
    SumSplit(row, 1, t + 1, T + 1);
    forall k | t + 1 <= k < T + 1 ensures 0.0 <= row(k) { TriangleNonneg(item, T, v, s, k); }
    SumNonneg(row, t + 1, T + 1);
  }

  /** What has been produced by period `t` covers the demand up to `t`. */
  lemma InventoryNonneg(item: Item, T: nat, v: Split, t: nat)
    requires SplitRows(item, T, v) && t <= T
    ensures 0.0 <= Net(Produced(T, v.X), item.d, t)
  {
    var Z := Triangle(v.X);
    TriangleMargins(item, T, v);
    forall s | 1 <= s < t + 1 ensures RowSums(Z, 1, t + 1)(s) <= Produced(T, v.X)(s) {
      ProducedCoversPrefix(item, T, v, t, s);
    }
    SumMonotone(RowSums(Z, 1, t + 1), Produced(T, v.X), 1, t + 1);
    SumExchanged(Z, 1, t + 1, 1, t + 1);
    forall k | 1 <= k < t + 1 ensures ColumnSums(Z, 1, t + 1)(k) == item.d(k) {
      SumExtended(ColumnOf(Z, k), 1, t + 1, T + 1);
    }
    SumCongruent(ColumnSums(Z, 1, t + 1), item.d, 1, t + 1);
  }

  lemma ProducedBounds(item: Item, T: nat, v: Split, s: int)
    requires SplitRows(item, T, v) && 1 <= s <= T
    ensures 0.0 <= Produced(T, v.X)(s) && (v.y(s) == 0.0 ==> Produced(T, v.X)(s) == 0.0)
  {
    ProducedIsShipped(T, v.X, s);
    forall t | s <= t < T + 1 ensures 0.0 <= v.X(s, t) && (v.y(s) == 0.0 ==> v.X(s, t) == 0.0) {
      assert ConnectRow(item, v, s, t);
    }
    SumNonneg(RowOf(v.X, s), s, T + 1);
    if v.y(s) == 0.0 { SumZero(RowOf(v.X, s), s, T + 1); }
  }

  /** All rows of a plan but the set-up row, which needs the shared capacity. */
  lemma PlanOfRows(item: Item, T: nat, v: Split, t: int)
    requires SplitRows(item, T, v) && 1 <= t <= T
    ensures var q := PlanOf(item, T, v); PlanDomain(q, t) && FlowRow(item, q, t) && TightenRow(item, q, t)
  {
    var q := PlanOf(item, T, v);
    InventoryNonneg(item, T, v, t);
    InventoryNonneg(item, T, v, t - 1);
    ProducedBounds(item, T, v, t);
    assert Net(q.x, item.d, t) == Net(q.x, item.d, t - 1) + q.x(t) - item.d(t);
    assert Net(q.x, item.d, 0) == 0.0;
  }

  function PlansOf(inst: Instance, v: Facility): Standard {
    Standard(p =>
      if 0 <= p < |inst.items| then PlanOf(inst.items[p], inst.T, v.split(p))
      else Plan(t => 0.0, t => 0.0, t => 0.0))
  }

  /** Time used by the plans is the capacity used by the splits. */
  lemma PlansOfTime(inst: Instance, v: Facility, t: int)
    requires 1 <= t <= inst.T && CapacityRow(inst, v, t)
    ensures TimeRow(inst, PlansOf(inst, v), t)
  {
    var w := PlansOf(inst, v);
    forall p | 0 <= p < |inst.items|
      ensures TimesUsed(inst, w, t)(p) == AllShipped(inst, v, t)(p) + AllSetupTimes(inst, v, t)(p) {
      assert w.plan(p) == PlanOf(inst.items[p], inst.T, v.split(p));
      ProducedIsShipped(inst.T, v.split(p).X, t);
    }
    SumPlus(AllShipped(inst, v, t), AllSetupTimes(inst, v, t), TimesUsed(inst, w, t), 0, |inst.items|);
  }

  lemma TimesNonneg(inst: Instance, v: Facility, t: int)
    requires NonNegative(inst) && FacilityFeasible(inst, v) && 1 <= t <= inst.T
    ensures forall q :: 0 <= q < |inst.items| ==> 0.0 <= TimesUsed(inst, PlansOf(inst, v), t)(q)
  {
    var w := PlansOf(inst, v);
    forall q | 0 <= q < |inst.items| ensures 0.0 <= TimesUsed(inst, w, t)(q) {
      assert w.plan(q) == PlanOf(inst.items[q], inst.T, v.split(q));
      PlanOfRows(inst.items[q], inst.T, v.split(q), t);
      assert 0.0 <= inst.items[q].g(t) * w.plan(q).y(t);
    }
  }

  /** The shared time row leaves every product the room that its set-up row asks for. */
  lemma PlansOfSetup(inst: Instance, v: Facility, p: int, t: int)
    requires NonNegative(inst) && FacilityFeasible(inst, v) && 0 <= p < |inst.items| && 1 <= t <= inst.T
    ensures SetupRow(inst.items[p], inst.M, PlanOf(inst.items[p], inst.T, v.split(p)), t)
  {
    var w, item, q := PlansOf(inst, v), inst.items[p], PlanOf(inst.items[p], inst.T, v.split(p));
    assert w.plan(p) == q;
    TimesNonneg(inst, v, t);
    TermAtMostSum(TimesUsed(inst, w, t), 0, |inst.items|, p);
    PlansOfTime(inst, v, t);
    assert item.g(t) * q.y(t) + q.x(t) <= inst.M(t);
    PlanOfRows(item, inst.T, v.split(p), t);
    ProducedBounds(item, inst.T, v.split(p), t);
  }

  lemma PlansOfFeasible(inst: Instance, v: Facility)
    requires NonNegative(inst) && FacilityFeasible(inst, v)
    ensures StandardFeasible(inst, PlansOf(inst, v))
  {
    var w := PlansOf(inst, v);
    forall t | 1 <= t <= inst.T ensures TimeRow(inst, w, t) { PlansOfTime(inst, v, t); }
    forall p, t | 0 <= p < |inst.items| && 1 <= t <= inst.T ensures PlanRows(inst.items[p], inst.M, w.plan(p), t) {
      assert w.plan(p) == PlanOf(inst.items[p], inst.T, v.split(p));
      PlanOfRows(inst.items[p], inst.T, v.split(p), t);
      PlansOfSetup(inst, v, p, t);
    }
  }

  // ---------- first in, first out ----------

  function Min(a: real, b: real): real { if a <= b then a else b }

  /** How much of the demand up to `t` is served by production up to `s`. */
  function Served(x: int -> real, d: int -> real, s: int, t: int): real { Min(Sum(x, 1, s + 1), Sum(d, 1, t + 1)) }

  function FifoTerm(x: int -> real, d: int -> real, s: int, t: int): real {
    Served(x, d, s, t) - Served(x, d, s - 1, t) - Served(x, d, s, t - 1) + Served(x, d, s - 1, t - 1)
  }

  function Fifo(x: int -> real, d: int -> real): (int, int) -> real { (s, t) => FifoTerm(x, d, s, t) }

  /** Summed over production periods, the split telescopes. */
  lemma {:induction false} FifoOverProduction(x: int -> real, d: int -> real, n: nat, t: int)
    ensures Sum(ColumnOf(Fifo(x, d), t), 1, n + 1)
         == Served(x, d, n, t) - Served(x, d, 0, t) - Served(x, d, n, t - 1) + Served(x, d, 0, t - 1)
  {
    if n > 0 { FifoOverProduction(x, d, n - 1, t); }
  }

  lemma {:induction false} FifoOverDemand(x: int -> real, d: int -> real, s: int, lo: int, hi: int)
    requires lo <= hi
    ensures Sum(RowOf(Fifo(x, d), s), lo, hi)
         == Served(x, d, s, hi - 1) - Served(x, d, s - 1, hi - 1) - Served(x, d, s, lo - 1)
            + Served(x, d, s - 1, lo - 1)
    decreases hi - lo
  {
    if lo < hi { FifoOverDemand(x, d, s, lo, hi - 1); }
  }

  ghost predicate Covers(x: int -> real, d: int -> real, T: nat) {
    && (forall t :: 1 <= t <= T ==> 0.0 <= x(t) && 0.0 <= d(t))
    && (forall t :: 0 <= t <= T ==> Net(x, d, t) >= 0.0)
  }

  lemma FifoBounds(x: int -> real, d: int -> real, T: nat, s: int, t: int)
    requires Covers(x, d, T) && 1 <= s <= T && 1 <= t <= T
    ensures 0.0 <= Fifo(x, d)(s, t) <= x(s) && Fifo(x, d)(s, t) <= d(t)
    ensures t < s ==> Fifo(x, d)(s, t) == 0.0
  {
    assert Sum(x, 1, s + 1) == Sum(x, 1, s) + x(s);
    assert Sum(d, 1, t + 1) == Sum(d, 1, t) + d(t);
    if t < s {
      SumsGrow(x, t, s - 1);
      assert Net(x, d, t) >= 0.0;
    }
  }

  /** Production that serves some demand within the horizon. */
  function Useful(x: int -> real, d: int -> real, T: nat): int -> real {
    s => Served(x, d, s, T) - Served(x, d, s - 1, T)
  }

  ghost predicate PlanFeasible(item: Item, M: int -> real, T: nat, v: Plan) {
    forall t :: 1 <= t <= T ==> PlanRows(item, M, v, t)
  }

  /** The flow rows make the inventory the net inflow. */
  lemma {:induction false} StockIsNet(item: Item, M: int -> real, T: nat, v: Plan, t: nat)
    requires PlanFeasible(item, M, T, v) && t <= T
    ensures Stock(v, t) == Net(v.x, item.d, t) && Stock(v, t) >= 0.0
  {
    if t > 0 {
      StockIsNet(item, M, T, v, t - 1);
      assert PlanRows(item, M, v, t);
    }
  }

  lemma PlanCovers(item: Item, M: int -> real, T: nat, v: Plan)
    requires PlanFeasible(item, M, T, v) && forall t :: 1 <= t <= T ==> 0.0 <= item.d(t)
    ensures Covers(v.x, item.d, T)
  {
    forall t: nat | t <= T ensures Net(v.x, item.d, t) >= 0.0 { StockIsNet(item, M, T, v, t); }
    forall t | 1 <= t <= T ensures 0.0 <= v.x(t) { assert PlanRows(item, M, v, t); }
  }

  function SplitOf(item: Item, v: Plan): Split { Split(v.y, Fifo(v.x, item.d)) }

  lemma SplitOfConnect(item: Item, M: int -> real, T: nat, v: Plan, s: int, t: int)
    requires PlanRows(item, M, v, s) && Covers(v.x, item.d, T) && 1 <= s <= t <= T
    ensures ConnectRow(item, SplitOf(item, v), s, t)
  {
    FifoBounds(v.x, item.d, T, s, t);
    if v.y(s) == 0.0 { assert v.x(s) <= 0.0; }
  }

  lemma SplitOfDemand(item: Item, T: nat, v: Plan, t: int)
    requires Margins(Fifo(v.x, item.d), Useful(v.x, item.d, T), item.d, T) && 1 <= t <= T
    ensures DemandRow(item, SplitOf(item, v), t)
  {
    SumExtended(ColumnOf(Fifo(v.x, item.d), t), 1, t + 1, T + 1);
  }

  /** No more is shipped from a period than it produces. */
  lemma ShippedAtMostProduced(item: Item, M: int -> real, T: nat, v: Plan, t: int)
    requires PlanFeasible(item, M, T, v) && (forall t :: 1 <= t <= T ==> 0.0 <= item.d(t)) && 1 <= t <= T
    ensures Sum(RowOf(SplitOf(item, v).X, t), t, T + 1) <= v.x(t)
  {
    PlanCovers(item, M, T, v);
    FifoOverDemand(v.x, item.d, t, t, T + 1);
    assert Net(v.x, item.d, t - 1) >= 0.0;
    assert Sum(v.x, 1, t + 1) == Sum(v.x, 1, t) + v.x(t);
  }

  function SplitsOf(inst: Instance, v: Standard): Facility {
    Facility(p => if 0 <= p < |inst.items| then SplitOf(inst.items[p], v.plan(p)) else Split(t => 0.0, (s, t) => 0.0))
  }

  function CapacityUsed(inst: Instance, v: Facility, t: int): int -> real {
    p => Shipped(inst, v, t, p) + SetupTime(inst, v, t, p)
  }

  lemma SplitUsesNoMore(inst: Instance, v: Standard, t: int, p: int)
    requires NonNegative(inst) && StandardFeasible(inst, v) && 1 <= t <= inst.T && 0 <= p < |inst.items|
    ensures Shipped(inst, SplitsOf(inst, v), t, p) <= v.plan(p).x(t)
    ensures SetupTime(inst, SplitsOf(inst, v), t, p) == inst.items[p].g(t) * v.plan(p).y(t)
  {
    var item, w := inst.items[p], SplitsOf(inst, v);
    assert w.split(p) == SplitOf(item, v.plan(p));
    assert PlanFeasible(item, inst.M, inst.T, v.plan(p));
    ShippedAtMostProduced(item, inst.M, inst.T, v.plan(p), t);
  }

  lemma SplitsOfCapacity(inst: Instance, v: Standard, t: int)
    requires NonNegative(inst) && StandardFeasible(inst, v) && 1 <= t <= inst.T
    ensures CapacityRow(inst, SplitsOf(inst, v), t)
  {
    var w, n := SplitsOf(inst, v), |inst.items|;
    forall p | 0 <= p < n ensures CapacityUsed(inst, w, t)(p) <= TimesUsed(inst, v, t)(p) {
      SplitUsesNoMore(inst, v, t, p);
      var g, y, x := inst.items[p].g(t), v.plan(p).y(t), v.plan(p).x(t);
      assert TimesUsed(inst, v, t)(p) == g * y + x;
      assert SetupTime(inst, w, t, p) == g * y;
      assert Shipped(inst, w, t, p) <= x;
      assert CapacityUsed(inst, w, t)(p) == Shipped(inst, w, t, p) + SetupTime(inst, w, t, p);
    }
    SumPlus(AllShipped(inst, w, t), AllSetupTimes(inst, w, t), CapacityUsed(inst, w, t), 0, n);
    SumMonotone(CapacityUsed(inst, w, t), TimesUsed(inst, v, t), 0, n);
    assert TimeRow(inst, v, t);
  }

  // ---------- costs ----------

  function PlanCosts(item: Item, v: Plan): int -> real { t => PlanCost(item, v, t) }

  lemma PlanCostParts(item: Item, T: nat, v: Plan)
    ensures Sum(PlanCosts(item, v), 1, T + 1)
         == Sum(Products(item.f, v.y), 1, T + 1) + Sum(Products(item.c, v.x), 1, T + 1)
            + Sum(Products(item.h, v.I), 1, T + 1)
  {
    var two := (t: int) => ProductAt(item.f, v.y, t) + ProductAt(item.c, v.x, t);
    SumPlus(Products(item.f, v.y), Products(item.c, v.x), two, 1, T + 1);
    SumPlus(two, Products(item.h, v.I), PlanCosts(item, v), 1, T + 1);
  }

  lemma {:induction false} UsefulNet(x: int -> real, d: int -> real, T: nat, t: nat)
    requires Covers(x, d, T) && t <= T
    ensures Net(Useful(x, d, T), d, t) == Served(x, d, t, T) - Sum(d, 1, t + 1)
  {
    if t == 0 {
      SumsGrow(d, 0, T);
    } else {
      UsefulNet(x, d, T, t - 1);
    }
  }

  lemma SplitOfPeriodCost(item: Item, M: int -> real, T: nat, v: Plan, t: int)
    requires PlanFeasible(item, M, T, v) && Covers(v.x, item.d, T) && 1 <= t <= T
    requires 0.0 <= item.c(t) && 0.0 <= item.h(t)
    ensures Products(item.c, Useful(v.x, item.d, T))(t) <= Products(item.c, v.x)(t)
    ensures Products(item.h, Nets(Useful(v.x, item.d, T), item.d))(t) <= Products(item.h, v.I)(t)
  {
    UsefulIsLess(item, M, T, v, t);
  }

  lemma UsefulIsLess(item: Item, M: int -> real, T: nat, v: Plan, t: int)
    requires PlanFeasible(item, M, T, v) && Covers(v.x, item.d, T) && 1 <= t <= T
    ensures Useful(v.x, item.d, T)(t) <= v.x(t)
    ensures Net(Useful(v.x, item.d, T), item.d, t) <= v.I(t)
  {
    assert Sum(v.x, 1, t + 1) == Sum(v.x, 1, t) + v.x(t);
    UsefulNet(v.x, item.d, T, t);
    StockIsNet(item, M, T, v, t);
  }

  function PlanTotal(inst: Instance, v: Standard, p: int): real {
    if 0 <= p < |inst.items| then Sum(PlanCosts(inst.items[p], v.plan(p)), 1, inst.T + 1) else 0.0
  }

  function SplitTotal(inst: Instance, v: Facility, p: int): real {
    if 0 <= p < |inst.items| then
      Sum(Products(inst.items[p].f, v.split(p).y), 1, inst.T + 1)
        + Sum(FlowCosts(inst.items[p], v.split(p)), 1, inst.T + 1)
    else 0.0
  }

  function PlanTotals(inst: Instance, v: Standard): int -> real { p => PlanTotal(inst, v, p) }

  function SplitTotals(inst: Instance, v: Facility): int -> real { p => SplitTotal(inst, v, p) }

  /** The objectives, summed product by product. */
  lemma StandardCostByProduct(inst: Instance, v: Standard)
    ensures StandardCost(inst, v) == Sum(PlanTotals(inst, v), 0, |inst.items|)
  {
    var f, n := StandardTerms(inst, v), |inst.items|;
    SumExchanged(f, 1, inst.T + 1, 0, n);
    forall p | 0 <= p < n ensures ColumnSums(f, 1, inst.T + 1)(p) == PlanTotals(inst, v)(p) {
      SumCongruent(ColumnOf(f, p), PlanCosts(inst.items[p], v.plan(p)), 1, inst.T + 1);
    }
    SumCongruent(ColumnSums(f, 1, inst.T + 1), PlanTotals(inst, v), 0, n);
  }

  lemma FacilityCostByProduct(inst: Instance, v: Facility)
    ensures FacilityCost(inst, v) == Sum(SplitTotals(inst, v), 0, |inst.items|)
  {
    var f, g, n := FacilitySetups(inst, v), FacilityFlows(inst, v), |inst.items|;
    SumExchanged(f, 1, inst.T + 1, 0, n);
    SumExchanged(g, 1, inst.T + 1, 0, n);
    forall p | 0 <= p < n
      ensures SplitTotals(inst, v)(p) == ColumnSums(f, 1, inst.T + 1)(p) + ColumnSums(g, 1, inst.T + 1)(p)
    {
      SumCongruent(ColumnOf(f, p), Products(inst.items[p].f, v.split(p).y), 1, inst.T + 1);
      SumCongruent(ColumnOf(g, p), FlowCosts(inst.items[p], v.split(p)), 1, inst.T + 1);
    }
    SumPlus(ColumnSums(f, 1, inst.T + 1), ColumnSums(g, 1, inst.T + 1), SplitTotals(inst, v), 0, n);
  }
}
