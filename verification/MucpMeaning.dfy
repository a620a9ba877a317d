/** What the objective and the production rows of the unit commitment program say about whole schedules. */
module MucpMeaning {
  import opened Sums
  import opened Mucp

  // ---------- the objective, unit by unit ----------

  /** A fixed cost per period up, a cost per start-up, and a cost per amount produced. */
  function UnitTotal(unit: ProductionUnit, c: Column, maxTime: int): real {
    unit.fixedUptimeCost * Sum(c.x, 1, maxTime + 1) + unit.startupCost * Sum(c.u, 1, maxTime + 1)
    + unit.productionCost * Sum(c.p, 1, maxTime + 1)
  }

  function UnitTotalAt(units: seq<ProductionUnit>, s: Schedule, maxTime: int, j: int): real {
    if 1 <= j <= |units| then UnitTotal(units[j - 1], s.unit(j), maxTime) else 0.0
  }

  function UnitTotals(units: seq<ProductionUnit>, s: Schedule, maxTime: int): int -> real {
    j => UnitTotalAt(units, s, maxTime, j)
  }

  function TermAt(units: seq<ProductionUnit>, s: Schedule, t: int, j: int): real {
    if 1 <= j <= |units| then ColumnCost(units[j - 1], s.unit(j), t) else 0.0
  }

  function Terms(units: seq<ProductionUnit>, s: Schedule): (int, int) -> real { (t, j) => TermAt(units, s, t, j) }

  function ColumnCosts(unit: ProductionUnit, c: Column): int -> real { t => ColumnCost(unit, c, t) }

  function CostOf(rate: real, amount: int -> real): int -> real { t => rate * amount(t) }

  lemma {:induction false} CostSplits(unit: ProductionUnit, c: Column, t: int)
    ensures ColumnCosts(unit, c)(t) == CostOf(unit.fixedUptimeCost, c.x)(t) + CostOf(unit.startupCost, c.u)(t)
                                       + CostOf(unit.productionCost, c.p)(t)
  {
  }

  lemma {:induction false} SumOfThree(f: int -> real, g: int -> real, h: int -> real, all: int -> real,
                                      lo: int, hi: int)
    requires forall t :: lo <= t < hi ==> all(t) == f(t) + g(t) + h(t)
    ensures Sum(all, lo, hi) == Sum(f, lo, hi) + Sum(g, lo, hi) + Sum(h, lo, hi)
    decreases hi - lo
  {
    if lo < hi { SumOfThree(f, g, h, all, lo, hi - 1); }
  }

  lemma {:induction false} TotalSplits(unit: ProductionUnit, c: Column, maxTime: nat)
    ensures Sum(ColumnCosts(unit, c), 1, maxTime + 1)
            == Sum(CostOf(unit.fixedUptimeCost, c.x), 1, maxTime + 1)
               + Sum(CostOf(unit.startupCost, c.u), 1, maxTime + 1)
               + Sum(CostOf(unit.productionCost, c.p), 1, maxTime + 1)
  {
    var fixed, start := CostOf(unit.fixedUptimeCost, c.x), CostOf(unit.startupCost, c.u);
    var production, all := CostOf(unit.productionCost, c.p), ColumnCosts(unit, c);
    forall t | 1 <= t < maxTime + 1 ensures all(t) == fixed(t) + start(t) + production(t) { CostSplits(unit, c, t); }
    SumOfThree(fixed, start, production, all, 1, maxTime + 1);
  }

  lemma {:induction false} TotalOfUnit(unit: ProductionUnit, c: Column, maxTime: nat)
    ensures Sum(ColumnCosts(unit, c), 1, maxTime + 1) == UnitTotal(unit, c, maxTime)
  {
    TotalSplits(unit, c, maxTime);
    SumScaled(unit.fixedUptimeCost, c.x, CostOf(unit.fixedUptimeCost, c.x), 1, maxTime + 1);
    SumScaled(unit.startupCost, c.u, CostOf(unit.startupCost, c.u), 1, maxTime + 1);
    SumScaled(unit.productionCost, c.p, CostOf(unit.productionCost, c.p), 1, maxTime + 1);
  }

  lemma {:induction false} TotalOfColumn(units: seq<ProductionUnit>, s: Schedule, maxTime: nat, j: int)
    requires 1 <= j <= |units|
    ensures Sum(ColumnOf(Terms(units, s), j), 1, maxTime + 1) == UnitTotals(units, s, maxTime)(j)
  {
    SumCongruent(ColumnOf(Terms(units, s), j), ColumnCosts(units[j - 1], s.unit(j)), 1, maxTime + 1);
    TotalOfUnit(units[j - 1], s.unit(j), maxTime);
  }

  lemma {:induction false} TotalOfPeriod(units: seq<ProductionUnit>, s: Schedule, t: int)
    ensures PeriodCosts(units, s)(t) == Sum(RowOf(Terms(units, s), t), 1, |units| + 1)
  {
    SumCongruent(UnitCosts(units, s, t), RowOf(Terms(units, s), t), 1, |units| + 1);
  }

  /** The cost of a schedule is what its units cost over the whole horizon. */
  lemma {:induction false} CostUnitByUnit(inst: Instance, s: Schedule)
    ensures var units := Units(inst.groups);
            Cost(inst, s) == Sum(UnitTotals(units, s, inst.maxTime), 1, |units| + 1)
  {
    var units, T := Units(inst.groups), inst.maxTime;
    var n, terms := |units|, Terms(units, s);
    forall t | 1 <= t < T + 1 ensures PeriodCosts(units, s)(t) == RowSums(terms, 1, n + 1)(t) {
      TotalOfPeriod(units, s, t);
    }
    SumCongruent(PeriodCosts(units, s), RowSums(terms, 1, n + 1), 1, T + 1);
    SumExchanged(terms, 1, T + 1, 1, n + 1);
    forall j | 1 <= j < n + 1 ensures ColumnSums(terms, 1, T + 1)(j) == UnitTotals(units, s, T)(j) {
      TotalOfColumn(units, s, T, j);
    }
    SumCongruent(ColumnSums(terms, 1, T + 1), UnitTotals(units, s, T), 1, n + 1);
  }

  // ---------- which demands the units that are up can meet ----------

  /** The most that a unit can produce: its maximum while it is up, and nothing while it is down. */
  function CapacityAt(units: seq<ProductionUnit>, s: Schedule, t: int, j: int): real {
    if 1 <= j <= |units| && s.unit(j).x(t) == 1.0 then units[j - 1].maxProduction else 0.0
  }

  function Capacities(units: seq<ProductionUnit>, s: Schedule, t: int): int -> real { j => CapacityAt(units, s, t, j) }

  /** A unit that is up has amounts to choose from. */
  predicate HasRange(unit: ProductionUnit) { 0.0 <= unit.maxProduction && unit.minProduction <= unit.maxProduction }

  ghost predicate CanCover(inst: Instance, s: Schedule, t: int) {
    var units := Units(inst.groups);
    && (forall j :: 1 <= j <= |units| && s.unit(j).x(t) == 1.0 ==> HasRange(units[j - 1]))
    && Sum(Capacities(units, s, t), 1, |units| + 1) >= inst.demand(t)
  }

  ghost predicate CurvesHold(inst: Instance, s: Schedule) {
    var units := Units(inst.groups);
    forall j :: 1 <= j <= |units| ==> OnOffRows(units[j - 1], inst.maxTime, s.unit(j).x, s.unit(j).u)
  }

  ghost predicate SameCurves(s: Schedule, s': Schedule, n: nat) {
    forall j :: 1 <= j <= n ==> s'.unit(j).x == s.unit(j).x && s'.unit(j).u == s.unit(j).u
  }

  /** Every unit produces as much as it can. */
  function FullColumn(units: seq<ProductionUnit>, s: Schedule, j: int): Column {
    Column(s.unit(j).x, s.unit(j).u, t => CapacityAt(units, s, t, j))
  }

  function AtCapacity(units: seq<ProductionUnit>, s: Schedule): Schedule { Schedule(j => FullColumn(units, s, j)) }

  lemma {:induction false} FullColumnFeasible(inst: Instance, s: Schedule, j: int)
    requires CurvesHold(inst, s) && (forall t :: 1 <= t <= inst.maxTime ==> CanCover(inst, s, t))
    requires 1 <= j <= |Units(inst.groups)|
    ensures ColumnFeasible(Units(inst.groups)[j - 1], inst.maxTime, FullColumn(Units(inst.groups), s, j))
  {
    var units, unit := Units(inst.groups), Units(inst.groups)[j - 1];
    forall t | 1 <= t <= inst.maxTime ensures 0.0 <= CapacityAt(units, s, t, j)
                                              && ProductionRows(unit, FullColumn(units, s, j), t) {
      assert CanCover(inst, s, t) && Binary(s.unit(j).x(t));
    }
  }

  lemma {:induction false} AtCapacityFeasible(inst: Instance, s: Schedule)
    requires CurvesHold(inst, s) && forall t :: 1 <= t <= inst.maxTime ==> CanCover(inst, s, t)
    ensures Feasible(inst, AtCapacity(Units(inst.groups), s))
  {
    var units := Units(inst.groups);
    var full := AtCapacity(units, s);
    forall j | 1 <= j <= |units| ensures ColumnFeasible(units[j - 1], inst.maxTime, full.unit(j)) {
      FullColumnFeasible(inst, s, j);
    }
    forall t | 1 <= t <= inst.maxTime ensures DemandRow(inst, full, t) {
      assert CanCover(inst, s, t);
      SumCongruent(Capacities(units, s, t), ProductionIn(full, t), 1, |units| + 1);
    }
  }

  lemma {:induction false} ProducedInRange(unit: ProductionUnit, c: Column, t: int)
    requires ProductionRows(unit, c, t) && Binary(c.x(t)) && 0.0 <= c.p(t)
    ensures c.p(t) <= if c.x(t) == 1.0 then unit.maxProduction else 0.0
    ensures c.x(t) == 1.0 ==> HasRange(unit)
  {
  }

  lemma {:induction false} FeasibleCovers(inst: Instance, s: Schedule, s': Schedule, t: int)
    requires SameCurves(s, s', |Units(inst.groups)|) && Feasible(inst, s') && 1 <= t <= inst.maxTime
    ensures CanCover(inst, s, t)
  {
    var units := Units(inst.groups);
    forall j | 1 <= j < |units| + 1
      ensures ProductionIn(s', t)(j) <= Capacities(units, s, t)(j)
      ensures s.unit(j).x(t) == 1.0 ==> HasRange(units[j - 1])
    {
      assert ColumnFeasible(units[j - 1], inst.maxTime, s'.unit(j));
      ProducedInRange(units[j - 1], s'.unit(j), t);
    }
    SumMonotone(ProductionIn(s', t), Capacities(units, s, t), 1, |units| + 1);
    assert DemandRow(inst, s', t);
  }

  /** On/off curves have productions that make them feasible exactly when the units that are up can cover the demand. */
  lemma {:induction false} ProductionExtends(inst: Instance, s: Schedule)
    requires CurvesHold(inst, s)
    ensures (exists s' :: SameCurves(s, s', |Units(inst.groups)|) && Feasible(inst, s'))
            <==> forall t :: 1 <= t <= inst.maxTime ==> CanCover(inst, s, t)
  {
    if forall t :: 1 <= t <= inst.maxTime ==> CanCover(inst, s, t) {
      AtCapacityFeasible(inst, s);
      assert SameCurves(s, AtCapacity(Units(inst.groups), s), |Units(inst.groups)|);
    }
    forall s', t | SameCurves(s, s', |Units(inst.groups)|) && Feasible(inst, s') && 1 <= t <= inst.maxTime
      ensures CanCover(inst, s, t)
    {
      FeasibleCovers(inst, s, s', t);
    }
  }
}
