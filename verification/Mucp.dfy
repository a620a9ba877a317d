/**
 The min-up/min-down unit commitment program: data, decision variables, rows, and the
 sub-symmetry families that can be added to them.
 */
module Mucp {
  import opened Sums
  import opened Tails

  datatype ProductionUnit = ProductionUnit(
    minProduction: real,
    maxProduction: real,
    minUptime: int,
    minDowntime: int,
    fixedUptimeCost: real,
    startupCost: real,
    productionCost: real)

  /** `count` identical units, which get consecutive indices. */
  datatype Group = Group(unit: ProductionUnit, count: nat)

  datatype Instance = Instance(maxTime: nat, demand: int -> real, groups: seq<Group>)

  /** The variables of one unit, keyed by period: up, starts up, production. */
  datatype Column = Column(x: int -> real, u: int -> real, p: int -> real)

  /** The variables of all units, keyed by unit index. */
  datatype Schedule = Schedule(unit: int -> Column)

  // ---------- rows of one unit ----------

  predicate UptimeRow(unit: ProductionUnit, x: int -> real, u: int -> real, t: int) {
    Sum(u, t - unit.minUptime + 1, t + 1) <= x(t)
  }

  predicate DowntimeRow(unit: ProductionUnit, x: int -> real, u: int -> real, t: int) {
    Sum(u, t - unit.minDowntime + 1, t + 1) <= 1.0 - (if t == unit.minDowntime then 0.0 else x(t - unit.minDowntime))
  }

  predicate StartupRow(x: int -> real, u: int -> real, t: int) {
    u(t) >= x(t) - x(t - 1)
  }

  predicate ProductionRows(unit: ProductionUnit, c: Column, t: int) {
    unit.minProduction * c.x(t) <= c.p(t) <= unit.maxProduction * c.x(t)
  }

  ghost predicate OnOffRows(unit: ProductionUnit, maxTime: int, x: int -> real, u: int -> real) {
    && (forall t :: 1 <= t <= maxTime ==> Binary(x(t)) && Binary(u(t)))
    && (forall t :: unit.minUptime <= t <= maxTime ==> UptimeRow(unit, x, u, t))
    && (forall t :: unit.minDowntime <= t <= maxTime ==> DowntimeRow(unit, x, u, t))
    && (forall t :: 2 <= t <= maxTime ==> StartupRow(x, u, t))
  }

  ghost predicate ColumnFeasible(unit: ProductionUnit, maxTime: int, c: Column) {
    && OnOffRows(unit, maxTime, c.x, c.u)
    && (forall t :: 1 <= t <= maxTime ==> 0.0 <= c.p(t) && ProductionRows(unit, c, t))
  }

  // ---------- the whole program ----------

  /** The units in index order: the unit with index `j` is at position `j - 1`. */
  function Units(groups: seq<Group>): seq<ProductionUnit> {
    if groups == [] then []
    else
      var last := groups[|groups| - 1];
      Units(groups[..|groups| - 1]) + seq(last.count, _ => last.unit)
  }

  /** The index of the first unit of group `g`. */
  function FirstIndex(groups: seq<Group>, g: nat): int
    requires g <= |groups|
  {
    if g == 0 then 1 else FirstIndex(groups, g - 1) + groups[g - 1].count
  }

  /** `j` and `j + 1` are indices of identical units of group `g`. */
  predicate Neighbours(groups: seq<Group>, g: nat, j: int) {
    g < |groups| && FirstIndex(groups, g) <= j && j + 1 < FirstIndex(groups, g + 1)
  }

  function ProductionIn(s: Schedule, t: int): int -> real {
    j => s.unit(j).p(t)
  }

  predicate DemandRow(inst: Instance, s: Schedule, t: int) {
    Sum(ProductionIn(s, t), 1, |Units(inst.groups)| + 1) >= inst.demand(t)
  }

  ghost predicate Feasible(inst: Instance, s: Schedule) {
    var units := Units(inst.groups);
    && (forall j :: 1 <= j <= |units| ==> ColumnFeasible(units[j - 1], inst.maxTime, s.unit(j)))
    && (forall t :: 1 <= t <= inst.maxTime ==> DemandRow(inst, s, t))
  }

  /** The objective terms of one unit in period `t`. */
  function ColumnCost(unit: ProductionUnit, c: Column, t: int): real {
    unit.fixedUptimeCost * c.x(t) + unit.startupCost * c.u(t) + unit.productionCost * c.p(t)
  }

  function UnitCosts(units: seq<ProductionUnit>, s: Schedule, t: int): int -> real {
    j => if 1 <= j <= |units| then ColumnCost(units[j - 1], s.unit(j), t) else 0.0
  }

  function PeriodCosts(units: seq<ProductionUnit>, s: Schedule): int -> real {
    t => Sum(UnitCosts(units, s, t), 1, |units| + 1)
  }

  function Cost(inst: Instance, s: Schedule): real {
    Sum(PeriodCosts(Units(inst.groups), s), 1, inst.maxTime + 1)
  }

  // ---------- the sub-symmetry families, for neighbours a (index j1) and b (index j2 = j1 + 1) ----------

  predicate StartUpReadyRow(unit: ProductionUnit, a: Column, b: Column, t: int) {
    b.u(t) <= a.x(t - unit.minDowntime) + Sum(a.u, t - unit.minDowntime + 1, t) + a.x(t)
  }

  /** The shut-down indicator of a unit. */
  function ShutDown(c: Column, t: int): real {
    c.x(t - 1) - c.x(t) + c.u(t)
  }

  function ShutDowns(c: Column): int -> real {
    t => ShutDown(c, t)
  }

  predicate ShutDownReadyRow(unit: ProductionUnit, a: Column, b: Column, t: int) {
    ShutDown(a, t)
    <= 1.0 - b.x(t - unit.minUptime) + Sum(ShutDowns(b), t - unit.minUptime + 1, t) + 1.0 - b.x(t)
  }

  predicate AllFixed(x: int -> real, lo: int, hi: int, v: real) {
    forall t :: lo <= t < hi ==> x(t) == v
  }

  /** An orbisack on the tails with the second unit first, active once all the listed variables are fixed. */
  predicate OrbisackRow(a: Column, b: Column, t: int, maxTime: int, window: int, v: real) {
    AllFixed(a.x, t - window, t, v) && AllFixed(b.x, t - window, t, v) ==> LexAtLeast(b.x, a.x, t, maxTime)
  }

  predicate StartUpReadyAt(inst: Instance, s: Schedule, g: nat, j: int, t: int) {
    Neighbours(inst.groups, g, j) && t >= inst.groups[g].unit.minDowntime + 1
    ==> StartUpReadyRow(inst.groups[g].unit, s.unit(j), s.unit(j + 1), t)
  }

  predicate ShutDownReadyAt(inst: Instance, s: Schedule, g: nat, j: int, t: int) {
    Neighbours(inst.groups, g, j) && t >= inst.groups[g].unit.minUptime + 1
    ==> ShutDownReadyRow(inst.groups[g].unit, s.unit(j), s.unit(j + 1), t)
  }

  predicate OrbisacksAt(inst: Instance, s: Schedule, g: nat, j: int, t: int) {
    Neighbours(inst.groups, g, j) ==>
      var unit := inst.groups[g].unit;
      && (t >= unit.minDowntime + 1 ==> OrbisackRow(s.unit(j), s.unit(j + 1), t, inst.maxTime, unit.minDowntime, 0.0))
      && (t >= unit.minUptime + 1 ==> OrbisackRow(s.unit(j), s.unit(j + 1), t, inst.maxTime, unit.minUptime, 1.0))
  }

  ghost predicate StartUpReadyRows(inst: Instance, s: Schedule) {
    forall g: nat, j, t :: 1 <= t <= inst.maxTime ==> StartUpReadyAt(inst, s, g, j, t)
  }

  ghost predicate ShutDownReadyRows(inst: Instance, s: Schedule) {
    forall g: nat, j, t :: 1 <= t <= inst.maxTime ==> ShutDownReadyAt(inst, s, g, j, t)
  }

  ghost predicate OrbisackRows(inst: Instance, s: Schedule) {
    forall g: nat, j, t :: 1 <= t <= inst.maxTime ==> OrbisacksAt(inst, s, g, j, t)
  }

  /** What the constructor checks, and the lower bounds without which a row reads a variable outside the horizon. */
  predicate WindowsFit(unit: ProductionUnit, maxTime: int) {
    1 <= unit.minUptime <= maxTime && 0 <= unit.minDowntime <= maxTime
  }
}
