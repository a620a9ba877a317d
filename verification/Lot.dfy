/** Multi-item lot sizing: the standard and the facility location formulation. */
module LotSizing {
  import opened Sums

  /** Set-up cost and time, variable cost, demand and holding cost of one product, keyed by period. */
  datatype Item = Item(f: int -> real, g: int -> real, c: int -> real, d: int -> real, h: int -> real)

  datatype Instance = Instance(T: nat, items: seq<Item>, M: int -> real)

  // ---------- standard formulation ----------

  /** Set-ups, production and inventory of one product. */
  datatype Plan = Plan(y: int -> real, x: int -> real, I: int -> real)

  datatype Standard = Standard(plan: int -> Plan)

  /** The inventory before the first period is the constant 0. */
  function Stock(v: Plan, t: int): real { if t == 0 then 0.0 else v.I(t) }

  predicate PlanDomain(v: Plan, t: int) { Binary(v.y(t)) && 0.0 <= v.x(t) && 0.0 <= v.I(t) }

  predicate FlowRow(item: Item, v: Plan, t: int) { Stock(v, t - 1) + v.x(t) == v.I(t) + item.d(t) }

  predicate SetupRow(item: Item, M: int -> real, v: Plan, t: int) { v.x(t) <= (M(t) - item.g(t)) * v.y(t) }

  predicate TightenRow(item: Item, v: Plan, t: int) { v.x(t) <= item.d(t) * v.y(t) + v.I(t) }

  function TimeUsed(inst: Instance, v: Standard, t: int, p: int): real {
    if 0 <= p < |inst.items| then inst.items[p].g(t) * v.plan(p).y(t) + v.plan(p).x(t) else 0.0
  }

  function TimesUsed(inst: Instance, v: Standard, t: int): int -> real { p => TimeUsed(inst, v, t, p) }

  predicate TimeRow(inst: Instance, v: Standard, t: int) {
    Sum(TimesUsed(inst, v, t), 0, |inst.items|) <= inst.M(t)
  }

  predicate PlanRows(item: Item, M: int -> real, v: Plan, t: int) {
    PlanDomain(v, t) && FlowRow(item, v, t) && SetupRow(item, M, v, t) && TightenRow(item, v, t)
  }

  ghost predicate StandardFeasible(inst: Instance, v: Standard) {
    && (forall p, t :: 0 <= p < |inst.items| && 1 <= t <= inst.T ==> PlanRows(inst.items[p], inst.M, v.plan(p), t))
    && (forall t :: 1 <= t <= inst.T ==> TimeRow(inst, v, t))
  }

  function PlanCost(item: Item, v: Plan, t: int): real {
    item.f(t) * v.y(t) + item.c(t) * v.x(t) + item.h(t) * v.I(t)
  }

  function StandardTerm(inst: Instance, v: Standard, t: int, p: int): real {
    if 0 <= p < |inst.items| then PlanCost(inst.items[p], v.plan(p), t) else 0.0
  }

  function StandardTerms(inst: Instance, v: Standard): (int, int) -> real { (t, p) => StandardTerm(inst, v, t, p) }

  function StandardCost(inst: Instance, v: Standard): real {
    Sum(RowSums(StandardTerms(inst, v), 0, |inst.items|), 1, inst.T + 1)
  }

  // ---------- facility location formulation ----------

  /** `X(s, t)` is what is produced in period `s` for the demand of period `t`. */
  datatype Split = Split(y: int -> real, X: (int, int) -> real)

  datatype Facility = Facility(split: int -> Split)

  predicate ConnectRow(item: Item, v: Split, s: int, t: int) {
    0.0 <= v.X(s, t) <= item.d(t) * v.y(s)
  }

  predicate DemandRow(item: Item, v: Split, t: int) {
    Sum(ColumnOf(v.X, t), 1, t + 1) == item.d(t)
  }

  function Shipped(inst: Instance, v: Facility, t: int, p: int): real {
    Sum(RowOf(v.split(p).X, t), t, inst.T + 1)
  }

  function SetupTime(inst: Instance, v: Facility, t: int, p: int): real {
    if 0 <= p < |inst.items| then inst.items[p].g(t) * v.split(p).y(t) else 0.0
  }

  function AllShipped(inst: Instance, v: Facility, t: int): int -> real { p => Shipped(inst, v, t, p) }

  function AllSetupTimes(inst: Instance, v: Facility, t: int): int -> real { p => SetupTime(inst, v, t, p) }

  predicate CapacityRow(inst: Instance, v: Facility, t: int) {
    Sum(AllShipped(inst, v, t), 0, |inst.items|) + Sum(AllSetupTimes(inst, v, t), 0, |inst.items|) <= inst.M(t)
  }

  ghost predicate SplitRows(item: Item, T: nat, v: Split) {
    && (forall t :: 1 <= t <= T ==> Binary(v.y(t)))
    && (forall t :: 1 <= t <= T ==> DemandRow(item, v, t))
    && (forall s, t :: 1 <= s <= t <= T ==> ConnectRow(item, v, s, t))
  }

  ghost predicate FacilityFeasible(inst: Instance, v: Facility) {
    && (forall p :: 0 <= p < |inst.items| ==> SplitRows(inst.items[p], inst.T, v.split(p)))
    && (forall t :: 1 <= t <= inst.T ==> CapacityRow(inst, v, t))
  }

  /** Variable cost plus holding cost from production in `s` to demand in `t`. */
  function UnitCost(item: Item, s: int, t: int): real { item.c(s) + Sum(item.h, s, t) }

  function SplitCost(item: Item, v: Split, s: int, t: int): real { UnitCost(item, s, t) * v.X(s, t) }

  function SplitCosts(item: Item, v: Split, t: int): int -> real { s => SplitCost(item, v, s, t) }

  function FacilitySetup(inst: Instance, v: Facility, t: int, p: int): real {
    if 0 <= p < |inst.items| then inst.items[p].f(t) * v.split(p).y(t) else 0.0
  }

  function FacilityFlow(inst: Instance, v: Facility, t: int, p: int): real {
    if 0 <= p < |inst.items| then Sum(SplitCosts(inst.items[p], v.split(p), t), 1, t + 1) else 0.0
  }

  function FacilitySetups(inst: Instance, v: Facility): (int, int) -> real { (t, p) => FacilitySetup(inst, v, t, p) }

  function FacilityFlows(inst: Instance, v: Facility): (int, int) -> real { (t, p) => FacilityFlow(inst, v, t, p) }

  function FacilityCost(inst: Instance, v: Facility): real {
    Sum(RowSums(FacilitySetups(inst, v), 0, |inst.items|), 1, inst.T + 1)
    + Sum(RowSums(FacilityFlows(inst, v), 0, |inst.items|), 1, inst.T + 1)
  }

  ghost predicate NonNegative(inst: Instance) {
    forall p, t :: 0 <= p < |inst.items| && 1 <= t <= inst.T ==>
      var item := inst.items[p];
      0.0 <= item.g(t) && 0.0 <= item.c(t) && 0.0 <= item.d(t) && 0.0 <= item.h(t)
  }
}
