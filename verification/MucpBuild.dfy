/** The methods that write the unit commitment program, proved against the predicates of `Mucp`. */
module MucpBuild {
  import opened Sums
  import opened Scip
  import opened Options
  import opened Mucp
  import opened MucpSymmetry
  import opened MucpTrades

  // ---------- what each loop writes ----------

  predicate XDomain(s: Schedule, t: int, j: int) { Binary(s.unit(j).x(t)) }

  predicate UDomain(s: Schedule, t: int, j: int) { Binary(s.unit(j).u(t)) }

  predicate PDomain(s: Schedule, t: int, j: int) { 0.0 <= s.unit(j).p(t) }

  function FixedTerm(units: seq<ProductionUnit>, s: Schedule, t: int, j: int): real {
    if 1 <= j <= |units| then units[j - 1].fixedUptimeCost * s.unit(j).x(t) else 0.0
  }

  function StartTerm(units: seq<ProductionUnit>, s: Schedule, t: int, j: int): real {
    if 1 <= j <= |units| then units[j - 1].startupCost * s.unit(j).u(t) else 0.0
  }

  function ProductionTerm(units: seq<ProductionUnit>, s: Schedule, t: int, j: int): real {
    if 1 <= j <= |units| then units[j - 1].productionCost * s.unit(j).p(t) else 0.0
  }

  type Term = (seq<ProductionUnit>, Schedule, int, int) -> real

  function RowOfTerms(term: Term, units: seq<ProductionUnit>, s: Schedule, t: int): int -> real {
    j => term(units, s, t, j)
  }

  function RowTotals(term: Term, units: seq<ProductionUnit>, s: Schedule): int -> real {
    t => Sum(RowOfTerms(term, units, s, t), 1, |units| + 1)
  }

  /** The objective of one variable family, in the order the variables are created. */
  function FamilyCost(term: Term, units: seq<ProductionUnit>, s: Schedule, maxTime: int): real {
    Sum(RowTotals(term, units, s), 1, maxTime + 1)
  }

  ghost predicate DomainUpTo(domain: (Schedule, int, int) -> bool, s: Schedule, n: int, t: int, j: int) {
    && (forall t', j' :: 1 <= t' < t && 1 <= j' <= n ==> domain(s, t', j'))
    && (forall j' :: 1 <= j' < j ==> domain(s, t, j'))
  }

  ghost predicate UnitRows(unit: ProductionUnit, maxTime: int, c: Column) {
    && (forall t :: unit.minUptime <= t <= maxTime ==> UptimeRow(unit, c.x, c.u, t))
    && (forall t :: unit.minDowntime <= t <= maxTime ==> DowntimeRow(unit, c.x, c.u, t))
    && (forall t :: 2 <= t <= maxTime ==> StartupRow(c.x, c.u, t))
    && (forall t :: 1 <= t <= maxTime ==> ProductionRows(unit, c, t))
  }

  /** One comprehension that creates a variable per period and unit. */
  method AddFamily(model: Model<Schedule>, units: seq<ProductionUnit>, maxTime: nat,
                   domain: (Schedule, int, int) -> bool, term: Term)
    modifies model
    ensures forall s :: Holds(model.rows, s) <==>
              old(Holds(model.rows, s)) && DomainUpTo(domain, s, |units|, maxTime + 1, 1)
    ensures forall s :: model.objective(s) == old(model.objective(s)) + FamilyCost(term, units, s, maxTime)
  {
    var n := |units|;
    assert forall s :: FamilyCost(term, units, s, 0) == 0.0;
    for t := 1 to maxTime + 1
      invariant forall s :: Holds(model.rows, s) <==> old(Holds(model.rows, s)) && DomainUpTo(domain, s, n, t, 1)
      invariant forall s :: model.objective(s) == old(model.objective(s)) + FamilyCost(term, units, s, t - 1)
    {
      for j := 1 to n + 1
        invariant forall s :: Holds(model.rows, s) <==> old(Holds(model.rows, s)) && DomainUpTo(domain, s, n, t, j)
        invariant forall s :: model.objective(s) == old(model.objective(s))
                    + FamilyCost(term, units, s, t - 1) + Sum(RowOfTerms(term, units, s, t), 1, j)
      {
        model.AddVar(s => domain(s, t, j), s => term(units, s, t, j));
      }
    }
  }

  /** A comprehension that adds one row per period. */
  method AddForPeriods(model: Model<Schedule>, first: nat, maxTime: nat, row: (Schedule, int) -> bool)
    requires first <= maxTime + 1
    modifies model
    ensures forall s :: Holds(model.rows, s) <==>
            old(Holds(model.rows, s)) && forall t :: first <= t <= maxTime ==> row(s, t)
    ensures model.objective == old(model.objective)
  {
    for t := first to maxTime + 1
      invariant forall s :: Holds(model.rows, s) <==>
                old(Holds(model.rows, s)) && forall k :: first <= k < t ==> row(s, k)
      invariant model.objective == old(model.objective)
    {
      model.AddCons((s: Schedule) => row(s, t));
    }
  }

  predicate AtLeastMinimum(unit: ProductionUnit, c: Column, t: int) { unit.minProduction * c.x(t) <= c.p(t) }

  predicate AtMostMaximum(unit: ProductionUnit, c: Column, t: int) { c.p(t) <= unit.maxProduction * c.x(t) }

  method AddProductionRows(model: Model<Schedule>, unit: ProductionUnit, j: int, maxTime: nat)
    modifies model
    ensures forall s :: Holds(model.rows, s) <==>
              old(Holds(model.rows, s)) && forall t :: 1 <= t <= maxTime ==> ProductionRows(unit, s.unit(j), t)
    ensures model.objective == old(model.objective)
  {
    for t := 1 to maxTime + 1
      invariant forall s :: Holds(model.rows, s) <==>
                  old(Holds(model.rows, s)) && (forall k :: 1 <= k < t ==> ProductionRows(unit, s.unit(j), k))
      invariant model.objective == old(model.objective)
    {
      model.AddCons((s: Schedule) => AtLeastMinimum(unit, s.unit(j), t));
      model.AddCons((s: Schedule) => AtMostMaximum(unit, s.unit(j), t));
      assert forall s: Schedule :: ProductionRows(unit, s.unit(j), t) <==>
               AtLeastMinimum(unit, s.unit(j), t) && AtMostMaximum(unit, s.unit(j), t);
    }
  }

  /** The rows of one unit, as written by the body of the loop over units. */
  method AddUnitRows(model: Model<Schedule>, unit: ProductionUnit, j: int, maxTime: nat)
    requires WindowsFit(unit, maxTime)
    modifies model
    ensures forall s :: Holds(model.rows, s) <==> old(Holds(model.rows, s)) && UnitRows(unit, maxTime, s.unit(j))
    ensures model.objective == old(model.objective)
  {
    var up := (s: Schedule, t: int) => UptimeRow(unit, s.unit(j).x, s.unit(j).u, t);
    var down := (s: Schedule, t: int) => DowntimeRow(unit, s.unit(j).x, s.unit(j).u, t);
    var start := (s: Schedule, t: int) => StartupRow(s.unit(j).x, s.unit(j).u, t);
    AddForPeriods(model, unit.minUptime, maxTime, up);
    AddForPeriods(model, unit.minDowntime, maxTime, down);
    AddForPeriods(model, 2, maxTime, start);
    AddProductionRows(model, unit, j, maxTime);
    assert forall s, t :: up(s, t) <==> UptimeRow(unit, s.unit(j).x, s.unit(j).u, t);
    assert forall s, t :: down(s, t) <==> DowntimeRow(unit, s.unit(j).x, s.unit(j).u, t);
    assert forall s, t :: start(s, t) <==> StartupRow(s.unit(j).x, s.unit(j).u, t);
  }

  /** The three families together cost what the objective of the program says. */
  lemma FamiliesMakeCost(inst: Instance, s: Schedule)
    ensures var units := Units(inst.groups);
            FamilyCost(FixedTerm, units, s, inst.maxTime) + FamilyCost(StartTerm, units, s, inst.maxTime)
            + FamilyCost(ProductionTerm, units, s, inst.maxTime) == Cost(inst, s)
  {
    var units, n := Units(inst.groups), |Units(inst.groups)|;
    var fixed, start, production :=
      RowTotals(FixedTerm, units, s), RowTotals(StartTerm, units, s), RowTotals(ProductionTerm, units, s);
    var two := (t: int) => fixed(t) + start(t);
    forall t ensures PeriodCosts(units, s)(t) == two(t) + production(t) {
      PeriodSplits(units, s, t);
    }
    SumPlus(fixed, start, two, 1, inst.maxTime + 1);
    SumPlus(two, production, PeriodCosts(units, s), 1, inst.maxTime + 1);
  }

  lemma {:induction false} PeriodSplits(units: seq<ProductionUnit>, s: Schedule, t: int)
    ensures PeriodCosts(units, s)(t)
         == RowTotals(FixedTerm, units, s)(t) + RowTotals(StartTerm, units, s)(t)
            + RowTotals(ProductionTerm, units, s)(t)
  {
    var n, costs := |units|, UnitCosts(units, s, t);
    var fixed, start := RowOfTerms(FixedTerm, units, s, t), RowOfTerms(StartTerm, units, s, t);
    var production, both := RowOfTerms(ProductionTerm, units, s, t), (j: int) => fixed(j) + start(j);
    forall j | 1 <= j < n + 1 ensures costs(j) == both(j) + production(j) {
      assert costs(j) == ColumnCost(units[j - 1], s.unit(j), t);
      assert fixed(j) == FixedTerm(units, s, t, j) && start(j) == StartTerm(units, s, t, j);
    }
    SumPlus(fixed, start, both, 1, n + 1);
    SumPlus(both, production, costs, 1, n + 1);
  }

  /** The two ways of handling the sub-symmetries; each ready-family has a flag. */
  datatype Family = ReadyInequalities(startUp: bool, shutDown: bool) | ActivatedOrbisacks

  predicate FamilyRowsAt(inst: Instance, s: Schedule, f: Family, g: nat, j: int, t: int) {
    match f
    case ReadyInequalities(startUp, shutDown) =>
      (startUp ==> StartUpReadyAt(inst, s, g, j, t)) && (shutDown ==> ShutDownReadyAt(inst, s, g, j, t))
    case ActivatedOrbisacks => OrbisacksAt(inst, s, g, j, t)
  }

  /** The rows of everything the loops visit before period `t`, and in it before group `g`. */
  ghost predicate FamilyUpTo(inst: Instance, s: Schedule, f: Family, t: int) {
    forall g: nat, j, t' :: 1 <= t' < t ==> FamilyRowsAt(inst, s, f, g, j, t')
  }

  ghost predicate GroupsUpTo(inst: Instance, s: Schedule, f: Family, g: nat, t: int) {
    forall g': nat, j :: g' < g ==> FamilyRowsAt(inst, s, f, g', j, t)
  }

  /** Beyond the last group there are no neighbours, and so no rows. */
  lemma NextPeriod(inst: Instance, s: Schedule, f: Family, t: int)
    requires 1 <= t
    ensures FamilyUpTo(inst, s, f, t + 1) <==> FamilyUpTo(inst, s, f, t) && GroupsUpTo(inst, s, f, |inst.groups|, t)
  {
    if FamilyUpTo(inst, s, f, t) && GroupsUpTo(inst, s, f, |inst.groups|, t) {
      forall g: nat, j, t' | 1 <= t' < t + 1 ensures FamilyRowsAt(inst, s, f, g, j, t') { }
    }
  }

  class MucpBasicModel {
    const inst: Instance
    var scip: Model<Schedule>

    /** The checks of the constructor pass. */
    constructor Checked(inst: Instance)
      ensures this.inst == inst && fresh(scip)
    {
      this.inst := inst;
      scip := new Model();
    }

    /** The constructor raises an error when a minimum time does not fit the horizon. */
    static method Create(inst: Instance) returns (r: Option<MucpBasicModel>)
      ensures r.Some? <==> forall g :: 0 <= g < |inst.groups| ==>
                && inst.groups[g].unit.minUptime <= inst.maxTime
                && inst.groups[g].unit.minDowntime <= inst.maxTime
      ensures r.Some? ==> fresh(r.value) && r.value.inst == inst
    {
      if forall g :: 0 <= g < |inst.groups| ==>
           && inst.groups[g].unit.minUptime <= inst.maxTime
           && inst.groups[g].unit.minDowntime <= inst.maxTime {
        var m := new MucpBasicModel.Checked(inst);
        r := Some(m);
      } else {
        r := None;
      }
    }

    /** The generator of numbered units. */
    method NumberedUnits() returns (units: seq<(int, ProductionUnit)>)
      ensures |units| == |Units(inst.groups)|
      ensures forall k :: 0 <= k < |units| ==> units[k] == (k + 1, Units(inst.groups)[k])
    {
      units := [];
      var index := 1;
      for g := 0 to |inst.groups|
        invariant index == |units| + 1 && |units| == |Units(inst.groups[..g])|
        invariant forall k :: 0 <= k < |units| ==> units[k] == (k + 1, Units(inst.groups[..g])[k])
      {
        ghost var before := units;
        for i := 0 to inst.groups[g].count
          invariant index == |units| + 1 && |units| == |before| + i && before <= units
          invariant forall k :: |before| <= k < |units| ==> units[k] == (k + 1, inst.groups[g].unit)
        {
          units := units + [(index, inst.groups[g].unit)];
          index := index + 1;
        }
        assert inst.groups[..g + 1][..g] == inst.groups[..g];
      }
      assert inst.groups[..|inst.groups|] == inst.groups;
    }

    /** The rows say exactly that a schedule is feasible, and the objective is its cost. */
    method Build()
      requires forall g :: 0 <= g < |inst.groups| ==> WindowsFit(inst.groups[g].unit, inst.maxTime)
      modifies this
      ensures fresh(scip)
      ensures forall s :: Holds(scip.rows, s) <==> Feasible(inst, s)
      ensures forall s :: scip.objective(s) == Cost(inst, s)
    {
      var model := new Model<Schedule>();
      var numbered := NumberedUnits();
      var units := seq(|numbered|, k requires 0 <= k < |numbered| => numbered[k].1);
      assert units == Units(inst.groups);
      AddFamilies(model, units);
      AddRows(model, units);
      scip := model;
      forall s ensures Holds(model.rows, s) <==> Feasible(inst, s) { RowsMakeFeasible(inst, s); }
    }

    method AddFamilies(model: Model<Schedule>, units: seq<ProductionUnit>)
      requires units == Units(inst.groups) && forall s :: Holds(model.rows, s) && model.objective(s) == 0.0
      modifies model
      ensures forall s :: Holds(model.rows, s) <==> AllDomains(inst, s)
      ensures forall s :: model.objective(s) == Cost(inst, s)
    {
      AddFamily(model, units, inst.maxTime, XDomain, FixedTerm);
      AddFamily(model, units, inst.maxTime, UDomain, StartTerm);
      AddFamily(model, units, inst.maxTime, PDomain, ProductionTerm);
      forall s ensures model.objective(s) == Cost(inst, s) { FamiliesMakeCost(inst, s); }
    }

    /** `islice(units, count)`: the indices of the next `count` units. */
    method NextIndices(numbered: seq<(int, ProductionUnit)>, taken: nat, g: nat) returns (js: seq<int>)
      requires |numbered| == |Units(inst.groups)|
      requires forall k :: 0 <= k < |numbered| ==> numbered[k] == (k + 1, Units(inst.groups)[k])
      requires g < |inst.groups| && taken + 1 == FirstIndex(inst.groups, g)
      ensures |js| == inst.groups[g].count
      ensures forall i :: 0 <= i < |js| ==> js[i] == FirstIndex(inst.groups, g) + i
      ensures taken + |js| + 1 == FirstIndex(inst.groups, g + 1)
    {
      UnitCount(inst.groups);
      FirstIndexMonotone(inst.groups, g + 1, |inst.groups|);
      var slice := numbered[taken..taken + inst.groups[g].count];
      js := seq(|slice|, i requires 0 <= i < |slice| => slice[i].0);
    }

    /** The rows that family `f` has for one neighbouring pair and one period. */
    method AddPairRows(f: Family, g: nat, j1: int, j2: int, t: int)
      requires Neighbours(inst.groups, g, j1) && j2 == j1 + 1
      modifies scip
      ensures forall s :: Holds(scip.rows, s) <==> old(Holds(scip.rows, s)) && FamilyRowsAt(inst, s, f, g, j1, t)
      ensures scip.objective == old(scip.objective)
    {
      var unit, T := inst.groups[g].unit, inst.maxTime;
      match f
      case ReadyInequalities(startUp, shutDown) =>
        if startUp && t >= unit.minDowntime + 1 {
          scip.AddCons((s: Schedule) => StartUpReadyRow(unit, s.unit(j1), s.unit(j2), t));
        }
        if shutDown && t >= unit.minUptime + 1 {
          scip.AddCons((s: Schedule) => ShutDownReadyRow(unit, s.unit(j1), s.unit(j2), t));
        }
      case ActivatedOrbisacks =>
        if t >= unit.minDowntime + 1 {
          scip.AddCons((s: Schedule) => OrbisackRow(s.unit(j1), s.unit(j2), t, T, unit.minDowntime, 0.0));
        }
        if t >= unit.minUptime + 1 {
          scip.AddCons((s: Schedule) => OrbisackRow(s.unit(j1), s.unit(j2), t, T, unit.minUptime, 1.0));
        }
    }

    /** The neighbouring pairs of one group; a group of one has none. */
    method AddForGroup(f: Family, g: nat, js: seq<int>, t: int)
      requires g < |inst.groups| && |js| == inst.groups[g].count
      requires forall i :: 0 <= i < |js| ==> js[i] == FirstIndex(inst.groups, g) + i
      modifies scip
      ensures forall s :: Holds(scip.rows, s) <==>
                old(Holds(scip.rows, s)) && forall j :: FamilyRowsAt(inst, s, f, g, j, t)
      ensures scip.objective == old(scip.objective)
    {
      if |js| > 1 {
        for i := 0 to |js| - 1
          invariant scip.objective == old(scip.objective)
          invariant forall s :: Holds(scip.rows, s) <==>
                      old(Holds(scip.rows, s)) && forall j :: j < js[0] + i ==> FamilyRowsAt(inst, s, f, g, j, t)
        {
          AddPairRows(f, g, js[i], js[i + 1], t);
        }
      }
    }

    /** The loops over periods and groups that both families share. */
    method AddForNeighbours(f: Family)
      modifies scip
      ensures forall s :: Holds(scip.rows, s) <==> old(Holds(scip.rows, s)) && FamilyUpTo(inst, s, f, inst.maxTime + 1)
      ensures scip.objective == old(scip.objective)
    {
      var numbered := NumberedUnits();
      for t := 1 to inst.maxTime + 1
        invariant scip.objective == old(scip.objective)
        invariant forall s :: Holds(scip.rows, s) <==> old(Holds(scip.rows, s)) && FamilyUpTo(inst, s, f, t)
      {
        AddForPeriod(f, numbered, t);
        forall s { NextPeriod(inst, s, f, t); }
      }
    }

    method AddForPeriod(f: Family, numbered: seq<(int, ProductionUnit)>, t: int)
      requires |numbered| == |Units(inst.groups)|
      requires forall k :: 0 <= k < |numbered| ==> numbered[k] == (k + 1, Units(inst.groups)[k])
      modifies scip
      ensures forall s :: Holds(scip.rows, s) <==> old(Holds(scip.rows, s)) && GroupsUpTo(inst, s, f, |inst.groups|, t)
      ensures scip.objective == old(scip.objective)
    {
      var taken := 0;
      for g := 0 to |inst.groups|
        invariant taken >= 0 && taken + 1 == FirstIndex(inst.groups, g) && scip.objective == old(scip.objective)
        invariant forall s :: Holds(scip.rows, s) <==> old(Holds(scip.rows, s)) && GroupsUpTo(inst, s, f, g, t)
      {
        var js := NextIndices(numbered, taken, g);
        taken := taken + |js|;
        AddForGroup(f, g, js, t);
      }
    }

    /** Adds the start-up-ready and the shut-down-ready inequalities, each if its flag asks for it. */
    method AddStartUpShutDownIneqs(startUp: bool, shutDown: bool)
      modifies scip
      ensures forall s :: Holds(scip.rows, s) <==>
                && old(Holds(scip.rows, s))
                && (startUp ==> StartUpReadyRows(inst, s)) && (shutDown ==> ShutDownReadyRows(inst, s))
      ensures scip.objective == old(scip.objective)
    {
      AddForNeighbours(ReadyInequalities(startUp, shutDown));
      forall s { WholeFamily(inst, s, startUp, shutDown); }
    }

    /** Adds the orbisacks that are activated by the listed window fixings. */
    method AddStartUpShutDownOrbisackActivation()
      modifies scip
      ensures forall s :: Holds(scip.rows, s) <==> old(Holds(scip.rows, s)) && OrbisackRows(inst, s)
      ensures scip.objective == old(scip.objective)
    {
      AddForNeighbours(ActivatedOrbisacks);
      forall s { WholeFamily(inst, s, true, true); }
    }

    method AddRows(model: Model<Schedule>, units: seq<ProductionUnit>)
      requires forall g :: 0 <= g < |inst.groups| ==> WindowsFit(inst.groups[g].unit, inst.maxTime)
      requires units == Units(inst.groups)
      modifies model
      ensures forall s :: Holds(model.rows, s) <==>
                old(Holds(model.rows, s)) && AllUnitRows(inst, s, |units|) && AllDemandRows(inst, s, inst.maxTime)
      ensures model.objective == old(model.objective)
    {
      for k := 0 to |units|
        invariant model.objective == old(model.objective)
        invariant forall s :: Holds(model.rows, s) <==> old(Holds(model.rows, s)) && AllUnitRows(inst, s, k)
      {
        EveryUnitFits(inst, k);
        AddUnitRows(model, units[k], k + 1, inst.maxTime);
      }
      for t := 1 to inst.maxTime + 1
        invariant model.objective == old(model.objective)
        invariant forall s :: Holds(model.rows, s) <==>
                    old(Holds(model.rows, s)) && AllUnitRows(inst, s, |units|) && AllDemandRows(inst, s, t - 1)
      {
        model.AddCons((s: Schedule) => DemandRow(inst, s, t));
      }
    }
  }

  lemma {:induction false} FirstIndexMonotone(groups: seq<Group>, g: nat, g': nat)
    requires g <= g' <= |groups|
    ensures FirstIndex(groups, g) <= FirstIndex(groups, g')
    decreases g'
  {
    if g < g' { FirstIndexMonotone(groups, g, g' - 1); }
  }

  lemma WholeFamily(inst: Instance, s: Schedule, startUp: bool, shutDown: bool)
    ensures FamilyUpTo(inst, s, ReadyInequalities(startUp, shutDown), inst.maxTime + 1) <==>
            (startUp ==> StartUpReadyRows(inst, s)) && (shutDown ==> ShutDownReadyRows(inst, s))
    ensures FamilyUpTo(inst, s, ActivatedOrbisacks, inst.maxTime + 1) <==> OrbisackRows(inst, s)
  {
    var f := ReadyInequalities(startUp, shutDown);
    if FamilyUpTo(inst, s, f, inst.maxTime + 1) {
      forall g: nat, j, t | 1 <= t <= inst.maxTime
        ensures (startUp ==> StartUpReadyAt(inst, s, g, j, t)) && (shutDown ==> ShutDownReadyAt(inst, s, g, j, t))
      {
        assert FamilyRowsAt(inst, s, f, g, j, t);
      }
    }
    if FamilyUpTo(inst, s, ActivatedOrbisacks, inst.maxTime + 1) {
      forall g: nat, j, t | 1 <= t <= inst.maxTime ensures OrbisacksAt(inst, s, g, j, t) {
        assert FamilyRowsAt(inst, s, ActivatedOrbisacks, g, j, t);
      }
    }
  }

  ghost predicate AllUnitRows(inst: Instance, s: Schedule, n: nat)
    requires n <= |Units(inst.groups)|
  {
    forall j :: 1 <= j <= n ==> UnitRows(Units(inst.groups)[j - 1], inst.maxTime, s.unit(j))
  }

  ghost predicate AllDemandRows(inst: Instance, s: Schedule, T: nat) {
    forall t :: 1 <= t <= T ==> DemandRow(inst, s, t)
  }

  lemma {:induction false} EveryUnitFits(inst: Instance, k: nat)
    requires forall g :: 0 <= g < |inst.groups| ==> WindowsFit(inst.groups[g].unit, inst.maxTime)
    requires k < |Units(inst.groups)|
    ensures WindowsFit(Units(inst.groups)[k], inst.maxTime)
    decreases |inst.groups|
  {
    var n := |inst.groups| - 1;
    if k < |Units(inst.groups[..n])| { EveryUnitFits(inst.(groups := inst.groups[..n]), k); }
  }

  ghost predicate AllDomains(inst: Instance, s: Schedule) {
    var n, end := |Units(inst.groups)|, inst.maxTime + 1;
    DomainUpTo(XDomain, s, n, end, 1) && DomainUpTo(UDomain, s, n, end, 1) && DomainUpTo(PDomain, s, n, end, 1)
  }

  /** The rows in the order they are written, regrouped by unit. */
  lemma RowsMakeFeasible(inst: Instance, s: Schedule)
    ensures var n, T := |Units(inst.groups)|, inst.maxTime;
            Feasible(inst, s) <==>
            AllDomains(inst, s) && AllUnitRows(inst, s, n) && AllDemandRows(inst, s, T)
  {
    var units, T := Units(inst.groups), inst.maxTime;
    if AllDomains(inst, s) && AllUnitRows(inst, s, |units|) {
      forall j | 1 <= j <= |units| ensures ColumnFeasible(units[j - 1], T, s.unit(j)) {
        assert UnitRows(units[j - 1], T, s.unit(j));
        forall t | 1 <= t <= T ensures Binary(s.unit(j).x(t)) && Binary(s.unit(j).u(t)) && 0.0 <= s.unit(j).p(t) {
          assert XDomain(s, t, j) && UDomain(s, t, j) && PDomain(s, t, j);
        }
      }
    }
    if Feasible(inst, s) {
      forall j | 1 <= j <= |units| ensures UnitRows(units[j - 1], T, s.unit(j)) {
        assert ColumnFeasible(units[j - 1], T, s.unit(j));
      }
      forall t, j | 1 <= t <= T && 1 <= j <= |units|
        ensures XDomain(s, t, j) && UDomain(s, t, j) && PDomain(s, t, j)
      {
        assert ColumnFeasible(units[j - 1], T, s.unit(j));
        assert Binary(s.unit(j).x(t)) && Binary(s.unit(j).u(t)) && 0.0 <= s.unit(j).p(t);
      }
    }
  }
}
