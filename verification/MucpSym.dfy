/** The sub-symmetry families keep, for every feasible schedule, one of equal cost. */
module MucpSymmetry {
  import opened Sums
  import opened Tails
  import opened Mucp
  import opened MucpColumn
  import RowMajor
  import opened MucpTrades

  /** Two identical units in the same sub-state can trade tails: every row survives, and so does the cost. */
  lemma SwapKeepsFeasibilityAndCost(inst: Instance, s: Schedule, t: int, j1: int, j2: int)
    requires Feasible(inst, s) && t <= inst.maxTime
    requires 1 <= j1 < j2 <= |Units(inst.groups)| && Units(inst.groups)[j1 - 1] == Units(inst.groups)[j2 - 1]
    requires WindowsFit(Units(inst.groups)[j1 - 1], inst.maxTime)
    requires TailsTradeable(Units(inst.groups)[j1 - 1], inst.maxTime)
    requires SameSubState(Units(inst.groups)[j1 - 1], s.unit(j1), s.unit(j2), t)
    ensures Feasible(inst, SwapTails(s, t, j1, j2))
    ensures Cost(inst, SwapTails(s, t, j1, j2)) == Cost(inst, s)
  {
    var unit := Units(inst.groups)[j1 - 1];
    assert ColumnFeasible(unit, inst.maxTime, s.unit(j1)) && ColumnFeasible(unit, inst.maxTime, s.unit(j2));
    SpliceFeasible(unit, inst.maxTime, s.unit(j1), s.unit(j2), t);
    SpliceFeasible(unit, inst.maxTime, s.unit(j2), s.unit(j1), t);
    SwapKeeps(inst, s, t, j1, j2);
  }

  /** The constructor also lets the down-time fill the horizon, or be 0; then a tail trade can break a row. */
  lemma TradesSafeExactlyWhenTradeable(unit: ProductionUnit, maxTime: int)
    requires WindowsFit(unit, maxTime)
    ensures TradesAlwaysSafe(unit, maxTime) <==> TailsTradeable(unit, maxTime)
  {
    if TailsTradeable(unit, maxTime) {
      forall x1, u1, x2, u2, t |
        && t <= maxTime && (BothStartReady(unit, x1, x2, t) || BothShutReady(unit, x1, x2, t))
        && OnOffRows(unit, maxTime, x1, u1) && OnOffRows(unit, maxTime, x2, u2)
        ensures OnOffRows(unit, maxTime, Splice(x1, x2, t), Splice(u1, u2, t))
      {
        SpliceTradeable(unit, maxTime, x1, u1, x2, u2, t);
      }
    } else if unit.minDowntime == 0 {
      UnsafeWithoutDowntime(unit, maxTime);
    } else {
      UnsafeWhenDowntimeFills(unit, maxTime);
    }
  }

  lemma StartUpViolation(unit: ProductionUnit, maxTime: int, a: Column, b: Column, t: int)
    requires WindowsFit(unit, maxTime) && unit.minDowntime + 1 <= t <= maxTime
    requires ColumnFeasible(unit, maxTime, a) && ColumnFeasible(unit, maxTime, b)
    requires !StartUpReadyRow(unit, a, b, t)
    ensures BothStartReady(unit, a.x, b.x, t) && a.x(t) == 0.0 && b.x(t) == 1.0 && b.u(t) == 1.0
  {
    var l := unit.minDowntime;
    SumNonneg(a.u, t - l + 1, t);
    if l > 0 { StartFromDownInWindow(unit, maxTime, b.x, b.u, t, t); }
    StartStaysUp(unit, maxTime, b.x, b.u, t, t);
    NoTermBelowOne(a.u, t - l + 1, t);
    forall r | t - l <= r < t ensures a.x(r) == 0.0 {
      NoStartNoRise(unit, maxTime, a.x, a.u, t - l, r);
    }
  }

  lemma ShutDownViolation(unit: ProductionUnit, maxTime: int, a: Column, b: Column, t: int)
    requires WindowsFit(unit, maxTime) && unit.minUptime + 1 <= t <= maxTime
    requires 1 <= unit.minDowntime < maxTime || !Redundant(a, maxTime)
    requires ColumnFeasible(unit, maxTime, a) && ColumnFeasible(unit, maxTime, b)
    requires !ShutDownReadyRow(unit, a, b, t)
    ensures BothShutReady(unit, a.x, b.x, t) && a.x(t) == 0.0 && b.x(t) == 1.0
  {
    var L := unit.minUptime;
    ShutDownsTelescope(b, t - L + 1, t);
    SumNonneg(b.u, t - L + 1, t);
    if a.u(t) == 1.0 {
      if 1 <= unit.minDowntime < maxTime { StartFromDown(unit, maxTime, a.x, a.u, t); }
      StartStaysUp(unit, maxTime, a.x, a.u, t, t);
    }
    NoTermBelowOne(b.u, t - L + 1, t);
    NoStartBeforeDown(unit, maxTime, a.x, a.u, t, t - L + 1);
    forall r | t - L <= r < t ensures a.x(r) == 1.0 && b.x(r) == 1.0 {
      NoStartNoRise(unit, maxTime, a.x, a.u, r, t - 1);
      NoStartNoRise(unit, maxTime, b.x, b.u, r, t - 1);
    }
  }

  /** The start-up-ready row forbids exactly this: both were down for the whole window, and only the second starts. */
  lemma {:induction false} StartUpRowForbids(unit: ProductionUnit, maxTime: int, a: Column, b: Column, t: int)
    requires WindowsFit(unit, maxTime) && unit.minDowntime + 1 <= t <= maxTime
    requires ColumnFeasible(unit, maxTime, a) && ColumnFeasible(unit, maxTime, b)
    ensures !StartUpReadyRow(unit, a, b, t)
            <==> BothStartReady(unit, a.x, b.x, t) && a.x(t) == 0.0 && b.u(t) == 1.0
  {
    if !StartUpReadyRow(unit, a, b, t) {
      StartUpViolation(unit, maxTime, a, b, t);
    } else if BothStartReady(unit, a.x, b.x, t) && a.x(t) == 0.0 {
      NoStartWhileDown(unit, maxTime, a, t - unit.minDowntime + 1, t);
    }
  }

  /** A unit that signals a shut-down: it was up, and is down or starts anew. */
  predicate Stops(c: Column, t: int) { c.x(t - 1) == 1.0 && (c.x(t) == 0.0 || c.u(t) == 1.0) }

  /** The shut-down-ready row forbids exactly this: the second unit is up throughout, and only the first one stops. */
  lemma {:induction false} ShutDownRowForbids(unit: ProductionUnit, maxTime: int, a: Column, b: Column, t: int)
    requires WindowsFit(unit, maxTime) && unit.minUptime + 1 <= t <= maxTime
    requires ColumnFeasible(unit, maxTime, a) && ColumnFeasible(unit, maxTime, b)
    ensures !ShutDownReadyRow(unit, a, b, t)
            <==> Stops(a, t) && On(b.x, t - unit.minUptime, t + 1) && Off(b.u, t - unit.minUptime + 1, t)
  {
    var L := unit.minUptime;
    StopIsBinary(unit, maxTime, a, t);
    ShutDownsTelescope(b, t - L + 1, t);
    if !ShutDownReadyRow(unit, a, b, t) {
      NoTermBelowOne(b.u, t - L + 1, t);
      forall r | t - L <= r < t ensures b.x(r) == 1.0 { NoStartNoRise(unit, maxTime, b.x, b.u, r, t - 1); }
    } else if On(b.x, t - L, t + 1) && Off(b.u, t - L + 1, t) {
      SumZero(b.u, t - L + 1, t);
    }
  }

  /** Without redundant start-ups, both were up for the whole window. */
  lemma {:induction false} ShutDownRowForbidsOneStop(unit: ProductionUnit, maxTime: int, a: Column, b: Column, t: int)
    requires WindowsFit(unit, maxTime) && unit.minUptime + 1 <= t <= maxTime
    requires 1 <= unit.minDowntime < maxTime || (!Redundant(a, maxTime) && !Redundant(b, maxTime))
    requires ColumnFeasible(unit, maxTime, a) && ColumnFeasible(unit, maxTime, b)
    ensures !ShutDownReadyRow(unit, a, b, t)
            <==> BothShutReady(unit, a.x, b.x, t) && a.x(t) == 0.0 && b.x(t) == 1.0
  {
    ShutDownRowForbids(unit, maxTime, a, b, t);
    if !ShutDownReadyRow(unit, a, b, t) {
      ShutDownViolation(unit, maxTime, a, b, t);
    } else if BothShutReady(unit, a.x, b.x, t) && b.x(t) == 1.0 {
      forall s | t - unit.minUptime + 1 <= s < t ensures b.u(s) == 0.0 {
        if b.u(s) == 1.0 && 1 <= unit.minDowntime < maxTime { StartFromDown(unit, maxTime, b.x, b.u, s); }
        assert b.x(s - 1) == 1.0;
      }
    }
  }

  /** Two neighbours that one of the rows asked for forbids in period `t`. */
  ghost predicate StartsOutOfTurn(inst: Instance, s: Schedule, g: nat, j: int, t: int) {
    && Neighbours(inst.groups, g, j) && 1 <= t <= inst.maxTime
    && BothStartReady(inst.groups[g].unit, s.unit(j).x, s.unit(j + 1).x, t)
    && s.unit(j).x(t) == 0.0 && s.unit(j + 1).u(t) == 1.0
  }

  ghost predicate StopsOutOfTurn(inst: Instance, s: Schedule, g: nat, j: int, t: int) {
    && Neighbours(inst.groups, g, j) && 1 <= t <= inst.maxTime && t >= inst.groups[g].unit.minUptime + 1
    && Stops(s.unit(j), t)
    && On(s.unit(j + 1).x, t - inst.groups[g].unit.minUptime, t + 1)
    && Off(s.unit(j + 1).u, t - inst.groups[g].unit.minUptime + 1, t)
  }

  /** From a common sub-state at `t` on, the first period where they differ is one where only the first unit is up. */
  ghost predicate FallsOutOfTurn(inst: Instance, s: Schedule, g: nat, j: int, t: int, r: int) {
    && Neighbours(inst.groups, g, j) && 1 <= t <= r <= inst.maxTime
    && SameSubState(inst.groups[g].unit, s.unit(j), s.unit(j + 1), t)
    && OnlyFirstUp(s.unit(j), s.unit(j + 1), r)
    && forall k :: t <= k < r ==> s.unit(j).x(k) == s.unit(j + 1).x(k)
  }

  /** What the ready-rows of both kinds leave: the feasible schedules where no unit starts or stops out of turn. */
  lemma {:induction false} ReadyRowsForbid(inst: Instance, s: Schedule)
    requires Fits(inst) && Feasible(inst, s)
    ensures StartUpReadyRows(inst, s) <==> forall g: nat, j, t :: !StartsOutOfTurn(inst, s, g, j, t)
    ensures ShutDownReadyRows(inst, s) <==> forall g: nat, j, t :: !StopsOutOfTurn(inst, s, g, j, t)
  {
    forall g: nat, j, t | 1 <= t <= inst.maxTime
      ensures StartUpReadyAt(inst, s, g, j, t) <==> !StartsOutOfTurn(inst, s, g, j, t)
      ensures ShutDownReadyAt(inst, s, g, j, t) <==> !StopsOutOfTurn(inst, s, g, j, t)
    {
      if Neighbours(inst.groups, g, j) { PairForbids(inst, s, g, j, t); }
    }
  }

  lemma {:induction false} PairForbids(inst: Instance, s: Schedule, g: nat, j: int, t: int)
    requires Fits(inst) && Feasible(inst, s) && Neighbours(inst.groups, g, j) && 1 <= t <= inst.maxTime
    ensures StartUpReadyAt(inst, s, g, j, t) <==> !StartsOutOfTurn(inst, s, g, j, t)
    ensures ShutDownReadyAt(inst, s, g, j, t) <==> !StopsOutOfTurn(inst, s, g, j, t)
  {
    var unit, a, b := inst.groups[g].unit, s.unit(j), s.unit(j + 1);
    NeighboursAreIdentical(inst, g, j);
    FeasibleColumns(inst, s, g, j);
    if t >= unit.minDowntime + 1 { StartUpRowForbids(unit, inst.maxTime, a, b, t); }
    if t >= unit.minUptime + 1 { ShutDownRowForbids(unit, inst.maxTime, a, b, t); }
  }

  /** And what the orbisacks leave. */
  lemma {:induction false} OrbisacksForbid(inst: Instance, s: Schedule)
    requires Fits(inst) && Feasible(inst, s)
    ensures OrbisackRows(inst, s) <==> forall g: nat, j, t, r :: !FallsOutOfTurn(inst, s, g, j, t, r)
  {
    forall g: nat, j, t | 1 <= t <= inst.maxTime && !OrbisacksAt(inst, s, g, j, t)
      ensures exists r :: FallsOutOfTurn(inst, s, g, j, t, r)
    {
      var r := OrbisackViolation(inst, s, g, j, t);
      assert FallsOutOfTurn(inst, s, g, j, t, r);
    }
    forall g: nat, j, t, r | FallsOutOfTurn(inst, s, g, j, t, r) ensures !OrbisacksAt(inst, s, g, j, t) {
      LexFails(s.unit(j + 1).x, s.unit(j).x, t, r, inst.maxTime);
    }
  }

  /** Signalling a redundant start-up in period 1 keeps every row and the cost. */
  lemma {:induction false} StartFirstKeeps(inst: Instance, s: Schedule, j: int)
    requires Feasible(inst, s) && 1 <= j <= |Units(inst.groups)| && Redundant(s.unit(j), inst.maxTime)
    requires WindowsFit(Units(inst.groups)[j - 1], inst.maxTime)
             && Units(inst.groups)[j - 1].minDowntime == inst.maxTime
    ensures Feasible(inst, WithStartFirst(s, j)) && Cost(inst, WithStartFirst(s, j)) == Cost(inst, s)
  {
    var units, c := Units(inst.groups), s.unit(j);
    var k :| 2 <= k <= inst.maxTime && c.u(k) == 1.0 && c.x(k - 1) == 1.0;
    assert ColumnFeasible(units[j - 1], inst.maxTime, c);
    OnlyRedundant(units[j - 1], inst.maxTime, c, k);
    StartFirstCost(units, inst.maxTime, s, j, k);
    StartFirstFeasible(units[j - 1], inst.maxTime, c, k);
    OneColumnReplaced(inst, s, j);
  }

  /** When the down-time rows see the curve, neighbours in the same sub-state can trade tails. */
  lemma {:induction false} TradeKeeps(inst: Instance, s: Schedule, g: nat, j: int, t: int)
    requires Fits(inst) && Feasible(inst, s) && Neighbours(inst.groups, g, j) && 1 <= t <= inst.maxTime
    requires 1 <= inst.groups[g].unit.minDowntime < inst.maxTime
    requires SameSubState(inst.groups[g].unit, s.unit(j), s.unit(j + 1), t)
    ensures Keeps(inst, s, Tails(t, j))
  {
    assert Admissible(inst, s, Tails(t, j));
    TailsAreSwapped(s, t, j);
    NeighboursAreIdentical(inst, g, j);
    SwapKeepsFeasibilityAndCost(inst, s, t, j, j + 1);
  }

  /** Neighbours can always trade their whole columns. */
  lemma {:induction false} ColumnTradeKeeps(inst: Instance, s: Schedule, g: nat, j: int)
    requires Fits(inst) && Feasible(inst, s) && Neighbours(inst.groups, g, j)
    ensures Keeps(inst, s, Tails(1, j))
  {
    var unit, a, b := inst.groups[g].unit, s.unit(j), s.unit(j + 1);
    NeighboursAreIdentical(inst, g, j);
    FeasibleColumns(inst, s, g, j);
    SpliceAll(unit, inst.maxTime, a.x, a.u, b.x, b.u);
    SpliceAll(unit, inst.maxTime, b.x, b.u, a.x, a.u);
    SplicedColumns(inst, s, g, j, 1);
    SpliceKeeps(inst, s, g, j, 1);
  }

  lemma {:induction false} ViolationMeansSameSubState(inst: Instance, s: Schedule, g: nat, j: int, t: int)
    requires Fits(inst) && Feasible(inst, s) && 1 <= t <= inst.maxTime && !ReadyRowsAt(inst, s, g, j, t)
    requires Neighbours(inst.groups, g, j)
    requires var unit := inst.groups[g].unit;
             || 1 <= unit.minDowntime < inst.maxTime || !Redundant(s.unit(j), inst.maxTime)
             || unit.minUptime == inst.maxTime
    ensures SameSubState(inst.groups[g].unit, s.unit(j), s.unit(j + 1), t)
    ensures s.unit(j).x(t) == 0.0 && s.unit(j + 1).x(t) == 1.0
    ensures StartUpReadyAt(inst, s, g, j, t) || s.unit(j + 1).u(t) == 1.0
  {
    FeasibleColumns(inst, s, g, j);
    NeighboursAreIdentical(inst, g, j);
    var unit := inst.groups[g].unit;
    if !StartUpReadyAt(inst, s, g, j, t) {
      StartUpViolation(unit, inst.maxTime, s.unit(j), s.unit(j + 1), t);
    } else {
      ShutDownViolation(unit, inst.maxTime, s.unit(j), s.unit(j + 1), t);
    }
  }

  /** A redundant start-up of one of the two neighbours is signalled early first. */
  lemma {:induction false} EarlyStartRepairs(f: Family, inst: Instance, s: Schedule, g: nat, j: int)
    returns (trade: Trade)
    requires Fits(inst) && Feasible(inst, s) && Neighbours(inst.groups, g, j)
    requires inst.groups[g].unit.minDowntime == inst.maxTime
    requires Redundant(s.unit(j), inst.maxTime) || Redundant(s.unit(j + 1), inst.maxTime)
    ensures Repairs(f, inst, s, trade)
  {
    NeighboursAreIdentical(inst, g, j);
    var i := if Redundant(s.unit(j), inst.maxTime) then j else j + 1;
    trade := EarlyStart(i);
    StartFirstKeeps(inst, s, i);
    EarlyStartImproves(f, inst, s, i);
  }

  /**
   Units of a down-time that fills the horizon: up to period 2L + 1 both have been up since period L + 1 and trade
   everything; after that only the last period is left.
   */
  lemma {:induction false} WholeHorizonRepair(f: Family, inst: Instance, s: Schedule, g: nat, j: int, t: int, r: nat)
      returns (trade: Trade)
    requires Fits(inst) && Feasible(inst, s) && Neighbours(inst.groups, g, j)
    requires inst.groups[g].unit.minDowntime == inst.maxTime && t <= r <= inst.maxTime
    requires inst.maxTime <= 2 * inst.groups[g].unit.minUptime + 2
    requires !Redundant(s.unit(j), inst.maxTime) && !Redundant(s.unit(j + 1), inst.maxTime)
    requires BothShutReady(inst.groups[g].unit, s.unit(j).x, s.unit(j + 1).x, t)
    requires forall k :: t <= k < r ==> s.unit(j).x(k) == s.unit(j + 1).x(k)
    requires s.unit(ReadFirst(f, j)).x(r) == 0.0 && s.unit(ReadSecond(f, j)).x(r) == 1.0
    ensures Repairs(f, inst, s, trade)
  {
    NeighboursAreIdentical(inst, g, j);
    if t <= 2 * inst.groups[g].unit.minUptime + 1 {
      trade := Tails(1, j);
      ColumnTradeKeeps(inst, s, g, j);
      TradeImproves(f, inst, s, j, 1, r);
    } else {
      trade := Tails(inst.maxTime, j);
      LastTradeKeeps(inst, s, g, j);
      TradeImproves(f, inst, s, j, inst.maxTime, r);
    }
  }

  lemma {:induction false} TailRepair(f: Family, inst: Instance, s: Schedule, g: nat, j: int, t: int, r: nat)
    requires Fits(inst) && Feasible(inst, s) && Neighbours(inst.groups, g, j)
    requires 1 <= inst.groups[g].unit.minDowntime < inst.maxTime && 1 <= t <= r <= inst.maxTime
    requires SameSubState(inst.groups[g].unit, s.unit(j), s.unit(j + 1), t)
    requires forall k :: t <= k < r ==> s.unit(j).x(k) == s.unit(j + 1).x(k)
    requires s.unit(ReadFirst(f, j)).x(r) == 0.0 && s.unit(ReadSecond(f, j)).x(r) == 1.0
    ensures Repairs(f, inst, s, Tails(t, j))
  {
    NeighboursAreIdentical(inst, g, j);
    TradeKeeps(inst, s, g, j, t);
    TradeImproves(f, inst, s, j, t, r);
  }

  /** Without a down-time and with one run at most, the column that starts later comes second. */
  lemma {:induction false} OneRunRepair(inst: Instance, s: Schedule, g: nat, j: int, t: int)
    requires Fits(inst) && Feasible(inst, s) && 1 <= t <= inst.maxTime && !ReadyRowsAt(inst, s, g, j, t)
    requires Neighbours(inst.groups, g, j)
    requires inst.groups[g].unit.minDowntime == 0 && inst.groups[g].unit.minUptime == inst.maxTime
    ensures Repairs(ReadyRows, inst, s, Tails(1, j))
  {
    var unit, a, b := inst.groups[g].unit, s.unit(j), s.unit(j + 1);
    NeighboursAreIdentical(inst, g, j);
    FeasibleColumns(inst, s, g, j);
    ViolationMeansSameSubState(inst, s, g, j, t);
    forall k | t <= k <= inst.maxTime ensures b.x(k) == 1.0 { StartStaysUp(unit, inst.maxTime, b.x, b.u, t, k); }
    var r := LastDown(a, t, inst.maxTime);
    ColumnTradeKeeps(inst, s, g, j);
    ColumnTradeImproves(ReadyRows, inst, s, j, r);
  }

  /** In two periods, units that agree on the first one trade everything. */
  lemma {:induction false} EqualFirstRepair(inst: Instance, s: Schedule, g: nat, j: int, r: nat)
    requires Fits(inst) && Feasible(inst, s) && Neighbours(inst.groups, g, j)
    requires inst.groups[g].unit.minDowntime == 0 && 1 <= r <= inst.maxTime == 2
    requires OnlyFirstUp(s.unit(j), s.unit(j + 1), r) && (r == 2 ==> s.unit(j).x(1) == s.unit(j + 1).x(1))
    ensures Repairs(Orbisacks, inst, s, Tails(1, j))
  {
    NeighboursAreIdentical(inst, g, j);
    ColumnTradeKeeps(inst, s, g, j);
    TradeImproves(Orbisacks, inst, s, j, 1, r);
  }

  /** Without a down-time, orbisacks want every period sorted; the first period that is not can be repaired. */
  lemma {:induction false} SortedRepair(inst: Instance, s: Schedule, g: nat, j: int, t: int) returns (trade: Trade)
    requires Fits(inst) && Feasible(inst, s) && Neighbours(inst.groups, g, j)
    requires inst.groups[g].unit.minDowntime == 0 && (inst.groups[g].unit.minUptime == 1 || inst.maxTime == 2)
    requires 1 <= t <= inst.maxTime && OnlyFirstUp(s.unit(j), s.unit(j + 1), t)
    ensures Repairs(Orbisacks, inst, s, trade)
  {
    var unit, a, b := inst.groups[g].unit, s.unit(j), s.unit(j + 1);
    NeighboursAreIdentical(inst, g, j);
    FeasibleColumns(inst, s, g, j);
    var r := FirstExcess(a, b, t);
    if unit.minUptime == 1 {
      trade := Tails(r, j);
      assert 2 <= r ==> !OnlyFirstUp(a, b, r - 1);
      UnitRunsRepair(inst, s, g, j, r);
    } else if r == 2 && a.x(1) == 0.0 {
      trade := Tails(2, j);
      SecondPeriodRepair(inst, s, g, j);
    } else {
      trade := Tails(1, j);
      assert r == 2 ==> !OnlyFirstUp(a, b, 1) && Binary(a.x(1)) && Binary(b.x(1));
      EqualFirstRepair(inst, s, g, j, r);
    }
  }

  /** A violated ready-row gives an admissible trade that improves the reading. */
  lemma {:induction false} ReadyRowTrade(inst: Instance, s: Schedule, g: nat, j: int, t: int) returns (trade: Trade)
    requires WellFormed(ReadyRows, inst) && Feasible(inst, s)
    requires 1 <= t <= inst.maxTime && !ReadyRowsAt(inst, s, g, j, t)
    ensures Repairs(ReadyRows, inst, s, trade)
  {
    NeighboursAreIdentical(inst, g, j);
    if inst.groups[g].unit.minDowntime == 0 {
      trade := Tails(1, j);
      OneRunRepair(inst, s, g, j, t);
    } else if inst.groups[g].unit.minDowntime < inst.maxTime {
      trade := Tails(t, j);
      ViolationMeansSameSubState(inst, s, g, j, t);
      TailRepair(ReadyRows, inst, s, g, j, t, t);
    } else if Redundant(s.unit(j), inst.maxTime) || Redundant(s.unit(j + 1), inst.maxTime) {
      trade := EarlyStartRepairs(ReadyRows, inst, s, g, j);
    } else {
      ViolationMeansSameSubState(inst, s, g, j, t);
      trade := WholeHorizonRepair(ReadyRows, inst, s, g, j, t, t);
    }
  }

  /** A violated orbisack does the same in the reversed reading. */
  lemma {:induction false} OrbisackTrade(inst: Instance, s: Schedule, g: nat, j: int, t: int) returns (trade: Trade)
    requires WellFormed(Orbisacks, inst) && Feasible(inst, s)
    requires 1 <= t <= inst.maxTime && !OrbisacksAt(inst, s, g, j, t)
    ensures Repairs(Orbisacks, inst, s, trade)
  {
    var r := OrbisackViolation(inst, s, g, j, t);
    NeighboursAreIdentical(inst, g, j);
    if inst.groups[g].unit.minDowntime == 0 {
      trade := SortedRepair(inst, s, g, j, r);
    } else if inst.groups[g].unit.minDowntime < inst.maxTime {
      trade := Tails(t, j);
      TailRepair(Orbisacks, inst, s, g, j, t, r);
    } else if Redundant(s.unit(j), inst.maxTime) || Redundant(s.unit(j + 1), inst.maxTime) {
      trade := EarlyStartRepairs(Orbisacks, inst, s, g, j);
    } else {
      trade := WholeHorizonRepair(Orbisacks, inst, s, g, j, t, r);
    }
  }

  // ---------- nothing is lost ----------

  /** Finitely many trades lead from any feasible schedule to one of equal cost that meets every ready-row. */
  lemma {:induction false} ReadyRowsLoseNothing(inst: Instance, s: Schedule) returns (trades: seq<Trade>)
    requires WellFormed(ReadyRows, inst) && Feasible(inst, s)
    ensures AllAdmissible(inst, s, trades)
    ensures Feasible(inst, ApplyTrades(s, trades)) && Cost(inst, ApplyTrades(s, trades)) == Cost(inst, s)
    ensures StartUpReadyRows(inst, ApplyTrades(s, trades)) && ShutDownReadyRows(inst, ApplyTrades(s, trades))
    decreases ValueLimit(inst) - UpValue(ReadyRows, inst, s), RedundantStarts(inst, s, |Units(inst.groups)|)
  {
    if g: nat, j, t :| 1 <= t <= inst.maxTime && !ReadyRowsAt(inst, s, g, j, t) {
      var trade := ReadyRowTrade(inst, s, g, j, t);
      var rest := ReadyRowsLoseNothing(inst, ApplyTrade(s, trade));
      trades := [trade] + rest;
    } else {
      trades := [];
      forall g: nat, j, t | 1 <= t <= inst.maxTime
        ensures StartUpReadyAt(inst, s, g, j, t) && ShutDownReadyAt(inst, s, g, j, t)
      {
        assert ReadyRowsAt(inst, s, g, j, t);
      }
    }
  }

  /** Likewise for the activated orbisacks. */
  lemma {:induction false} OrbisacksLoseNothing(inst: Instance, s: Schedule) returns (trades: seq<Trade>)
    requires WellFormed(Orbisacks, inst) && Feasible(inst, s)
    ensures AllAdmissible(inst, s, trades)
    ensures Feasible(inst, ApplyTrades(s, trades)) && Cost(inst, ApplyTrades(s, trades)) == Cost(inst, s)
    ensures OrbisackRows(inst, ApplyTrades(s, trades))
    decreases ValueLimit(inst) - UpValue(Orbisacks, inst, s), RedundantStarts(inst, s, |Units(inst.groups)|)
  {
    if g: nat, j, t :| 1 <= t <= inst.maxTime && !OrbisacksAt(inst, s, g, j, t) {
      var trade := OrbisackTrade(inst, s, g, j, t);
      var rest := OrbisacksLoseNothing(inst, ApplyTrade(s, trade));
      trades := [trade] + rest;
    } else {
      trades := [];
    }
  }

  /** A schedule that is optimal under either family of added rows is optimal without them. */
  lemma OptimumSurvives(f: Family, inst: Instance, best: Schedule)
    requires WellFormed(f, inst) && CheapestAmong(inst, best, s => Meets(f, inst, s))
    ensures CheapestAmong(inst, best, s => true)
  {
    forall s | Feasible(inst, s) ensures Cost(inst, best) <= Cost(inst, s) {
      match f
      case ReadyRows =>
        var trades := ReadyRowsLoseNothing(inst, s);
        assert Meets(f, inst, ApplyTrades(s, trades));
      case Orbisacks =>
        var trades := OrbisacksLoseNothing(inst, s);
        assert Meets(f, inst, ApplyTrades(s, trades));
    }
  }
}

/** Trades between the columns of two units, and the reading of all columns that they increase. */
module MucpTrades {
  import opened Sums
  import opened Tails
  import opened Mucp
  import opened MucpColumn
  import RowMajor

  /** The two ways of adding rows to the program. */
  datatype Family = ReadyRows | Orbisacks

  ghost predicate Meets(f: Family, inst: Instance, s: Schedule) {
    match f
    case ReadyRows => StartUpReadyRows(inst, s) && ShutDownReadyRows(inst, s)
    case Orbisacks => OrbisackRows(inst, s)
  }

  /** The minimum times are those the rows are written for. */
  predicate Fits(inst: Instance) {
    inst.maxTime >= 1 && forall g :: 0 <= g < |inst.groups| ==> WindowsFit(inst.groups[g].unit, inst.maxTime)
  }

  /** And they are lossless ones where units are identical. */
  predicate WellFormed(f: Family, inst: Instance) {
    Fits(inst) && forall g :: 0 <= g < |inst.groups| && inst.groups[g].count >= 2 ==>
      LosslessTimes(f, inst.groups[g].unit.minUptime, inst.groups[g].unit.minDowntime, inst.maxTime)
  }

  /**
   Either the down-time rows see the curve, or the horizon is too short for two breaks and two runs around them.
   Without a down-time, ready-rows want one run that fills the horizon, and orbisacks runs or horizons of length one.
   */
  predicate LosslessTimes(f: Family, minUptime: int, minDowntime: int, maxTime: int) {
    if minDowntime > 0 then minDowntime < maxTime || maxTime <= 2 * minUptime + 2
    else if f.ReadyRows? then minUptime == maxTime
    else minUptime == 1 || maxTime <= 2
  }

  /** Either the down-time rows see the curve, or no tail is ever ready to be traded. */
  predicate TailsTradeable(unit: ProductionUnit, maxTime: int) {
    if unit.minDowntime == 0 then maxTime == 1 else unit.minDowntime < maxTime || unit.minUptime == maxTime
  }

  lemma {:induction false} UnitsOfGroup(groups: seq<Group>, g: nat, j: int)
    requires g < |groups| && FirstIndex(groups, g) <= j < FirstIndex(groups, g + 1)
    ensures 1 <= j <= |Units(groups)| && Units(groups)[j - 1] == groups[g].unit
    decreases |groups|
  {
    var n := |groups| - 1;
    UnitCount(groups);
    UnitCount(groups[..n]);
    FirstIndexOfPrefix(groups, g, n);
    FirstIndexOfPrefix(groups, n, n);
    if g < n {
      FirstIndexOfPrefix(groups, g + 1, n);
      UnitsOfGroup(groups[..n], g, j);
    } else {
      FirstIndexPositive(groups, n);
    }
  }

  lemma {:induction false} FirstIndexPositive(groups: seq<Group>, g: nat)
    requires g <= |groups|
    ensures 1 <= FirstIndex(groups, g)
  {
    if g > 0 { FirstIndexPositive(groups, g - 1); }
  }

  lemma {:induction false} FirstIndexOfPrefix(groups: seq<Group>, g: nat, n: nat)
    requires g <= n <= |groups|
    ensures FirstIndex(groups[..n], g) == FirstIndex(groups, g)
  {
    if g > 0 { FirstIndexOfPrefix(groups, g - 1, n); }
  }

  lemma {:induction false} UnitCount(groups: seq<Group>)
    ensures |Units(groups)| + 1 == FirstIndex(groups, |groups|)
  {
    if groups != [] {
      var n := |groups| - 1;
      UnitCount(groups[..n]);
      FirstIndexOfPrefix(groups, n, n);
    }
  }

  // ---------- trading tails between two units ----------

  function SpliceColumn(a: Column, b: Column, t: int): Column {
    Column(Splice(a.x, b.x, t), Splice(a.u, b.u, t), Splice(a.p, b.p, t))
  }

  /** Units `j1` and `j2` trade all their variables from period `t` on. */
  function SwapTails(s: Schedule, t: int, j1: int, j2: int): Schedule {
    Schedule(j => if j == j1 then SpliceColumn(s.unit(j1), s.unit(j2), t)
                  else if j == j2 then SpliceColumn(s.unit(j2), s.unit(j1), t)
                  else s.unit(j))
  }

  ghost predicate SameSubState(unit: ProductionUnit, a: Column, b: Column, t: int) {
    BothStartReady(unit, a.x, b.x, t) || BothShutReady(unit, a.x, b.x, t)
  }

  lemma {:induction false} SpliceTradeable(unit: ProductionUnit, maxTime: int, x1: int -> real, u1: int -> real,
                                           x2: int -> real, u2: int -> real, t: int)
    requires WindowsFit(unit, maxTime) && TailsTradeable(unit, maxTime) && t <= maxTime
    requires BothStartReady(unit, x1, x2, t) || BothShutReady(unit, x1, x2, t)
    requires OnOffRows(unit, maxTime, x1, u1) && OnOffRows(unit, maxTime, x2, u2)
    ensures OnOffRows(unit, maxTime, Splice(x1, x2, t), Splice(u1, u2, t))
  {
    if unit.minDowntime == 0 {
      SpliceAll(unit, maxTime, x1, u1, x2, u2);
    } else if BothStartReady(unit, x1, x2, t) {
      SpliceStartReady(unit, maxTime, x1, u1, x2, u2, t);
    } else {
      SpliceShutReady(unit, maxTime, x1, u1, x2, u2, t);
    }
  }

  lemma SpliceFeasible(unit: ProductionUnit, maxTime: int, a: Column, b: Column, t: int)
    requires WindowsFit(unit, maxTime) && TailsTradeable(unit, maxTime) && t <= maxTime
    requires ColumnFeasible(unit, maxTime, a) && ColumnFeasible(unit, maxTime, b) && SameSubState(unit, a, b, t)
    ensures ColumnFeasible(unit, maxTime, SpliceColumn(a, b, t))
  {
    SpliceTradeable(unit, maxTime, a.x, a.u, b.x, b.u, t);
    SplicedProduction(unit, maxTime, a, b, t);
  }

  lemma {:induction false} SplicedProduction(unit: ProductionUnit, maxTime: int, a: Column, b: Column, t: int)
    requires ColumnFeasible(unit, maxTime, a) && ColumnFeasible(unit, maxTime, b)
    requires OnOffRows(unit, maxTime, Splice(a.x, b.x, t), Splice(a.u, b.u, t))
    ensures ColumnFeasible(unit, maxTime, SpliceColumn(a, b, t))
  {
    forall k | 1 <= k <= maxTime ensures ProductionRows(unit, SpliceColumn(a, b, t), k) {
      SameProduction(unit, if k < t then a else b, SpliceColumn(a, b, t), k);
    }
  }

  lemma {:induction false} SameProduction(unit: ProductionUnit, c: Column, d: Column, k: int)
    requires ProductionRows(unit, c, k) && c.x(k) == d.x(k) && c.p(k) == d.p(k)
    ensures ProductionRows(unit, d, k)
  {
  }

  /** A trade between identical units permutes the terms of every period. */
  lemma SwapKeepsPeriodSums(units: seq<ProductionUnit>, s: Schedule, t: int, j1: int, j2: int, k: int)
    requires 1 <= j1 < j2 <= |units| && units[j1 - 1] == units[j2 - 1]
    ensures Sum(ProductionIn(SwapTails(s, t, j1, j2), k), 1, |units| + 1) == Sum(ProductionIn(s, k), 1, |units| + 1)
    ensures PeriodCosts(units, SwapTails(s, t, j1, j2))(k) == PeriodCosts(units, s)(k)
  {
    var s' := SwapTails(s, t, j1, j2);
    var a, b := SpliceColumn(s.unit(j1), s.unit(j2), t), SpliceColumn(s.unit(j2), s.unit(j1), t);
    assert s'.unit(j1) == a && s'.unit(j2) == b;
    SumTraded(ProductionIn(s, k), ProductionIn(s', k), 1, |units| + 1, j1, j2);
    SumTraded(UnitCosts(units, s, k), UnitCosts(units, s', k), 1, |units| + 1, j1, j2);
  }

  /** If both spliced columns are feasible, so is the schedule after the trade, at equal cost. */
  lemma {:induction false} SwapKeeps(inst: Instance, s: Schedule, t: int, j1: int, j2: int)
    requires Feasible(inst, s) && 1 <= j1 < j2 <= |Units(inst.groups)|
    requires Units(inst.groups)[j1 - 1] == Units(inst.groups)[j2 - 1]
    requires ColumnFeasible(Units(inst.groups)[j1 - 1], inst.maxTime, SpliceColumn(s.unit(j1), s.unit(j2), t))
    requires ColumnFeasible(Units(inst.groups)[j1 - 1], inst.maxTime, SpliceColumn(s.unit(j2), s.unit(j1), t))
    ensures Feasible(inst, SwapTails(s, t, j1, j2))
    ensures Cost(inst, SwapTails(s, t, j1, j2)) == Cost(inst, s)
  {
    var units, s' := Units(inst.groups), SwapTails(s, t, j1, j2);
    forall j | 1 <= j <= |units| ensures ColumnFeasible(units[j - 1], inst.maxTime, s'.unit(j)) {
      assert ColumnFeasible(units[j - 1], inst.maxTime, s.unit(j));
    }
    forall k
      ensures DemandRow(inst, s', k) <==> DemandRow(inst, s, k)
      ensures PeriodCosts(units, s')(k) == PeriodCosts(units, s)(k)
    {
      SwapKeepsPeriodSums(units, s, t, j1, j2, k);
    }
    SumCongruent(PeriodCosts(units, s), PeriodCosts(units, s'), 1, inst.maxTime + 1);
  }

  ghost predicate TradesAlwaysSafe(unit: ProductionUnit, maxTime: int) {
    forall x1, u1, x2, u2, t ::
      && t <= maxTime && (BothStartReady(unit, x1, x2, t) || BothShutReady(unit, x1, x2, t))
      && OnOffRows(unit, maxTime, x1, u1) && OnOffRows(unit, maxTime, x2, u2)
      ==> OnOffRows(unit, maxTime, Splice(x1, x2, t), Splice(u1, u2, t))
  }

  lemma UnsafeWhenDowntimeFills(unit: ProductionUnit, maxTime: int)
    requires WindowsFit(unit, maxTime) && unit.minDowntime == maxTime && unit.minUptime < maxTime
    ensures !TradesAlwaysSafe(unit, maxTime)
  {
    var t := unit.minUptime + 1;
    var x := (k: int) => 1.0;
    var u1, u2 := OneStart(1), OneStart(t);
    OneStartRows(unit, maxTime, 1);
    OneStartRows(unit, maxTime, t);
    var u := Splice(u1, u2, t);
    TwoTermsAtMostSum(u, 1, maxTime + 1, 1, t);
    assert !DowntimeRow(unit, Splice(x, x, t), u, maxTime);
    assert BothShutReady(unit, x, x, t);
  }

  /** Without a down-time every unit is ready to start, even with a tail that is up and signals no start-up. */
  lemma UnsafeWithoutDowntime(unit: ProductionUnit, maxTime: int)
    requires WindowsFit(unit, maxTime) && unit.minDowntime == 0 && maxTime >= 2
    ensures !TradesAlwaysSafe(unit, maxTime)
  {
    var none, all := (k: int) => 0.0, (k: int) => 1.0;
    forall k ensures UptimeRow(unit, none, none, k) && UptimeRow(unit, all, none, k) {
      SumZero(none, k - unit.minUptime + 1, k + 1);
    }
    assert OnOffRows(unit, maxTime, none, none) && OnOffRows(unit, maxTime, all, none);
    assert !StartupRow(Splice(none, all, 2), Splice(none, none, 2), 2);
    assert BothStartReady(unit, none, all, 2);
  }

  /** While a unit is down it signals no start-up. */
  lemma {:induction false} NoStartWhileDown(unit: ProductionUnit, maxTime: int, c: Column, lo: int, hi: int)
    requires WindowsFit(unit, maxTime) && ColumnFeasible(unit, maxTime, c) && 1 <= lo && hi <= maxTime + 1
    requires Off(c.x, lo, hi)
    ensures Sum(c.u, lo, hi) == 0.0
  {
    forall s | lo <= s < hi ensures c.u(s) == 0.0 {
      if c.u(s) == 1.0 { StartStaysUp(unit, maxTime, c.x, c.u, s, s); }
    }
    SumZero(c.u, lo, hi);
  }

  lemma {:induction false} StopIsBinary(unit: ProductionUnit, maxTime: int, c: Column, t: int)
    requires WindowsFit(unit, maxTime) && ColumnFeasible(unit, maxTime, c) && 2 <= t <= maxTime
    ensures ShutDown(c, t) == if c.x(t - 1) == 1.0 && (c.x(t) == 0.0 || c.u(t) == 1.0) then 1.0 else 0.0
  {
    assert Binary(c.x(t - 1)) && Binary(c.x(t)) && Binary(c.u(t)) && StartupRow(c.x, c.u, t);
    if c.u(t) == 1.0 { StartStaysUp(unit, maxTime, c.x, c.u, t, t); }
  }

  function OneStart(s: int): int -> real {
    k => if k == s then 1.0 else 0.0
  }

  /** A unit that is always up may set one start-up variable when the down-time rows do not see it. */
  lemma OneStartRows(unit: ProductionUnit, maxTime: int, s: int)
    requires WindowsFit(unit, maxTime) && unit.minDowntime == maxTime && 1 <= s <= maxTime
    ensures OnOffRows(unit, maxTime, k => 1.0, OneStart(s))
  {
    forall lo, hi ensures Sum(OneStart(s), lo, hi) <= 1.0 {
      if lo <= s < hi { SumSingle(OneStart(s), lo, hi, s); } else { SumZero(OneStart(s), lo, hi); }
    }
  }

  // ---------- a violated row names two units in the same sub-state ----------

  lemma {:induction false} ShutDownsTelescope(c: Column, lo: int, hi: int)
    requires lo <= hi
    ensures Sum(ShutDowns(c), lo, hi) == c.x(lo - 1) - c.x(hi - 1) + Sum(c.u, lo, hi)
    decreases hi - lo
  {
    if lo < hi { ShutDownsTelescope(c, lo, hi - 1); }
  }

  lemma NoTermBelowOne(u: int -> real, lo: int, hi: int)
    requires forall k :: lo <= k < hi ==> Binary(u(k))
    requires Sum(u, lo, hi) < 1.0
    ensures Off(u, lo, hi) && Sum(u, lo, hi) == 0.0
  {
    forall k | lo <= k < hi ensures u(k) == 0.0 { TermAtMostSum(u, lo, hi, k); }
    SumZero(u, lo, hi);
  }

  /** A start-up is signalled while the unit is up. */
  ghost predicate Redundant(c: Column, maxTime: int) {
    exists s :: 2 <= s <= maxTime && c.u(s) == 1.0 && c.x(s - 1) == 1.0
  }

  // ---------- when the minimum down-time is the whole horizon ----------

  /** Trading from period 1 on trades the whole columns. */
  lemma {:induction false} SpliceAll(unit: ProductionUnit, maxTime: int, x1: int -> real, u1: int -> real,
                                     x2: int -> real, u2: int -> real)
    requires WindowsFit(unit, maxTime) && OnOffRows(unit, maxTime, x2, u2)
    ensures OnOffRows(unit, maxTime, Splice(x1, x2, 1), Splice(u1, u2, 1))
  {
    var x, u := Splice(x1, x2, 1), Splice(u1, u2, 1);
    forall k | unit.minUptime <= k <= maxTime ensures UptimeRow(unit, x, u, k) {
      assert UptimeRow(unit, x2, u2, k);
      SumOfSplice(u1, u2, 1, k - unit.minUptime + 1, k + 1);
    }
    forall k | unit.minDowntime <= k <= maxTime ensures DowntimeRow(unit, x, u, k) {
      assert DowntimeRow(unit, x2, u2, k);
      SumOfSplice(u1, u2, 1, k - unit.minDowntime + 1, k + 1);
    }
    forall k | 2 <= k <= maxTime ensures StartupRow(x, u, k) { assert StartupRow(x2, u2, k); }
  }

  /** In the last period two units that have been up long enough can trade, if no start-up is redundant. */
  lemma {:induction false} SpliceLast(unit: ProductionUnit, maxTime: int, a: Column, b: Column)
    requires WindowsFit(unit, maxTime) && unit.minDowntime == maxTime
    requires ColumnFeasible(unit, maxTime, a) && ColumnFeasible(unit, maxTime, b)
    requires !Redundant(a, maxTime) && !Redundant(b, maxTime) && BothShutReady(unit, a.x, b.x, maxTime)
    ensures OnOffRows(unit, maxTime, Splice(a.x, b.x, maxTime), Splice(a.u, b.u, maxTime))
  {
    var T := maxTime;
    assert a.x(T - 1) == 1.0 && b.x(T - 1) == 1.0;
    forall k | unit.minUptime <= k <= T ensures UptimeRow(unit, Splice(a.x, b.x, T), Splice(a.u, b.u, T), k) {
      SpliceLastUptime(unit, T, a, b, k);
    }
    assert DowntimeRow(unit, a.x, a.u, T) && b.u(T) == 0.0;
    SumOfSplice(a.u, b.u, T, 1, T + 1);
    forall k | 2 <= k <= T ensures StartupRow(Splice(a.x, b.x, T), Splice(a.u, b.u, T), k) {
      assert StartupRow(a.x, a.u, k) && StartupRow(b.x, b.u, k);
    }
  }

  lemma {:induction false} SpliceLastUptime(unit: ProductionUnit, maxTime: int, a: Column, b: Column, k: int)
    requires WindowsFit(unit, maxTime) && unit.minUptime <= k <= maxTime
    requires ColumnFeasible(unit, maxTime, a) && ColumnFeasible(unit, maxTime, b)
    requires !Redundant(a, maxTime) && !Redundant(b, maxTime) && BothShutReady(unit, a.x, b.x, maxTime)
    ensures UptimeRow(unit, Splice(a.x, b.x, maxTime), Splice(a.u, b.u, maxTime), k)
  {
    var lo := k - unit.minUptime + 1;
    assert UptimeRow(unit, a.x, a.u, k);
    SumOfSplice(a.u, b.u, maxTime, lo, k + 1);
    if k == maxTime {
      NoStartInRun(unit, maxTime, a);
      assert b.x(maxTime - 1) == 1.0 && b.u(maxTime) == 0.0;
      SumSingle(b.u, maxTime, maxTime + 1, maxTime);
    }
  }

  lemma {:induction false} NoStartInRun(unit: ProductionUnit, maxTime: int, a: Column)
    requires ColumnFeasible(unit, maxTime, a) && !Redundant(a, maxTime)
    requires 1 <= unit.minUptime < maxTime && On(a.x, maxTime - unit.minUptime, maxTime)
    ensures Sum(a.u, maxTime - unit.minUptime + 1, maxTime) == 0.0
  {
    forall k | maxTime - unit.minUptime + 1 <= k < maxTime ensures a.u(k) == 0.0 { assert a.x(k - 1) == 1.0; }
    SumZero(a.u, maxTime - unit.minUptime + 1, maxTime);
  }

  /** The start-up of a column, signalled in period 1 instead. */
  function StartFirst(c: Column): Column { Column(c.x, OneStart(1), c.p) }

  /** A redundant start-up is the only one, of a unit that goes down at most once. */
  lemma {:induction false} OnlyRedundant(unit: ProductionUnit, maxTime: int, c: Column, s: int)
    requires WindowsFit(unit, maxTime) && unit.minDowntime == maxTime && ColumnFeasible(unit, maxTime, c)
    requires 2 <= s <= maxTime && c.u(s) == 1.0 && c.x(s - 1) == 1.0
    ensures Off(c.u, 1, s) && Off(c.u, s + 1, maxTime + 1)
    ensures forall k :: 2 <= k <= maxTime ==> c.x(k) <= c.x(k - 1)
    ensures c.x(unit.minUptime) == 1.0
  {
    var L := unit.minUptime;
    assert DowntimeRow(unit, c.x, c.u, maxTime);
    OtherStartsAreZero(c.u, 1, maxTime + 1, s);
    forall k | 2 <= k <= maxTime ensures c.x(k) <= c.x(k - 1) { assert StartupRow(c.x, c.u, k); }
    if L < s { NoStartNoRise(unit, maxTime, c.x, c.u, L, s - 1); } else { StartStaysUp(unit, maxTime, c.x, c.u, s, L); }
  }

  lemma {:induction false} StartFirstFeasible(unit: ProductionUnit, maxTime: int, c: Column, s: int)
    requires WindowsFit(unit, maxTime) && unit.minDowntime == maxTime && ColumnFeasible(unit, maxTime, c)
    requires 2 <= s <= maxTime && c.u(s) == 1.0 && c.x(s - 1) == 1.0
    ensures ColumnFeasible(unit, maxTime, StartFirst(c))
  {
    var u := OneStart(1);
    OnlyRedundant(unit, maxTime, c, s);
    forall k | unit.minUptime <= k <= maxTime ensures UptimeRow(unit, c.x, u, k) {
      if k == unit.minUptime { SumSingle(u, 1, k + 1, 1); } else { SumZero(u, k - unit.minUptime + 1, k + 1); }
    }
    SumSingle(u, 1, maxTime + 1, 1);
    forall k | 1 <= k <= maxTime ensures ProductionRows(unit, StartFirst(c), k) {
      SameProduction(unit, c, StartFirst(c), k);
    }
  }

  /** Unit `j` signals its redundant start-up in period 1. */
  function WithStartFirst(s: Schedule, j: int): Schedule {
    Schedule(k => if k == j then StartFirst(s.unit(j)) else s.unit(k))
  }

  lemma {:induction false} StartFirstTerms(units: seq<ProductionUnit>, s: Schedule, j: int, t: int)
    requires 1 <= j <= |units|
    ensures PeriodCosts(units, WithStartFirst(s, j))(t)
         == PeriodCosts(units, s)(t) + units[j - 1].startupCost * (OneStart(1)(t) - s.unit(j).u(t))
    ensures Sum(ProductionIn(WithStartFirst(s, j), t), 1, |units| + 1) == Sum(ProductionIn(s, t), 1, |units| + 1)
  {
    var s' := WithStartFirst(s, j);
    assert s'.unit(j) == StartFirst(s.unit(j));
    SumChanged(UnitCosts(units, s, t), UnitCosts(units, s', t), 1, |units| + 1, j);
    SumCongruent(ProductionIn(s, t), ProductionIn(s', t), 1, |units| + 1);
  }

  lemma {:induction false} StartFirstCost(units: seq<ProductionUnit>, maxTime: int, s: Schedule, j: int, k: int)
    requires 1 <= j <= |units| && 2 <= k <= maxTime && s.unit(j).u(k) == 1.0
    requires Off(s.unit(j).u, 1, k) && Off(s.unit(j).u, k + 1, maxTime + 1)
    ensures Sum(PeriodCosts(units, WithStartFirst(s, j)), 1, maxTime + 1) == Sum(PeriodCosts(units, s), 1, maxTime + 1)
  {
    var costs, costs' := PeriodCosts(units, s), PeriodCosts(units, WithStartFirst(s, j));
    forall t ensures costs'(t) == costs(t) + units[j - 1].startupCost * (OneStart(1)(t) - s.unit(j).u(t)) {
      StartFirstTerms(units, s, j, t);
    }
    MovedTerm(costs, costs', units[j - 1].startupCost, s.unit(j).u, k, maxTime);
  }

  lemma {:induction false} OneColumnReplaced(inst: Instance, s: Schedule, j: int)
    requires Feasible(inst, s) && 1 <= j <= |Units(inst.groups)|
    requires ColumnFeasible(Units(inst.groups)[j - 1], inst.maxTime, StartFirst(s.unit(j)))
    ensures Feasible(inst, WithStartFirst(s, j))
  {
    var units, s' := Units(inst.groups), WithStartFirst(s, j);
    forall i | 1 <= i <= |units| ensures ColumnFeasible(units[i - 1], inst.maxTime, s'.unit(i)) {
      assert ColumnFeasible(units[i - 1], inst.maxTime, s.unit(i));
    }
    forall t ensures DemandRow(inst, s', t) <==> DemandRow(inst, s, t) { StartFirstTerms(units, s, j, t); }
  }

  lemma {:induction false} MovedTerm(f: int -> real, g: int -> real, c: real, u: int -> real, s: int, n: int)
    requires 2 <= s <= n && u(s) == 1.0 && Off(u, 1, s) && Off(u, s + 1, n + 1)
    requires forall t :: g(t) == f(t) + c * (OneStart(1)(t) - u(t))
    ensures Sum(g, 1, n + 1) == Sum(f, 1, n + 1)
  {
    SumTraded(f, g, 1, n + 1, 1, s);
  }

  // ---------- repairing all rows by finitely many trades ----------

  /** Units `j` and `j + 1` trade tails from period `t` on, or unit `j` signals a redundant start-up in period 1. */
  datatype Trade = Tails(t: int, j: int) | EarlyStart(j: int)

  function ApplyTrade(s: Schedule, trade: Trade): Schedule {
    match trade
    case Tails(t, j) => SwapTails(s, t, j, j + 1)
    case EarlyStart(j) => WithStartFirst(s, j)
  }

  lemma {:induction false} TailsAreSwapped(s: Schedule, t: int, j: int)
    ensures ApplyTrade(s, Tails(t, j)) == SwapTails(s, t, j, j + 1)
  {
  }

  function ApplyTrades(s: Schedule, trades: seq<Trade>): Schedule
    decreases |trades|
  {
    if trades == [] then s else ApplyTrades(ApplyTrade(s, trades[0]), trades[1..])
  }

  /** Inside the horizon, between neighbours of one group that are in the same sub-state or trade everything. */
  ghost predicate Admissible(inst: Instance, s: Schedule, trade: Trade) {
    match trade
    case Tails(t, j) =>
      && 1 <= t <= inst.maxTime
      && exists g: nat ::
           Neighbours(inst.groups, g, j) && (t == 1 || SameSubState(inst.groups[g].unit, s.unit(j), s.unit(j + 1), t))
    case EarlyStart(j) =>
      1 <= j <= |Units(inst.groups)| && Redundant(s.unit(j), inst.maxTime)
  }

  /** Every trade is admissible and leads from a feasible schedule to a feasible one of equal cost. */
  ghost predicate AllAdmissible(inst: Instance, s: Schedule, trades: seq<Trade>)
    decreases |trades|
  {
    Feasible(inst, s) && (trades != [] ==>
      var next := ApplyTrade(s, trades[0]);
      Admissible(inst, s, trades[0]) && Cost(inst, next) == Cost(inst, s) && AllAdmissible(inst, next, trades[1..]))
  }

  lemma {:induction false} NeighboursAreIdentical(inst: Instance, g: nat, j: int)
    requires Fits(inst) && Neighbours(inst.groups, g, j)
    ensures 1 <= j < j + 1 <= |Units(inst.groups)|
    ensures Units(inst.groups)[j - 1] == Units(inst.groups)[j] == inst.groups[g].unit
    ensures WindowsFit(inst.groups[g].unit, inst.maxTime) && inst.groups[g].count >= 2
  {
    UnitsOfGroup(inst.groups, g, j);
    UnitsOfGroup(inst.groups, g, j + 1);
  }

  ghost predicate Keeps(inst: Instance, s: Schedule, trade: Trade) {
    var next := ApplyTrade(s, trade);
    Admissible(inst, s, trade) && Feasible(inst, next) && Cost(inst, next) == Cost(inst, s)
  }

  /** A trade that leaves both columns feasible keeps the schedule feasible, at equal cost. */
  lemma {:induction false} SpliceKeeps(inst: Instance, s: Schedule, g: nat, j: int, t: int)
    requires Fits(inst) && Feasible(inst, s) && Neighbours(inst.groups, g, j)
    requires Admissible(inst, s, Tails(t, j))
    requires ColumnFeasible(inst.groups[g].unit, inst.maxTime, SpliceColumn(s.unit(j), s.unit(j + 1), t))
    requires ColumnFeasible(inst.groups[g].unit, inst.maxTime, SpliceColumn(s.unit(j + 1), s.unit(j), t))
    ensures Keeps(inst, s, Tails(t, j))
  {
    TailsAreSwapped(s, t, j);
    NeighboursAreIdentical(inst, g, j);
    SwapKeeps(inst, s, t, j, j + 1);
  }

  lemma {:induction false} SplicedColumns(inst: Instance, s: Schedule, g: nat, j: int, t: int)
    requires Fits(inst) && Feasible(inst, s) && Neighbours(inst.groups, g, j)
    requires var a, b := s.unit(j), s.unit(j + 1);
             && OnOffRows(inst.groups[g].unit, inst.maxTime, Splice(a.x, b.x, t), Splice(a.u, b.u, t))
             && OnOffRows(inst.groups[g].unit, inst.maxTime, Splice(b.x, a.x, t), Splice(b.u, a.u, t))
    ensures ColumnFeasible(inst.groups[g].unit, inst.maxTime, SpliceColumn(s.unit(j), s.unit(j + 1), t))
    ensures ColumnFeasible(inst.groups[g].unit, inst.maxTime, SpliceColumn(s.unit(j + 1), s.unit(j), t))
  {
    FeasibleColumns(inst, s, g, j);
    SplicedProduction(inst.groups[g].unit, inst.maxTime, s.unit(j), s.unit(j + 1), t);
    SplicedProduction(inst.groups[g].unit, inst.maxTime, s.unit(j + 1), s.unit(j), t);
  }

  lemma {:induction false} FeasibleColumns(inst: Instance, s: Schedule, g: nat, j: int)
    requires Fits(inst) && Feasible(inst, s) && Neighbours(inst.groups, g, j)
    ensures ColumnFeasible(inst.groups[g].unit, inst.maxTime, s.unit(j))
    ensures ColumnFeasible(inst.groups[g].unit, inst.maxTime, s.unit(j + 1))
  {
    NeighboursAreIdentical(inst, g, j);
  }

  /** In the last period they can trade when the down-time is the whole horizon and no start-up is redundant. */
  lemma {:induction false} LastTradeKeeps(inst: Instance, s: Schedule, g: nat, j: int)
    requires Fits(inst) && Feasible(inst, s) && Neighbours(inst.groups, g, j)
    requires inst.groups[g].unit.minDowntime == inst.maxTime
    requires !Redundant(s.unit(j), inst.maxTime) && !Redundant(s.unit(j + 1), inst.maxTime)
    requires BothShutReady(inst.groups[g].unit, s.unit(j).x, s.unit(j + 1).x, inst.maxTime)
    ensures Keeps(inst, s, Tails(inst.maxTime, j))
  {
    var unit, a, b := inst.groups[g].unit, s.unit(j), s.unit(j + 1);
    NeighboursAreIdentical(inst, g, j);
    FeasibleColumns(inst, s, g, j);
    SpliceLast(unit, inst.maxTime, a, b);
    SpliceLast(unit, inst.maxTime, b, a);
    assert SameSubState(unit, a, b, inst.maxTime);
    SplicedColumns(inst, s, g, j, inst.maxTime);
    SpliceKeeps(inst, s, g, j, inst.maxTime);
  }

  // ---------- trades of units without a down-time ----------

  /** The down-time rows of such units are empty; what is left is the start-up row where the curves meet. */
  lemma {:induction false} SpliceAnywhere(unit: ProductionUnit, maxTime: int, x1: int -> real, u1: int -> real,
                                          x2: int -> real, u2: int -> real, t: int)
    requires WindowsFit(unit, maxTime) && unit.minDowntime == 0
    requires OnOffRows(unit, maxTime, x1, u1) && OnOffRows(unit, maxTime, x2, u2)
    requires 2 <= t <= maxTime ==> u2(t) >= x2(t) - x1(t - 1)
    requires forall k :: unit.minUptime <= k <= maxTime ==> UptimeRow(unit, Splice(x1, x2, t), Splice(u1, u2, t), k)
    ensures OnOffRows(unit, maxTime, Splice(x1, x2, t), Splice(u1, u2, t))
  {
    var x, u := Splice(x1, x2, t), Splice(u1, u2, t);
    forall k | 2 <= k <= maxTime ensures StartupRow(x, u, k) {
      assert StartupRow(x1, u1, k) && StartupRow(x2, u2, k);
    }
    forall k | 0 <= k <= maxTime ensures DowntimeRow(unit, x, u, k) { assert 0 < k ==> Binary(x(k)); }
  }

  /** With an up-time of 1, tails can be traded where only the first unit is up, if it was not the only one before. */
  lemma {:induction false} SpliceUnitRuns(unit: ProductionUnit, maxTime: int, x1: int -> real, u1: int -> real,
                                          x2: int -> real, u2: int -> real, t: int)
    requires WindowsFit(unit, maxTime) && unit.minDowntime == 0 && unit.minUptime == 1 && 1 <= t <= maxTime
    requires OnOffRows(unit, maxTime, x1, u1) && OnOffRows(unit, maxTime, x2, u2)
    requires x1(t) == 1.0 && x2(t) == 0.0 && (2 <= t ==> x1(t - 1) <= x2(t - 1))
    ensures OnOffRows(unit, maxTime, Splice(x1, x2, t), Splice(u1, u2, t))
    ensures OnOffRows(unit, maxTime, Splice(x2, x1, t), Splice(u2, u1, t))
  {
    if 2 <= t { assert StartupRow(x1, u1, t) && Binary(x1(t - 1)) && Binary(u2(t)); }
    forall k | 1 <= k <= maxTime
      ensures UptimeRow(unit, Splice(x1, x2, t), Splice(u1, u2, t), k)
      ensures UptimeRow(unit, Splice(x2, x1, t), Splice(u2, u1, t), k)
    {
      assert UptimeRow(unit, x1, u1, k) && UptimeRow(unit, x2, u2, k);
      SumOfSplice(u1, u2, t, k, k + 1);
      SumOfSplice(u2, u1, t, k, k + 1);
    }
    SpliceAnywhere(unit, maxTime, x1, u1, x2, u2, t);
    SpliceAnywhere(unit, maxTime, x2, u2, x1, u1, t);
  }

  /** With two periods and an up-time of 2, they can trade the second one if the first unit starts in it. */
  lemma {:induction false} SpliceTwoPeriods(unit: ProductionUnit, x1: int -> real, u1: int -> real,
                                            x2: int -> real, u2: int -> real)
    requires unit.minDowntime == 0 && unit.minUptime == 2
    requires OnOffRows(unit, 2, x1, u1) && OnOffRows(unit, 2, x2, u2)
    requires x1(1) == 0.0 && x1(2) == 1.0 && x2(2) == 0.0
    ensures OnOffRows(unit, 2, Splice(x1, x2, 2), Splice(u1, u2, 2))
    ensures OnOffRows(unit, 2, Splice(x2, x1, 2), Splice(u2, u1, 2))
  {
    assert StartupRow(x1, u1, 2) && UptimeRow(unit, x1, u1, 2) && UptimeRow(unit, x2, u2, 2);
    TwoStarts(u1);
    TwoStarts(u2);
    TwoStarts(Splice(u1, u2, 2));
    TwoStarts(Splice(u2, u1, 2));
    SpliceAnywhere(unit, 2, x1, u1, x2, u2, 2);
    SpliceAnywhere(unit, 2, x2, u2, x1, u1, 2);
  }

  lemma TwoStarts(u: int -> real)
    ensures Sum(u, 1, 3) == u(1) + u(2)
  {
    assert Sum(u, 1, 2) == u(1);
  }

  /** The first unit is up and the second is not. */
  predicate OnlyFirstUp(a: Column, b: Column, t: int) { a.x(t) == 1.0 && b.x(t) == 0.0 }

  lemma {:induction false} FirstExcess(a: Column, b: Column, t: int) returns (r: int)
    requires 1 <= t && OnlyFirstUp(a, b, t)
    ensures 1 <= r <= t && OnlyFirstUp(a, b, r) && forall k :: 1 <= k < r ==> !OnlyFirstUp(a, b, k)
    decreases t
  {
    r := t;
    if k :| 1 <= k < t && OnlyFirstUp(a, b, k) { r := FirstExcess(a, b, k); }
  }

  // ---------- the measure ----------

  /** The rows of `x` that are read for a unit start after this one. */
  function Skipped(units: seq<ProductionUnit>, maxTime: int, j: int): int {
    if 1 <= j <= |units| && units[j - 1].minDowntime == maxTime then units[j - 1].minUptime else 0
  }

  /** For ready-rows, a unit without a down-time is read from the last period. */
  predicate FromLast(f: Family, units: seq<ProductionUnit>, j: int) {
    f.ReadyRows? && 1 <= j <= |units| && units[j - 1].minDowntime == 0
  }

  /** The row-major reading of `x`: for ready-rows with the units in index order, for orbisacks in reverse. */
  function UpBits(f: Family, inst: Instance, s: Schedule): (int, int) -> bool {
    (t, i) => UpBit(f, inst, s, t, Index(f, inst, i))
  }

  function Index(f: Family, inst: Instance, i: int): int {
    if f.Orbisacks? then |Units(inst.groups)| + 1 - i else i
  }

  predicate UpBit(f: Family, inst: Instance, s: Schedule, t: int, j: int) {
    var units := Units(inst.groups);
    Skipped(units, inst.maxTime, j) < t && s.unit(j).x(if FromLast(f, units, j) then inst.maxTime + 1 - t else t) == 1.0
  }

  function UpValue(f: Family, inst: Instance, s: Schedule): nat {
    RowMajor.Value(UpBits(f, inst, s), |Units(inst.groups)|, inst.maxTime, |Units(inst.groups)|)
  }

  function ValueLimit(inst: Instance): nat {
    RowMajor.Limit(|Units(inst.groups)|, inst.maxTime, |Units(inst.groups)|)
  }

  /** How many of the first `n` units signal a redundant start-up. */
  ghost function RedundantStarts(inst: Instance, s: Schedule, n: nat): nat {
    if n == 0 then 0 else RedundantStarts(inst, s, n - 1) + if Redundant(s.unit(n), inst.maxTime) then 1 else 0
  }

  /** The reading grows, or stays the same with fewer redundant start-ups. */
  ghost predicate Improves(f: Family, inst: Instance, s: Schedule, next: Schedule) {
    var n := |Units(inst.groups)|;
    || UpValue(f, inst, s) < UpValue(f, inst, next) < ValueLimit(inst)
    || (UpValue(f, inst, s) == UpValue(f, inst, next) && RedundantStarts(inst, next, n) < RedundantStarts(inst, s, n))
  }

  /** The one of the neighbours `j` and `j + 1` that is read first, and the other one. */
  function ReadFirst(f: Family, j: int): int { if f.Orbisacks? then j + 1 else j }

  function ReadSecond(f: Family, j: int): int { if f.Orbisacks? then j else j + 1 }

  /** The earliest row that a trade changes is `r`, and the cell that is read first turns to 1. */
  ghost predicate FirstChange(f: Family, inst: Instance, s: Schedule, next: Schedule, j: int, r: nat) {
    && 1 <= j < |Units(inst.groups)| && 1 <= r <= inst.maxTime
    && (forall k, q :: k < r || (q != j && q != j + 1) ==> UpBit(f, inst, next, k, q) == UpBit(f, inst, s, k, q))
    && !UpBit(f, inst, s, r, ReadFirst(f, j)) && UpBit(f, inst, next, r, ReadFirst(f, j))
  }

  lemma {:induction false} ReadingGrows(f: Family, inst: Instance, s: Schedule, next: Schedule, j: int, r: nat)
    requires FirstChange(f, inst, s, next, j, r)
    ensures Improves(f, inst, s, next)
  {
    var n := |Units(inst.groups)|;
    var bits, bits' := UpBits(f, inst, s), UpBits(f, inst, next);
    var i := Index(f, inst, ReadFirst(f, j));
    assert Index(f, inst, i) == ReadFirst(f, j);
    forall k, i' | 1 <= k <= r && 1 <= i' <= n && (k < r || i' < i) ensures bits(k, i') == bits'(k, i') {
      assert UpBit(f, inst, next, k, Index(f, inst, i')) == UpBit(f, inst, s, k, Index(f, inst, i'));
    }
    RowMajor.FirstDifferenceDecides(bits, bits', n, r, i, inst.maxTime, n);
    RowMajor.ValueBelowLimit(bits', n, inst.maxTime, n);
  }

  /** The tails that are traded agree before `r` as far as they are read, and the trade turns the cell at `r` to 1. */
  lemma {:induction false} TradeImproves(f: Family, inst: Instance, s: Schedule, j: int, t: int, r: nat)
    requires 1 <= j < |Units(inst.groups)| && Units(inst.groups)[j - 1] == Units(inst.groups)[j]
    requires 1 <= t <= r <= inst.maxTime && Skipped(Units(inst.groups), inst.maxTime, j) < r
    requires !FromLast(f, Units(inst.groups), j)
    requires forall k :: t <= k < r && Skipped(Units(inst.groups), inst.maxTime, j) < k ==>
             s.unit(j).x(k) == s.unit(j + 1).x(k)
    requires s.unit(ReadFirst(f, j)).x(r) == 0.0 && s.unit(ReadSecond(f, j)).x(r) == 1.0
    ensures Improves(f, inst, s, ApplyTrade(s, Tails(t, j)))
  {
    var next := ApplyTrade(s, Tails(t, j));
    forall k, q | k < r || (q != j && q != j + 1) ensures UpBit(f, inst, next, k, q) == UpBit(f, inst, s, k, q) { }
    ReadingGrows(f, inst, s, next, j, r);
  }

  /** Whole columns that are read from the last period and agree after period `r`. */
  lemma {:induction false} ColumnTradeImproves(f: Family, inst: Instance, s: Schedule, j: int, r: nat)
    requires 1 <= j < |Units(inst.groups)| && Units(inst.groups)[j - 1] == Units(inst.groups)[j]
    requires FromLast(f, Units(inst.groups), j) && 1 <= r <= inst.maxTime
    requires forall k :: r < k <= inst.maxTime ==> s.unit(j).x(k) == s.unit(j + 1).x(k)
    requires s.unit(j).x(r) == 0.0 && s.unit(j + 1).x(r) == 1.0
    ensures Improves(f, inst, s, ApplyTrade(s, Tails(1, j)))
  {
    var next, T := ApplyTrade(s, Tails(1, j)), inst.maxTime;
    forall k, q | k < T + 1 - r || (q != j && q != j + 1)
      ensures UpBit(f, inst, next, k, q) == UpBit(f, inst, s, k, q) {
      assert next.unit(q) == s.unit(q) || q == j || q == j + 1;
    }
    ReadingGrows(f, inst, s, next, j, T + 1 - r);
  }

  lemma {:induction false} EarlyStartImproves(f: Family, inst: Instance, s: Schedule, j: int)
    requires 1 <= j <= |Units(inst.groups)| && Redundant(s.unit(j), inst.maxTime)
    ensures Improves(f, inst, s, WithStartFirst(s, j))
  {
    var n, next := |Units(inst.groups)|, WithStartFirst(s, j);
    RowMajor.EqualPrefix(UpBits(f, inst, s), UpBits(f, inst, next), n, inst.maxTime, n);
    FewerRedundant(inst, s, j, n);
  }

  lemma {:induction false} FewerRedundant(inst: Instance, s: Schedule, j: int, n: nat)
    requires 1 <= j && Redundant(s.unit(j), inst.maxTime)
    ensures RedundantStarts(inst, WithStartFirst(s, j), n) == RedundantStarts(inst, s, n) - if j <= n then 1 else 0
  {
    if n > 0 {
      FewerRedundant(inst, s, j, n - 1);
      assert !Redundant(StartFirst(s.unit(j)), inst.maxTime);
    }
  }

  // ---------- one step of repair ----------

  predicate ReadyRowsAt(inst: Instance, s: Schedule, g: nat, j: int, t: int) {
    StartUpReadyAt(inst, s, g, j, t) && ShutDownReadyAt(inst, s, g, j, t)
  }

  /** Where the tails of a violated orbisack first differ. */
  lemma {:induction false} OrbisackViolation(inst: Instance, s: Schedule, g: nat, j: int, t: int) returns (r: int)
    requires Fits(inst) && Feasible(inst, s) && 1 <= t <= inst.maxTime && !OrbisacksAt(inst, s, g, j, t)
    ensures Neighbours(inst.groups, g, j) && SameSubState(inst.groups[g].unit, s.unit(j), s.unit(j + 1), t)
    ensures t <= r <= inst.maxTime && s.unit(j + 1).x(r) == 0.0 && s.unit(j).x(r) == 1.0
    ensures forall k :: t <= k < r ==> s.unit(j + 1).x(k) == s.unit(j).x(k)
  {
    FeasibleColumns(inst, s, g, j);
    r := LexViolation(s.unit(j + 1).x, s.unit(j).x, t, inst.maxTime);
  }

  ghost predicate Repairs(f: Family, inst: Instance, s: Schedule, trade: Trade) {
    Keeps(inst, s, trade) && Improves(f, inst, s, ApplyTrade(s, trade))
  }

  lemma {:induction false} LastDown(a: Column, t: int, last: int) returns (r: int)
    requires t <= last && a.x(t) == 0.0 && forall k :: t <= k <= last ==> Binary(a.x(k))
    ensures t <= r <= last && a.x(r) == 0.0 && forall k :: r < k <= last ==> a.x(k) == 1.0
    decreases last - t
  {
    r := t;
    if k :| t < k <= last && a.x(k) == 0.0 { r := LastDown(a, k, last); }
  }

  /** Without a down-time and with an up-time of 1, tails are traded where first only the first unit is up. */
  lemma {:induction false} UnitRunsRepair(inst: Instance, s: Schedule, g: nat, j: int, r: nat)
    requires Fits(inst) && Feasible(inst, s) && Neighbours(inst.groups, g, j)
    requires inst.groups[g].unit.minDowntime == 0 && inst.groups[g].unit.minUptime == 1
    requires 1 <= r <= inst.maxTime && OnlyFirstUp(s.unit(j), s.unit(j + 1), r)
    requires 2 <= r ==> !OnlyFirstUp(s.unit(j), s.unit(j + 1), r - 1)
    ensures Repairs(Orbisacks, inst, s, Tails(r, j))
  {
    var unit, a, b := inst.groups[g].unit, s.unit(j), s.unit(j + 1);
    NeighboursAreIdentical(inst, g, j);
    FeasibleColumns(inst, s, g, j);
    assert 2 <= r ==> !OnlyFirstUp(a, b, r - 1) && Binary(a.x(r - 1)) && Binary(b.x(r - 1));
    SpliceUnitRuns(unit, inst.maxTime, a.x, a.u, b.x, b.u, r);
    SplicedColumns(inst, s, g, j, r);
    SpliceKeeps(inst, s, g, j, r);
    TradeImproves(Orbisacks, inst, s, j, r, r);
  }

  /** Otherwise they trade the second period. */
  lemma {:induction false} SecondPeriodRepair(inst: Instance, s: Schedule, g: nat, j: int)
    requires Fits(inst) && Feasible(inst, s) && Neighbours(inst.groups, g, j) && inst.maxTime == 2
    requires inst.groups[g].unit.minDowntime == 0 && inst.groups[g].unit.minUptime == 2
    requires OnlyFirstUp(s.unit(j), s.unit(j + 1), 2) && s.unit(j).x(1) == 0.0
    ensures Repairs(Orbisacks, inst, s, Tails(2, j))
  {
    var unit, a, b := inst.groups[g].unit, s.unit(j), s.unit(j + 1);
    NeighboursAreIdentical(inst, g, j);
    FeasibleColumns(inst, s, g, j);
    SpliceTwoPeriods(unit, a.x, a.u, b.x, b.u);
    SplicedColumns(inst, s, g, j, 2);
    SpliceKeeps(inst, s, g, j, 2);
    TradeImproves(Orbisacks, inst, s, j, 2, 2);
  }

  ghost predicate CheapestAmong(inst: Instance, best: Schedule, family: Schedule -> bool) {
    && Feasible(inst, best) && family(best)
    && forall s :: Feasible(inst, s) && family(s) ==> Cost(inst, best) <= Cost(inst, s)
  }
}
