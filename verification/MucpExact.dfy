/** Which minimum times make the added rows lossless for every demand, cost and number of units. */
module MucpLossless {
  import opened Sums
  import opened Tails
  import opened Mucp
  import opened MucpColumn
  import opened MucpSymmetry
  import opened MucpTrades
  import opened MucpExamples

  /** With a down-time as long as the horizon and room for two runs and two breaks, the rows cut off the optimum. */
  lemma {:induction false} LongHorizonLoses(f: Family, L: int, T: nat)
    requires 1 <= L && 2 * L + 3 <= T
    ensures Feasible(Breaks(L, T), TwoBreaks(L)) && !Lossless(f, Breaks(L, T), TwoBreaks(L))
  {
    TwoBreaksFeasible(L, T);
    forall s | Feasible(Breaks(L, T), s) && Meets(f, Breaks(L, T), s)
      ensures Cost(Breaks(L, T), s) > Cost(Breaks(L, T), TwoBreaks(L))
    {
      if Cost(Breaks(L, T), s) <= Cost(Breaks(L, T), TwoBreaks(L)) { CheapestViolates(f, L, T, s); }
    }
  }

  /** The smallest case: five periods, a minimum up-time of one and a minimum down-time of five. */
  lemma FivePeriodsLose(f: Family)
    ensures Feasible(Breaks(1, 5), TwoBreaks(1)) && Cost(Breaks(1, 5), TwoBreaks(1)) == 8.0
    ensures forall s :: Feasible(Breaks(1, 5), s) && Meets(f, Breaks(1, 5), s) ==> Cost(Breaks(1, 5), s) > 8.0
  {
    LongHorizonLoses(f, 1, 5);
    TwoBreaksFeasible(1, 5);
    var d := BreakDemand(1);
    assert Sum(d, 1, 2) == 2.0 && Sum(d, 1, 3) == 3.0 && Sum(d, 1, 4) == 5.0 && Sum(d, 1, 5) == 6.0;
  }

  /** Without a down-time, a run longer than the up-time may start at either end; two such runs violate a row. */
  lemma {:induction false} LongRunLoses(L: int, T: nat)
    requires 1 <= L < T
    ensures Feasible(Eager(L, T), TwoRuns(L, T)) && !Lossless(ReadyRows, Eager(L, T), TwoRuns(L, T))
  {
    TwoRunsFeasible(L, T);
    forall s | Feasible(Eager(L, T), s) && Meets(ReadyRows, Eager(L, T), s)
      ensures Cost(Eager(L, T), s) > Cost(Eager(L, T), TwoRuns(L, T))
    {
      if Cost(Eager(L, T), s) <= Cost(Eager(L, T), TwoRuns(L, T)) {
        EagerViolates(L, T, s);
      }
    }
  }

  lemma {:induction false} MeetingRunsLose(L: int, T: nat)
    requires 2 <= L <= T && 3 <= T
    ensures Feasible(Meeting(L, T), MeetingRuns()) && !Lossless(Orbisacks, Meeting(L, T), MeetingRuns())
  {
    MeetingRunsFeasible(L, T);
    forall s | Feasible(Meeting(L, T), s) && Meets(Orbisacks, Meeting(L, T), s)
      ensures Cost(Meeting(L, T), s) > Cost(Meeting(L, T), MeetingRuns())
    {
      if Cost(Meeting(L, T), s) <= Cost(Meeting(L, T), MeetingRuns()) { MeetingViolates(L, T, s); }
    }
  }

  // ---------- the exact condition ----------

  /** For minimum times that fit the horizon, either family is lossless for all data exactly when these times are. */
  lemma LosslessExactly(f: Family, minUptime: int, minDowntime: int, maxTime: nat)
    requires 1 <= minUptime <= maxTime && 0 <= minDowntime <= maxTime
    ensures AlwaysLossless(f, minUptime, minDowntime, maxTime) <==> LosslessTimes(f, minUptime, minDowntime, maxTime)
  {
    if LosslessTimes(f, minUptime, minDowntime, maxTime) {
      TimesAreLossless(f, minUptime, minDowntime, maxTime);
    } else if minDowntime > 0 {
      LongHorizonLoses(f, minUptime, maxTime);
    } else if f.ReadyRows? {
      LongRunLoses(minUptime, maxTime);
    } else {
      MeetingRunsLose(minUptime, maxTime);
    }
  }
}

/** Pairs of units whose cheapest schedules are known, for each way of losing them. */
module MucpExamples {
  import opened Sums
  import opened Tails
  import opened Mucp
  import opened MucpColumn
  import opened MucpSymmetry
  import opened MucpTrades

  /** Some schedule that is at most as expensive meets the rows. */
  ghost predicate Lossless(f: Family, inst: Instance, s: Schedule) {
    exists s' :: Feasible(inst, s') && Meets(f, inst, s') && Cost(inst, s') <= Cost(inst, s)
  }

  function OneGroup(unit: ProductionUnit, count: nat, maxTime: nat, demand: int -> real): Instance {
    Instance(maxTime, demand, [Group(unit, count)])
  }

  ghost predicate AlwaysLossless(f: Family, minUptime: int, minDowntime: int, maxTime: nat) {
    forall unit: ProductionUnit, count: nat, demand, s ::
      unit.minUptime == minUptime && unit.minDowntime == minDowntime
        && Feasible(OneGroup(unit, count, maxTime, demand), s)
      ==> Lossless(f, OneGroup(unit, count, maxTime, demand), s)
  }

  lemma TimesAreLossless(f: Family, minUptime: int, minDowntime: int, maxTime: nat)
    requires 1 <= minUptime <= maxTime && 0 <= minDowntime <= maxTime
    requires LosslessTimes(f, minUptime, minDowntime, maxTime)
    ensures AlwaysLossless(f, minUptime, minDowntime, maxTime)
  {
    forall unit: ProductionUnit, count: nat, demand, s | unit.minUptime == minUptime && unit.minDowntime == minDowntime
                                         && Feasible(OneGroup(unit, count, maxTime, demand), s)
      ensures Lossless(f, OneGroup(unit, count, maxTime, demand), s)
    {
      var inst := OneGroup(unit, count, maxTime, demand);
      assert WellFormed(f, inst);
      match f
      case ReadyRows =>
        var trades := ReadyRowsLoseNothing(inst, s);
        assert Meets(f, inst, ApplyTrades(s, trades));
      case Orbisacks =>
        var trades := OrbisacksLoseNothing(inst, s);
        assert Meets(f, inst, ApplyTrades(s, trades));
    }
  }

  // ---------- two units that must meet each demand exactly ----------

  /** Produces one when up, for the same cost in every period. */
  function PlainUnit(L: int, l: int): ProductionUnit { ProductionUnit(1.0, 1.0, L, l, 1.0, 0.0, 0.0) }

  function Pair(unit: ProductionUnit, T: nat, demand: int -> real): Instance { OneGroup(unit, 2, T, demand) }

  lemma PairUnits(unit: ProductionUnit, T: nat, demand: int -> real)
    ensures Units(Pair(unit, T, demand).groups) == [unit, unit]
    ensures Neighbours(Pair(unit, T, demand).groups, 0, 1)
  {
    var groups := Pair(unit, T, demand).groups;
    assert groups[..0] == [] && Units(groups[..0]) == [];
    assert FirstIndex(groups, 0) == 1 && FirstIndex(groups, 1) == 3;
  }

  lemma SumOfTwo(f: int -> real)
    ensures Sum(f, 1, 3) == f(1) + f(2)
  {
    assert Sum(f, 1, 2) == Sum(f, 1, 1) + f(1);
  }

  /** How many of two units are up. */
  function Ups(s: Schedule): int -> real { t => s.unit(1).x(t) + s.unit(2).x(t) }

  /** What two units that produce one when up produce and cost in a period. */
  lemma {:induction false} PairPeriod(unit: ProductionUnit, T: nat, demand: int -> real, s: Schedule, t: int)
    requires Feasible(Pair(unit, T, demand), s) && 1 <= t <= T
    requires unit.minProduction == 1.0 == unit.maxProduction && unit.productionCost == 0.0
    ensures PeriodCosts([unit, unit], s)(t)
            == unit.fixedUptimeCost * Ups(s)(t) + unit.startupCost * (s.unit(1).u(t) + s.unit(2).u(t))
    ensures Ups(s)(t) >= demand(t)
    ensures Binary(s.unit(1).x(t)) && Binary(s.unit(2).x(t)) && Binary(s.unit(1).u(t)) && Binary(s.unit(2).u(t))
  {
    var inst, units := Pair(unit, T, demand), [unit, unit];
    PairUnits(unit, T, demand);
    SumOfTwo(UnitCosts(units, s, t));
    SumOfTwo(ProductionIn(s, t));
    assert ColumnFeasible(units[0], T, s.unit(1)) && ColumnFeasible(units[1], T, s.unit(2));
    assert ProductionRows(unit, s.unit(1), t) && ProductionRows(unit, s.unit(2), t);
    assert DemandRow(inst, s, t);
  }

  lemma {:induction false} PlainCost(L: int, l: int, T: nat, demand: int -> real, s: Schedule)
    requires Feasible(Pair(PlainUnit(L, l), T, demand), s)
    ensures Cost(Pair(PlainUnit(L, l), T, demand), s) == Sum(Ups(s), 1, T + 1)
    ensures forall t :: 1 <= t <= T ==> demand(t) <= Ups(s)(t)
  {
    var unit := PlainUnit(L, l);
    var costs := PeriodCosts([unit, unit], s);
    PairUnits(unit, T, demand);
    forall t | 1 <= t <= T ensures costs(t) == Ups(s)(t) && demand(t) <= Ups(s)(t) {
      PairPeriod(unit, T, demand, s, t);
    }
    SumCongruent(costs, Ups(s), 1, T + 1);
  }

  /** No schedule is cheaper than the demand, and one of that cost covers each demand exactly. */
  lemma {:induction false} CheapestCovers(L: int, l: int, T: nat, demand: int -> real, s: Schedule, t: int)
    requires Feasible(Pair(PlainUnit(L, l), T, demand), s) && 1 <= t <= T
    requires Cost(Pair(PlainUnit(L, l), T, demand), s) <= Sum(demand, 1, T + 1)
    ensures Ups(s)(t) == demand(t)
  {
    PlainCost(L, l, T, demand, s);
    SumGap(demand, Ups(s), 1, T + 1, t, Ups(s)(t) - demand(t));
  }

  // ---------- each with one break ----------

  function BreakDemand(L: int): int -> real { t => if t == L + 1 || t == 2 * L + 2 then 1.0 else 2.0 }

  function Breaks(L: int, T: nat): Instance { Pair(PlainUnit(L, T), T, BreakDemand(L)) }

  /** Up except in period `c`. */
  function BreakAt(c: int): int -> real { t => if t == c then 0.0 else 1.0 }

  function BreakColumn(c: int): Column { Column(BreakAt(c), OneStart(c + 1), BreakAt(c)) }

  function TwoBreaks(L: int): Schedule { Schedule(j => if j == 1 then BreakColumn(L + 1) else BreakColumn(2 * L + 2)) }

  lemma {:induction false} BreakRows(L: int, T: nat, c: int)
    requires 1 <= L && L < c < T
    ensures ColumnFeasible(PlainUnit(L, T), T, BreakColumn(c))
  {
    var unit, x, u := PlainUnit(L, T), BreakAt(c), OneStart(c + 1);
    forall k | L <= k <= T ensures UptimeRow(unit, x, u, k) {
      if k - L + 1 <= c + 1 <= k { SumSingle(u, k - L + 1, k + 1, c + 1); } else { SumZero(u, k - L + 1, k + 1); }
    }
    SumSingle(u, 1, T + 1, c + 1);
  }

  lemma {:induction false} TwoBreaksFeasible(L: int, T: nat)
    requires 1 <= L && 2 * L + 3 <= T
    ensures Feasible(Breaks(L, T), TwoBreaks(L))
    ensures Cost(Breaks(L, T), TwoBreaks(L)) == Sum(BreakDemand(L), 1, T + 1)
  {
    var inst, s := Breaks(L, T), TwoBreaks(L);
    PairUnits(PlainUnit(L, T), T, BreakDemand(L));
    BreakRows(L, T, L + 1);
    BreakRows(L, T, 2 * L + 2);
    forall t | 1 <= t <= T ensures DemandRow(inst, s, t) { SumOfTwo(ProductionIn(s, t)); }
    assert Feasible(inst, s);
    PlainCost(L, T, T, BreakDemand(L), s);
    SumCongruent(Ups(s), BreakDemand(L), 1, T + 1);
  }

  /** A feasible column that is up except perhaps in the two critical periods goes down in one of them at most. */
  lemma {:induction false} OneBreakEach(L: int, T: nat, c: Column)
    requires 1 <= L && 2 * L + 3 <= T && ColumnFeasible(PlainUnit(L, T), T, c)
    requires forall t :: 1 <= t <= T && t != L + 1 && t != 2 * L + 2 ==> c.x(t) == 1.0
    ensures c.x(L + 1) == 1.0 || c.x(2 * L + 2) == 1.0
    ensures forall d :: (d == L + 1 || d == 2 * L + 2) && c.x(d) == 0.0 ==> Off(c.u, 1, d + 1) && Off(c.u, d + 2, T + 1)
  {
    assert DowntimeRow(PlainUnit(L, T), c.x, c.u, T);
    forall d | (d == L + 1 || d == 2 * L + 2) && c.x(d) == 0.0
      ensures c.u(d + 1) == 1.0 && Off(c.u, 1, d + 1) && Off(c.u, d + 2, T + 1)
    {
      assert StartupRow(c.x, c.u, d + 1);
      OtherStartsAreZero(c.u, 1, T + 1, d + 1);
    }
  }

  /** The first unit stops at `c` while the second stays up: a violated shut-down-ready row. */
  lemma {:induction false} StopViolates(L: int, T: nat, a: Column, b: Column, c: int)
    requires 1 <= L && L < c <= T && Binary(a.u(c))
    requires a.x(c - 1) == 1.0 && a.x(c) == 0.0 && b.x(c - 1) == 1.0 && b.x(c) == 1.0 && Off(b.u, c - L + 1, c)
    ensures !ShutDownReadyRow(PlainUnit(L, T), a, b, c)
  {
    ShutDownsTelescope(b, c - L + 1, c);
    SumZero(b.u, c - L + 1, c);
  }

  /** One unit is down in one critical period, the other in the other; either order violates a row. */
  lemma {:induction false} BreaksViolate(f: Family, L: int, T: nat, s: Schedule, c: int, d: int)
    requires 1 <= L && 2 * L + 3 <= T && Feasible(Breaks(L, T), s)
    requires (c == L + 1 && d == 2 * L + 2) || (c == 2 * L + 2 && d == L + 1)
    requires forall t :: 1 <= t <= T ==> s.unit(1).x(t) == BreakAt(c)(t) && s.unit(2).x(t) == BreakAt(d)(t)
    ensures !Meets(f, Breaks(L, T), s)
  {
    var inst, a, b := Breaks(L, T), s.unit(1), s.unit(2);
    PairUnits(PlainUnit(L, T), T, BreakDemand(L));
    assert ColumnFeasible(PlainUnit(L, T), T, a) && ColumnFeasible(PlainUnit(L, T), T, b);
    assert b.x(d) == 0.0;
    OneBreakEach(L, T, b);
    StopViolates(L, T, a, b, c);
    assert !ShutDownReadyAt(inst, s, 0, 1, c);
    assert !LexAtLeast(b.x, a.x, d, T);
    assert !OrbisacksAt(inst, s, 0, 1, d);
  }

  /** Every schedule that is as cheap as two breaks violates a row of either family. */
  lemma {:induction false} CheapestViolates(f: Family, L: int, T: nat, s: Schedule)
    requires 1 <= L && 2 * L + 3 <= T && Feasible(Breaks(L, T), s)
    requires Cost(Breaks(L, T), s) <= Cost(Breaks(L, T), TwoBreaks(L))
    ensures !Meets(f, Breaks(L, T), s)
  {
    var a, b := s.unit(1), s.unit(2);
    PairUnits(PlainUnit(L, T), T, BreakDemand(L));
    TwoBreaksFeasible(L, T);
    assert ColumnFeasible(PlainUnit(L, T), T, a) && ColumnFeasible(PlainUnit(L, T), T, b);
    forall t | 1 <= t <= T ensures a.x(t) + b.x(t) == BreakDemand(L)(t) && Binary(a.x(t)) && Binary(b.x(t)) {
      CheapestCovers(L, T, T, BreakDemand(L), s, t);
    }
    OneBreakEach(L, T, a);
    OneBreakEach(L, T, b);
    if a.x(L + 1) == 0.0 {
      BreaksViolate(f, L, T, s, L + 1, 2 * L + 2);
    } else {
      BreaksViolate(f, L, T, s, 2 * L + 2, L + 1);
    }
  }

  // ---------- without a down-time, ready-rows: two runs with a start-up at either end ----------

  /** A start-up earns one, and being up costs more than all start-ups earn. */
  function EagerUnit(L: int, T: nat): ProductionUnit {
    ProductionUnit(1.0, 1.0, L, 0, (2 * T) as real, -1.0, 0.0)
  }

  function LateDemand(L: int, T: nat): int -> real { t => if T - L <= t then 2.0 else 0.0 }

  function Eager(L: int, T: nat): Instance { Pair(EagerUnit(L, T), T, LateDemand(L, T)) }

  /** Up from period `T - L` on, with a start-up in the first and in the last period of that run. */
  function LateRun(L: int, T: nat): int -> real { t => if T - L <= t then 1.0 else 0.0 }

  function BothEnds(L: int, T: nat): int -> real { t => if t == T - L || t == T then 1.0 else 0.0 }

  function EagerColumn(L: int, T: nat): Column { Column(LateRun(L, T), BothEnds(L, T), LateRun(L, T)) }

  function TwoRuns(L: int, T: nat): Schedule { Schedule(j => EagerColumn(L, T)) }

  function Starts(s: Schedule): int -> real { t => s.unit(1).u(t) + s.unit(2).u(t) }

  lemma {:induction false} EagerRows(L: int, T: nat)
    requires 1 <= L < T
    ensures ColumnFeasible(EagerUnit(L, T), T, EagerColumn(L, T))
  {
    var unit, x, u := EagerUnit(L, T), LateRun(L, T), BothEnds(L, T);
    forall k | L <= k <= T ensures UptimeRow(unit, x, u, k) {
      if k == T {
        SumSingle(u, k - L + 1, k + 1, T);
      } else if T - L <= k {
        SumSingle(u, k - L + 1, k + 1, T - L);
      } else {
        SumZero(u, k - L + 1, k + 1);
      }
    }
  }

  /** What `amount` units cost that are up. */
  function UpCosts(T: nat, amount: int -> real): int -> real { t => (2 * T) as real * amount(t) }

  lemma {:induction false} EagerPeriod(L: int, T: nat, s: Schedule, t: int)
    requires Feasible(Eager(L, T), s) && 1 <= t <= T
    ensures UpCosts(T, Ups(s))(t) == PeriodCosts([EagerUnit(L, T), EagerUnit(L, T)], s)(t) + Starts(s)(t)
  {
    PairPeriod(EagerUnit(L, T), T, LateDemand(L, T), s, t);
  }

  lemma {:induction false} EagerCost(L: int, T: nat, s: Schedule)
    requires Feasible(Eager(L, T), s)
    ensures Cost(Eager(L, T), s) + Sum(Starts(s), 1, T + 1) == Sum(UpCosts(T, Ups(s)), 1, T + 1)
  {
    var unit := EagerUnit(L, T);
    var costs, upCosts := PeriodCosts([unit, unit], s), UpCosts(T, Ups(s));
    PairUnits(unit, T, LateDemand(L, T));
    forall t | 1 <= t < T + 1 ensures upCosts(t) == costs(t) + Starts(s)(t) { EagerPeriod(L, T, s, t); }
    SumPlus(costs, Starts(s), upCosts, 1, T + 1);
  }

  lemma {:induction false} StartsAtMost(s: Schedule, n: nat)
    requires forall t :: 1 <= t <= n ==> Starts(s)(t) <= 2.0
    ensures Sum(Starts(s), 1, n + 1) <= (2 * n) as real
  {
    if n > 0 { StartsAtMost(s, n - 1); }
  }

  lemma {:induction false} TwoRunsFeasible(L: int, T: nat)
    requires 1 <= L < T
    ensures Feasible(Eager(L, T), TwoRuns(L, T))
    ensures Cost(Eager(L, T), TwoRuns(L, T)) == Sum(UpCosts(T, LateDemand(L, T)), 1, T + 1) - 4.0
  {
    var inst, s := Eager(L, T), TwoRuns(L, T);
    PairUnits(EagerUnit(L, T), T, LateDemand(L, T));
    EagerRows(L, T);
    forall t | 1 <= t <= T ensures DemandRow(inst, s, t) { SumOfTwo(ProductionIn(s, t)); }
    EagerCost(L, T, s);
    SumCongruent(UpCosts(T, Ups(s)), UpCosts(T, LateDemand(L, T)), 1, T + 1);
    SumTwo(Starts(s), 1, T + 1, T - L, T);
  }

  lemma {:induction false} UpCostsGrow(T: nat, need: int -> real, ups: int -> real, t: int)
    requires need(t) <= ups(t) && Whole(need(t)) && Whole(ups(t))
    ensures UpCosts(T, need)(t) <= UpCosts(T, ups)(t)
    ensures need(t) < ups(t) ==> UpCosts(T, need)(t) + (2 * T) as real <= UpCosts(T, ups)(t)
  {
  }

  predicate Whole(a: real) { a == 0.0 || a == 1.0 || a == 2.0 }

  /** A schedule that is as cheap is up exactly where it must be, and starts as often. */
  lemma {:induction false} EagerCovers(L: int, T: nat, s: Schedule, t: int)
    requires 1 <= L < T && Feasible(Eager(L, T), s) && 1 <= t <= T
    requires Cost(Eager(L, T), s) <= Cost(Eager(L, T), TwoRuns(L, T))
    ensures Ups(s)(t) == LateDemand(L, T)(t) && Sum(Starts(s), 1, T + 1) >= 4.0
  {
    var demand, ups := LateDemand(L, T), Ups(s);
    var low, high := UpCosts(T, demand), UpCosts(T, ups);
    forall k | 1 <= k <= T ensures demand(k) <= ups(k) && low(k) <= high(k) && Starts(s)(k) <= 2.0 {
      PairPeriod(EagerUnit(L, T), T, demand, s, k);
      UpCostsGrow(T, demand, ups, k);
    }
    TwoRunsFeasible(L, T);
    EagerCost(L, T, s);
    StartsAtMost(s, T);
    SumMonotone(low, high, 1, T + 1);
    if ups(t) > demand(t) {
      PairPeriod(EagerUnit(L, T), T, demand, s, t);
      UpCostsGrow(T, demand, ups, t);
      SumGap(low, high, 1, T + 1, t, (2 * T) as real);
    }
  }

  /** Such a column starts at most once before the last period. */
  lemma {:induction false} OneStartBeforeLast(L: int, T: nat, c: Column)
    requires 1 <= L < T && ColumnFeasible(EagerUnit(L, T), T, c)
    requires forall t :: 1 <= t <= T ==> c.x(t) == LateRun(L, T)(t)
    ensures Sum(c.u, 1, T) <= 1.0
  {
    var unit := EagerUnit(L, T);
    assert UptimeRow(unit, c.x, c.u, T - 1);
    if T - L >= 2 {
      assert StartupRow(c.x, c.u, T - L);
      forall t | 1 <= t < T - L ensures c.u(t) == 0.0 {
        var k := if t < L then L else t;
        assert UptimeRow(unit, c.x, c.u, k);
        if k < T - L {
          TermAtMostSum(c.u, k - L + 1, k + 1, t);
        } else {
          OtherStartsAreZero(c.u, 1, L + 1, T - L);
        }
      }
      SumZero(c.u, 1, T - L);
      SumSplit(c.u, 1, T - L, T);
    }
  }

  /** Two columns that both start in the last period of a long run violate a shut-down-ready row. */
  lemma {:induction false} LastStartViolates(L: int, T: nat, a: Column, b: Column)
    requires 1 <= L < T && ColumnFeasible(EagerUnit(L, T), T, b) && a.u(T) == 1.0 == b.u(T)
    requires forall t :: T - L <= t <= T ==> a.x(t) == 1.0 && b.x(t) == 1.0
    ensures !ShutDownReadyRow(EagerUnit(L, T), a, b, T)
  {
    assert UptimeRow(EagerUnit(L, T), b.x, b.u, T);
    ShutDownsTelescope(b, T - L + 1, T);
  }

  lemma {:induction false} EagerViolates(L: int, T: nat, s: Schedule)
    requires 1 <= L < T && Feasible(Eager(L, T), s) && Cost(Eager(L, T), s) <= Cost(Eager(L, T), TwoRuns(L, T))
    ensures !Meets(ReadyRows, Eager(L, T), s)
  {
    var unit, a, b := EagerUnit(L, T), s.unit(1), s.unit(2);
    PairUnits(unit, T, LateDemand(L, T));
    assert ColumnFeasible([unit, unit][0], T, a) && ColumnFeasible([unit, unit][1], T, b);
    forall t | 1 <= t <= T ensures a.x(t) == LateRun(L, T)(t) == b.x(t) { EagerCovers(L, T, s, t); }
    OneStartBeforeLast(L, T, a);
    OneStartBeforeLast(L, T, b);
    EagerCovers(L, T, s, T);
    SumPlus(a.u, b.u, Starts(s), 1, T + 1);
    LastStartViolates(L, T, a, b);
    assert !ShutDownReadyAt(Eager(L, T), s, 0, 1, T);
  }

  // ---------- without a down-time, orbisacks: two runs that meet in one period ----------

  function MeetingDemand(): int -> real { t => if t == 2 then 2.0 else 1.0 }

  function Meeting(L: int, T: nat): Instance { Pair(PlainUnit(L, 0), T, MeetingDemand()) }

  /** One unit is up until period 2, the other from period 2 on. */
  function UntilTwo(): int -> real { t => if t <= 2 then 1.0 else 0.0 }

  function FromTwo(): int -> real { t => if t >= 2 then 1.0 else 0.0 }

  function NoStart(): int -> real { t => 0.0 }

  function FirstRun(): Column { Column(UntilTwo(), NoStart(), UntilTwo()) }

  function SecondRun(): Column { Column(FromTwo(), OneStart(2), FromTwo()) }

  function MeetingRuns(): Schedule { Schedule(j => if j == 1 then FirstRun() else SecondRun()) }

  lemma {:induction false} RunRows(L: int, T: nat)
    requires 2 <= L <= T
    ensures ColumnFeasible(PlainUnit(L, 0), T, FirstRun()) && ColumnFeasible(PlainUnit(L, 0), T, SecondRun())
  {
    var unit, u := PlainUnit(L, 0), OneStart(2);
    forall k | L <= k <= T
      ensures UptimeRow(unit, UntilTwo(), NoStart(), k) && UptimeRow(unit, FromTwo(), u, k)
    {
      SumZero(NoStart(), k - L + 1, k + 1);
      if k - L + 1 <= 2 { SumSingle(u, k - L + 1, k + 1, 2); } else { SumZero(u, k - L + 1, k + 1); }
    }
  }

  lemma {:induction false} MeetingRunsFeasible(L: int, T: nat)
    requires 2 <= L <= T && 3 <= T
    ensures Feasible(Meeting(L, T), MeetingRuns())
    ensures Cost(Meeting(L, T), MeetingRuns()) == Sum(MeetingDemand(), 1, T + 1)
  {
    var inst, s := Meeting(L, T), MeetingRuns();
    PairUnits(PlainUnit(L, 0), T, MeetingDemand());
    RunRows(L, T);
    forall t | 1 <= t <= T ensures DemandRow(inst, s, t) { SumOfTwo(ProductionIn(s, t)); }
    PlainCost(L, 0, T, MeetingDemand(), s);
    SumCongruent(Ups(s), MeetingDemand(), 1, T + 1);
  }

  /** Sorting every period would leave one unit up in period 2 alone, against its up-time. */
  lemma {:induction false} MeetingViolates(L: int, T: nat, s: Schedule)
    requires 2 <= L <= T && 3 <= T && Feasible(Meeting(L, T), s)
    requires Cost(Meeting(L, T), s) <= Cost(Meeting(L, T), MeetingRuns())
    ensures !Meets(Orbisacks, Meeting(L, T), s)
  {
    var inst, unit, a, b := Meeting(L, T), PlainUnit(L, 0), s.unit(1), s.unit(2);
    PairUnits(unit, T, MeetingDemand());
    MeetingRunsFeasible(L, T);
    assert ColumnFeasible([unit, unit][0], T, a) && ColumnFeasible([unit, unit][1], T, b);
    forall t | 1 <= t <= T ensures a.x(t) + b.x(t) == MeetingDemand()(t) && Binary(a.x(t)) && Binary(b.x(t)) {
      CheapestCovers(L, 0, T, MeetingDemand(), s, t);
    }
    var k := if L <= 3 then 3 else L;
    assert StartupRow(a.x, a.u, 2) && UptimeRow(unit, a.x, a.u, k);
    TermAtMostSum(a.u, k - L + 1, k + 1, 2);
    assert a.x(1) == 1.0 || a.x(k) == 1.0;
    var t := if a.x(1) == 1.0 then 1 else k;
    assert !LexAtLeast(b.x, a.x, t, T);
    assert !OrbisacksAt(inst, s, 0, 1, t);
  }
}
