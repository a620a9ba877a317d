/** Single-item lot sizing: the (l,S) inequalities and the loop that separates them. */
module LotSizingCut {
  import opened Sums
  import opened Bits
  import WagnerWhitin
  import LotPrices

  datatype Instance = Instance(T: nat, f: int -> real, c: int -> real, d: int -> real, h: int -> real)

  datatype Point = Point(y: int -> real, x: int -> real, I: int -> real)

  /** D[t, ell], the demand from `t` to `ell`. */
  function Demand(inst: Instance, t: int, ell: int): real { Sum(inst.d, t, ell + 1) }

  function Stock(v: Point, t: int): real { if t == 0 then 0.0 else v.I(t) }

  /** Bounds and rows of one period; set-ups are fractional once they are relaxed. */
  predicate PeriodRows(inst: Instance, v: Point, t: int) {
    var M := Demand(inst, 1, inst.T);
    && 0.0 <= v.y(t) <= 1.0 && 0.0 <= v.x(t) <= M && 0.0 <= v.I(t)
    && v.x(t) <= M * v.y(t)
    && Stock(v, t - 1) + v.x(t) == v.I(t) + inst.d(t)
  }

  ghost predicate Relaxed(inst: Instance, v: Point) {
    forall t :: 1 <= t <= inst.T ==> PeriodRows(inst, v, t)
  }

  ghost predicate Integral(inst: Instance, v: Point) {
    Relaxed(inst, v) && forall t :: 1 <= t <= inst.T ==> Binary(v.y(t))
  }

  function PeriodCost(inst: Instance, v: Point, t: int): real {
    inst.f(t) * v.y(t) + inst.c(t) * v.x(t) + inst.h(t) * v.I(t)
  }

  function PeriodCosts(inst: Instance, v: Point): int -> real { t => PeriodCost(inst, v, t) }

  function Cost(inst: Instance, v: Point): real { Sum(PeriodCosts(inst, v), 1, inst.T + 1) }

  // ---------- the inequalities ----------

  /** The pair (ell, S): period `t` is in S when `inS[t - 1]`, and in L otherwise. */
  datatype Cut = Cut(ell: nat, inS: seq<bool>)

  function CutTerm(inst: Instance, cut: Cut, v: Point, t: int): real {
    if 1 <= t <= |cut.inS| && cut.inS[t - 1] then Demand(inst, t, cut.ell) * v.y(t) else v.x(t)
  }

  function CutTerms(inst: Instance, cut: Cut, v: Point): int -> real { t => CutTerm(inst, cut, v, t) }

  predicate CutHolds(inst: Instance, cut: Cut, v: Point) {
    Sum(CutTerms(inst, cut, v), 1, cut.ell + 1) >= Demand(inst, 1, cut.ell)
  }

  predicate IsCut(inst: Instance, cut: Cut) {
    1 <= cut.ell <= inst.T && |cut.inS| == cut.ell
  }

  ghost predicate NonNegativeDemand(inst: Instance) {
    forall t :: 1 <= t <= inst.T ==> 0.0 <= inst.d(t)
  }

  // ---------- every inequality is valid ----------

  /** What is produced up to `t` covers the demand up to `t`. */
  lemma {:induction false} ProductionCovers(inst: Instance, v: Point, t: nat)
    requires Relaxed(inst, v) && t <= inst.T
    ensures Sum(v.x, 1, t + 1) == Demand(inst, 1, t) + Stock(v, t) && 0.0 <= Stock(v, t)
  {
    if t > 0 {
      ProductionCovers(inst, v, t - 1);
      assert PeriodRows(inst, v, t);
    }
  }

  lemma DemandNonneg(inst: Instance, t: int, ell: int)
    requires NonNegativeDemand(inst) && 1 <= t && ell <= inst.T
    ensures 0.0 <= Demand(inst, t, ell)
  {
    SumNonneg(inst.d, t, ell + 1);
  }

  lemma TermNonneg(inst: Instance, cut: Cut, v: Point, t: int)
    requires NonNegativeDemand(inst) && Relaxed(inst, v) && IsCut(inst, cut) && 1 <= t <= cut.ell
    ensures 0.0 <= CutTerm(inst, cut, v, t)
  {
    assert PeriodRows(inst, v, t);
    DemandNonneg(inst, t, cut.ell);
    assert 0.0 <= Demand(inst, t, cut.ell) * v.y(t);
  }

  /** Up to the first set-up inside S, the cut counts all that is produced. */
  lemma {:induction false} ValidUpTo(inst: Instance, cut: Cut, v: Point, n: nat)
    requires NonNegativeDemand(inst) && Integral(inst, v) && IsCut(inst, cut) && n <= cut.ell
    ensures || Sum(CutTerms(inst, cut, v), 1, n + 1) >= Demand(inst, 1, cut.ell)
            || Sum(CutTerms(inst, cut, v), 1, n + 1) == Sum(v.x, 1, n + 1)
  {
    if n > 0 {
      ValidUpTo(inst, cut, v, n - 1);
      TermNonneg(inst, cut, v, n);
      assert PeriodRows(inst, v, n);
      if cut.inS[n - 1] && v.y(n) == 1.0 {
        ProductionCovers(inst, v, n - 1);
        SumSplit(inst.d, 1, n, cut.ell + 1);
      }
    }
  }

  /** Every (l,S) inequality holds at every integer feasible point. */
  lemma CutIsValid(inst: Instance, cut: Cut, v: Point)
    requires NonNegativeDemand(inst) && Integral(inst, v) && IsCut(inst, cut)
    ensures CutHolds(inst, cut, v)
  {
    ValidUpTo(inst, cut, v, cut.ell);
    ProductionCovers(inst, v, cut.ell);
  }

  /** Producing every demand when it arises is feasible. */
  function JustInTime(inst: Instance): Point { Point(t => 1.0, inst.d, t => 0.0) }

  lemma JustInTimeIsIntegral(inst: Instance)
    requires NonNegativeDemand(inst)
    ensures Integral(inst, JustInTime(inst))
  {
    forall t | 1 <= t <= inst.T ensures PeriodRows(inst, JustInTime(inst), t) {
      TermAtMostSum(inst.d, 1, inst.T + 1, t);
    }
  }

  /** A relaxed point that satisfies all (l,S) inequalities. */
  ghost predicate UnderCuts(inst: Instance, v: Point) {
    Relaxed(inst, v) && forall cut :: IsCut(inst, cut) ==> CutHolds(inst, cut, v)
  }

  // ---------- finitely many inequalities ----------

  function AllCuts(T: nat): set<Cut> {
    if T == 0 then {} else AllCuts(T - 1) + set b | b in AllBits(T) :: Cut(T, b)
  }

  lemma {:induction false} CutsAreAll(cut: Cut, T: nat)
    requires 1 <= cut.ell <= T && |cut.inS| == cut.ell
    ensures cut in AllCuts(T)
  {
    if cut.ell == T { BitsAreAll(cut.inS); } else { CutsAreAll(cut, T - 1); }
  }

  // ---------- the loops ----------

  ghost predicate RelaxedWith(inst: Instance, pool: set<Cut>, v: Point) {
    Relaxed(inst, v) && forall cut :: cut in pool ==> CutHolds(inst, cut, v)
  }

  ghost predicate Cheapest(inst: Instance, pool: set<Cut>, v: Point) {
    RelaxedWith(inst, pool, v) && forall w :: RelaxedWith(inst, pool, w) ==> Cost(inst, v) <= Cost(inst, w)
  }

  /** The solver returns a cheapest point of every relaxation that the loop can build. */
  ghost predicate SolvesExactly(inst: Instance, optimize: set<Cut> -> Point) {
    forall pool :: (forall cut :: cut in pool ==> IsCut(inst, cut)) ==> Cheapest(inst, pool, optimize(pool))
  }

  /** No relaxation that the loop can build is empty, so there is always something for the solver to return. */
  lemma RelaxationsAreFeasible(inst: Instance, pool: set<Cut>)
    requires NonNegativeDemand(inst) && forall cut :: cut in pool ==> IsCut(inst, cut)
    ensures RelaxedWith(inst, pool, JustInTime(inst))
  {
    JustInTimeIsIntegral(inst);
    forall cut | cut in pool ensures CutHolds(inst, cut, JustInTime(inst)) { CutIsValid(inst, cut, JustInTime(inst)); }
  }

  /** The table D, with its running sum. */
  method Demands(inst: Instance) returns (D: map<(int, int), real>)
    ensures forall t, j :: 1 <= t <= j <= inst.T ==> (t, j) in D && D[(t, j)] == Demand(inst, t, j)
  {
    D := map[];
    for t := 1 to inst.T + 1
      invariant forall t', j :: 1 <= t' < t && t' <= j <= inst.T ==> (t', j) in D && D[(t', j)] == Demand(inst, t', j)
    {
      var s := 0.0;
      for j := t to inst.T + 1
        invariant s == Sum(inst.d, t, j)
        invariant forall t', j' :: 1 <= t' < t && t' <= j' <= inst.T ==>
                  (t', j') in D && D[(t', j')] == Demand(inst, t', j')
        invariant forall j' :: t <= j' < j ==> (t, j') in D && D[(t, j')] == Demand(inst, t, j')
      {
        s := s + inst.d(j);
        D := D[(t, j) := s];
      }
    }
  }

  /** What set-up `t` can cover of the demand up to `ell`. */
  function Covered(inst: Instance, v: Point, ell: int, t: int): real { Demand(inst, t, ell) * v.y(t) }

  /** The smaller of the two terms that a period can contribute to a cut for `ell`. */
  function SmallerTerm(inst: Instance, v: Point, ell: int, t: int): real {
    if Covered(inst, v, ell, t) < v.x(t) then Covered(inst, v, ell, t) else v.x(t)
  }

  function SmallerTerms(inst: Instance, v: Point, ell: int): int -> real { t => SmallerTerm(inst, v, ell, t) }

  lemma SmallerTermIs(inst: Instance, v: Point, ell: int, t: int, covered: real)
    requires covered == Demand(inst, t, ell) * v.y(t)
    ensures Covered(inst, v, ell, t) == covered
    ensures SmallerTerms(inst, v, ell)(t) == if covered < v.x(t) then covered else v.x(t)
  {
  }

  ghost predicate Greedy(inst: Instance, v: Point, ell: int, inS: seq<bool>) {
    forall t :: 1 <= t <= |inS| ==> inS[t - 1] == (Covered(inst, v, ell, t) < v.x(t))
  }

  /** The greedy choice of S, as a cut. */
  function GreedyCut(inst: Instance, v: Point, ell: nat): Cut {
    Cut(ell, seq(ell, i => Covered(inst, v, ell, i + 1) < v.x(i + 1)))
  }

  lemma {:induction false} GreedyCutIsGreedy(inst: Instance, v: Point, ell: nat)
    ensures Greedy(inst, v, ell, GreedyCut(inst, v, ell).inS)
  {
  }

  /** No choice of S has a smaller left-hand side than the greedy one. */
  lemma GreedyIsSmallest(inst: Instance, v: Point, cut: Cut)
    requires IsCut(inst, cut)
    ensures Sum(SmallerTerms(inst, v, cut.ell), 1, cut.ell + 1) <= Sum(CutTerms(inst, cut, v), 1, cut.ell + 1)
    ensures Greedy(inst, v, cut.ell, cut.inS) ==>
              Sum(SmallerTerms(inst, v, cut.ell), 1, cut.ell + 1) == Sum(CutTerms(inst, cut, v), 1, cut.ell + 1)
  {
    SumMonotone(SmallerTerms(inst, v, cut.ell), CutTerms(inst, cut, v), 1, cut.ell + 1);
    if Greedy(inst, v, cut.ell, cut.inS) {
      SumCongruent(SmallerTerms(inst, v, cut.ell), CutTerms(inst, cut, v), 1, cut.ell + 1);
    }
  }

  lemma {:induction false} GreedyDecides(inst: Instance, v: Point, cut: Cut)
    requires IsCut(inst, cut) && Greedy(inst, v, cut.ell, cut.inS)
    ensures !CutHolds(inst, cut, v) <==> Sum(SmallerTerms(inst, v, cut.ell), 1, cut.ell + 1) < Demand(inst, 1, cut.ell)
    ensures !CutHolds(inst, cut, v) <==>
            exists other :: IsCut(inst, other) && other.ell == cut.ell && !CutHolds(inst, other, v)
  {
    GreedyIsSmallest(inst, v, cut);
    forall other | IsCut(inst, other) && other.ell == cut.ell && !CutHolds(inst, other, v)
      ensures !CutHolds(inst, cut, v) {
      GreedyIsSmallest(inst, v, other);
    }
  }

  /** One pass for one `ell`: the cut found is violated exactly when the inequality of some S is. */
  method Separate(inst: Instance, D: map<(int, int), real>, v: Point, ell: nat) returns (violated: bool, cut: Cut)
    requires 1 <= ell <= inst.T
    requires forall t, j :: 1 <= t <= j <= inst.T ==> (t, j) in D && D[(t, j)] == Demand(inst, t, j)
    ensures IsCut(inst, cut) && cut.ell == ell
    ensures violated <==> exists other :: IsCut(inst, other) && other.ell == ell && !CutHolds(inst, other, v)
    ensures violated <==> !CutHolds(inst, cut, v)
    ensures cut == GreedyCut(inst, v, ell)
    ensures forall other :: IsCut(inst, other) && other.ell == ell ==>
              Sum(CutTerms(inst, cut, v), 1, ell + 1) <= Sum(CutTerms(inst, other, v), 1, ell + 1)
  {
    var lhs, inS := 0.0, [];
    for t := 1 to ell + 1
      invariant |inS| == t - 1 && Greedy(inst, v, ell, inS)
      invariant lhs == Sum(SmallerTerms(inst, v, ell), 1, t)
    {
      var covered := D[(t, ell)] * v.y(t);
      SmallerTermIs(inst, v, ell, t, covered);
      if covered < v.x(t) {
        inS := inS + [true];
        lhs := lhs + covered;
      } else {
        inS := inS + [false];
        lhs := lhs + v.x(t);
      }
    }
    cut := Cut(ell, inS);
    violated := lhs < D[(1, ell)];
    GreedyDecides(inst, v, cut);
    assert forall t :: 0 <= t < ell ==> inS[t] == (Covered(inst, v, ell, t + 1) < v.x(t + 1));
    assert cut.inS == GreedyCut(inst, v, ell).inS;
    GreedyIsSmallest(inst, v, cut);
    forall other | IsCut(inst, other) && other.ell == ell
      ensures Sum(CutTerms(inst, cut, v), 1, ell + 1) <= Sum(CutTerms(inst, other, v), 1, ell + 1)
    {
      GreedyIsSmallest(inst, v, other);
    }
  }

  // ---------- fractional set-ups save nothing ----------

  function Positive(a: real): real { if a > 0.0 then a else 0.0 }

  function Negative(a: real): real { if a < 0.0 then a else 0.0 }

  function HoldingFrom(inst: Instance, t: int): real { Sum(inst.h, t, inst.T + 1) }

  /** One unit made in period `t`, with the holding cost that it would bring up to the horizon. */
  function UnitCost(inst: Instance, t: int): real { inst.c(t) + HoldingFrom(inst, t) }

  /** When units pay for being made, a set-up makes as many of them as it can. */
  function SetUpCost(inst: Instance, t: int): real { inst.f(t) + Demand(inst, 1, inst.T) * Negative(UnitCost(inst, t)) }

  function UnitCosts(inst: Instance): int -> real { t => Positive(UnitCost(inst, t)) }

  function SetUpCosts(inst: Instance): int -> real { t => Positive(SetUpCost(inst, t)) }

  /** Costs that no plan avoids: set-ups that pay for themselves, and units that leave stock. */
  function Sunk(inst: Instance, t: int): real { Negative(SetUpCost(inst, t)) - HoldingFrom(inst, t) * inst.d(t) }

  function SunkCosts(inst: Instance): int -> real { t => Sunk(inst, t) }

  /** The same problem without stock costs, and with what is left of the other costs. */
  function WithoutStock(inst: Instance): LotPrices.Problem {
    LotPrices.Problem(inst.T, inst.d, SetUpCosts(inst), UnitCosts(inst))
  }

  /** The cost of a period when each unit pays its holding up to the horizon as it is made. */
  function MovedCost(inst: Instance, v: Point, t: int): real {
    inst.f(t) * v.y(t) + UnitCost(inst, t) * v.x(t) - HoldingFrom(inst, t) * inst.d(t)
  }

  function MovedCosts(inst: Instance, v: Point): int -> real { t => MovedCost(inst, v, t) }

  lemma {:induction false} HoldingMoves(c: real, x: real, h: real, later: real, before: real, after: real, d: real)
    requires before + x == after + d
    ensures c * x + h * after + later * after == (c + (h + later)) * x - (h + later) * d + (h + later) * before
  {
    assert (h + later) * after == (h + later) * (before + x - d);
    assert (h + later) * (before + x - d) == (h + later) * before + (h + later) * x - (h + later) * d;
  }

  lemma {:induction false} HoldingSplits(inst: Instance, t: nat)
    requires 1 <= t <= inst.T
    ensures HoldingFrom(inst, t) == inst.h(t) + HoldingFrom(inst, t + 1)
  {
    SumSplit(inst.h, t, t + 1, inst.T + 1);
    assert Sum(inst.h, t, t + 1) == inst.h(t);
  }

  /** The stock after period `t`, at what holding it to the horizon costs. */
  function StockWorth(inst: Instance, v: Point, t: int): real { HoldingFrom(inst, t + 1) * Stock(v, t) }

  function StockWorths(inst: Instance, v: Point): int -> real { t => StockWorth(inst, v, t) }

  lemma {:induction false} PeriodCostMoves(inst: Instance, v: Point, t: nat)
    requires PeriodRows(inst, v, t) && 1 <= t <= inst.T
    ensures PeriodCosts(inst, v)(t) + StockWorths(inst, v)(t) == MovedCosts(inst, v)(t) + StockWorths(inst, v)(t - 1)
  {
    HoldingSplits(inst, t);
    HoldingMoves(inst.c(t), v.x(t), inst.h(t), HoldingFrom(inst, t + 1), Stock(v, t - 1), Stock(v, t), inst.d(t));
  }

  lemma {:induction false} NoStockWorth(inst: Instance, v: Point)
    ensures StockWorths(inst, v)(0) == 0.0 == StockWorths(inst, v)(inst.T)
  {
  }

  lemma {:induction false} CostIsMoved(inst: Instance, v: Point)
    requires Relaxed(inst, v)
    ensures Cost(inst, v) == Sum(MovedCosts(inst, v), 1, inst.T + 1)
  {
    var costs, moved, worths := PeriodCosts(inst, v), MovedCosts(inst, v), StockWorths(inst, v);
    forall t | 1 <= t <= inst.T ensures costs(t) + worths(t) == moved(t) + worths(t - 1) {
      assert PeriodRows(inst, v, t);
      PeriodCostMoves(inst, v, t);
    }
    SumTelescopes(costs, moved, worths, inst.T);
    NoStockWorth(inst, v);
  }

  /** What a period must cost at least, over plain numbers: `m` units are the most that a set-up can make. */
  lemma {:induction false} PaysAtLeast(f: real, u: real, m: real, y: real, x: real)
    requires 0.0 <= y <= 1.0 && 0.0 <= m && x <= m * y
    ensures f * y + u * x
            >= Negative(f + m * Negative(u)) + Positive(f + m * Negative(u)) * y + Positive(u) * x
  {
    var total := f + m * Negative(u);
    assert u * x == Positive(u) * x + Negative(u) * x;
    assert Negative(u) * x >= Negative(u) * (m * y) by { assert Negative(u) * (x - m * y) >= 0.0; }
    assert total * y == f * y + Negative(u) * (m * y);
    assert total * y == Positive(total) * y + Negative(total) * y;
    assert Negative(total) * (1.0 - y) <= 0.0;
  }

  /** And what it does cost, when set-ups that pay are made, and make all they can when units pay. */
  lemma {:induction false} PaysExactly(f: real, u: real, m: real, y: real, x: real, used: real, lot: real)
    requires Binary(used) && y == (if f + m * Negative(u) < 0.0 then 1.0 else used)
    requires x == if u < 0.0 then m * y else lot
    ensures f * y + u * x
            == Negative(f + m * Negative(u)) + Positive(f + m * Negative(u)) * used + Positive(u) * lot
  {
    var total := f + m * Negative(u);
    if u < 0.0 {
      assert u * (m * y) == (m * u) * y;
      assert f * y + u * x == total * y;
    }
    assert total * y == Negative(total) + Positive(total) * used;
  }

  function AsPlan(v: Point): LotPrices.Plan { LotPrices.Plan(v.y, v.x) }

  lemma {:induction false} WithoutStockIsNonNegative(inst: Instance)
    requires NonNegativeDemand(inst)
    ensures LotPrices.NonNegative(WithoutStock(inst))
  {
  }

  lemma {:induction false} PeriodPaysAtLeast(inst: Instance, v: Point, t: nat)
    requires NonNegativeDemand(inst) && PeriodRows(inst, v, t) && 1 <= t <= inst.T
    ensures SunkCosts(inst)(t) + LotPrices.PlanCosts(WithoutStock(inst), AsPlan(v))(t) <= MovedCosts(inst, v)(t)
  {
    DemandNonneg(inst, 1, inst.T);
    PaysAtLeast(inst.f(t), UnitCost(inst, t), Demand(inst, 1, inst.T), v.y(t), v.x(t));
  }

  lemma {:induction false} CostsAtLeast(inst: Instance, v: Point)
    requires NonNegativeDemand(inst) && Relaxed(inst, v)
    ensures Sum(SunkCosts(inst), 1, inst.T + 1)
            + Sum(LotPrices.PlanCosts(WithoutStock(inst), AsPlan(v)), 1, inst.T + 1)
            <= Cost(inst, v)
  {
    var sunk, moved := SunkCosts(inst), MovedCosts(inst, v);
    var costs := LotPrices.PlanCosts(WithoutStock(inst), AsPlan(v));
    var both := LotPrices.Together(sunk, costs);
    SumPlus(sunk, costs, both, 1, inst.T + 1);
    forall t | 1 <= t < inst.T + 1 ensures both(t) <= moved(t) {
      assert PeriodRows(inst, v, t);
      PeriodPaysAtLeast(inst, v, t);
    }
    SumMonotone(both, moved, 1, inst.T + 1);
    CostIsMoved(inst, v);
  }

  // ---------- an integer point for a plan without stock ----------

  function SetUpMade(inst: Instance, q: LotPrices.Plan, t: int): real {
    if SetUpCost(inst, t) < 0.0 then 1.0 else q.y(t)
  }

  function LotMade(inst: Instance, q: LotPrices.Plan, t: int): real {
    if UnitCost(inst, t) < 0.0 then Demand(inst, 1, inst.T) * SetUpMade(inst, q, t) else q.x(t)
  }

  function SetUpsMade(inst: Instance, q: LotPrices.Plan): int -> real { t => SetUpMade(inst, q, t) }

  function LotsMade(inst: Instance, q: LotPrices.Plan): int -> real { t => LotMade(inst, q, t) }

  function StockLeft(inst: Instance, q: LotPrices.Plan, t: int): real {
    Sum(LotsMade(inst, q), 1, t + 1) - Demand(inst, 1, t)
  }

  function StocksLeft(inst: Instance, q: LotPrices.Plan): int -> real { t => StockLeft(inst, q, t) }

  /** The plan, with the set-ups and units added that pay for themselves. */
  function PointOf(inst: Instance, q: LotPrices.Plan): Point {
    Point(SetUpsMade(inst, q), LotsMade(inst, q), StocksLeft(inst, q))
  }

  ghost predicate IntegralPlan(inst: Instance, q: LotPrices.Plan) {
    && (forall t :: 1 <= t <= inst.T ==>
        LotPrices.LotOfPlan(WithoutStock(inst), q, inst.T, t))
    && (forall t :: 1 <= t <= inst.T ==> Demand(inst, 1, t) <= Sum(q.x, 1, t + 1))
  }

  lemma {:induction false} LotIsWithin(m: real, y: real, lot: real)
    requires 0.0 <= lot <= m && Binary(y) && (y == 0.0 ==> lot == 0.0)
    ensures lot <= m * y && 0.0 <= m * y <= m
  {
  }

  lemma {:induction false} LotsAreWithin(inst: Instance, q: LotPrices.Plan, t: nat)
    requires NonNegativeDemand(inst) && IntegralPlan(inst, q) && 1 <= t <= inst.T
    ensures var w := PointOf(inst, q);
            var M := Demand(inst, 1, inst.T);
            Binary(w.y(t)) && q.x(t) <= w.x(t) <= M && 0.0 <= w.x(t) && w.x(t) <= M * w.y(t)
  {
    assert LotPrices.LotOfPlan(WithoutStock(inst), q, inst.T, t);
    DemandNonneg(inst, 1, inst.T);
    LotIsWithin(Demand(inst, 1, inst.T), SetUpMade(inst, q, t), q.x(t));
  }

  lemma {:induction false} PointOfIsIntegral(inst: Instance, q: LotPrices.Plan)
    requires NonNegativeDemand(inst) && IntegralPlan(inst, q)
    ensures Integral(inst, PointOf(inst, q))
  {
    var w := PointOf(inst, q);
    forall t | 1 <= t <= inst.T ensures PeriodRows(inst, w, t) && Binary(w.y(t)) {
      forall k | 1 <= k < t + 1 ensures q.x(k) <= w.x(k) { LotsAreWithin(inst, q, k); }
      LotsAreWithin(inst, q, t);
      SumMonotone(q.x, w.x, 1, t + 1);
      assert Stock(w, t - 1) == Sum(w.x, 1, t) - Demand(inst, 1, t - 1);
    }
  }

  lemma {:induction false} PeriodPaysExactly(inst: Instance, q: LotPrices.Plan, t: nat)
    requires Binary(q.y(t)) && 1 <= t <= inst.T
    ensures MovedCosts(inst, PointOf(inst, q))(t)
            == SunkCosts(inst)(t) + LotPrices.PlanCosts(WithoutStock(inst), q)(t)
  {
    PaysExactly(inst.f(t), UnitCost(inst, t), Demand(inst, 1, inst.T), SetUpMade(inst, q, t), LotMade(inst, q, t),
                q.y(t), q.x(t));
  }

  lemma {:induction false} CostsExactly(inst: Instance, q: LotPrices.Plan)
    requires NonNegativeDemand(inst) && IntegralPlan(inst, q)
    ensures Cost(inst, PointOf(inst, q))
            == Sum(SunkCosts(inst), 1, inst.T + 1)
               + Sum(LotPrices.PlanCosts(WithoutStock(inst), q), 1, inst.T + 1)
  {
    var w, sunk, costs := PointOf(inst, q), SunkCosts(inst), LotPrices.PlanCosts(WithoutStock(inst), q);
    PointOfIsIntegral(inst, q);
    CostIsMoved(inst, w);
    var moved := MovedCosts(inst, w);
    forall t | 1 <= t < inst.T + 1 ensures moved(t) == sunk(t) + costs(t) {
      assert LotPrices.LotOfPlan(WithoutStock(inst), q, inst.T, t);
      PeriodPaysExactly(inst, q, t);
    }
    SumPlus(sunk, costs, moved, 1, inst.T + 1);
  }

  // ---------- the inequalities leave nothing to gain from fractions ----------

  lemma {:induction false} CoveringIsSmaller(inst: Instance, v: Point, ell: int, t: int)
    ensures LotPrices.Covering(WithoutStock(inst), AsPlan(v), ell)(t) == SmallerTerms(inst, v, ell)(t)
  {
  }

  lemma {:induction false} GreedyCutCovers(inst: Instance, v: Point, ell: nat)
    requires 1 <= ell <= inst.T && CutHolds(inst, GreedyCut(inst, v, ell), v)
    ensures Demand(inst, 1, ell) <= Sum(LotPrices.Covering(WithoutStock(inst), AsPlan(v), ell), 1, ell + 1)
  {
    var covering := LotPrices.Covering(WithoutStock(inst), AsPlan(v), ell);
    GreedyCutIsGreedy(inst, v, ell);
    GreedyIsSmallest(inst, v, GreedyCut(inst, v, ell));
    forall t | 1 <= t < ell + 1 ensures SmallerTerms(inst, v, ell)(t) == covering(t) {
      CoveringIsSmaller(inst, v, ell, t);
    }
    SumCongruent(SmallerTerms(inst, v, ell), covering, 1, ell + 1);
  }

  lemma {:induction false} CutsCover(inst: Instance, v: Point)
    requires UnderCuts(inst, v)
    ensures LotPrices.CoversAll(WithoutStock(inst), AsPlan(v))
  {
    var p, q := WithoutStock(inst), AsPlan(v);
    forall t | 1 <= t <= p.T ensures 0.0 <= q.x(t) && 0.0 <= q.y(t) { assert PeriodRows(inst, v, t); }
    forall ell | 1 <= ell <= p.T
      ensures LotPrices.Need(p, 1, ell) <= Sum(LotPrices.Covering(p, q, ell), 1, ell + 1) {
      GreedyCutCovers(inst, v, ell);
    }
  }

  /** The best integer plan without stock costs, turned into a point. */
  function BestPoint(inst: Instance): Point {
    PointOf(inst, LotPrices.BestPlan(WithoutStock(inst), inst.T))
  }

  lemma {:induction false} BestPointIsIntegral(inst: Instance)
    requires NonNegativeDemand(inst)
    ensures Integral(inst, BestPoint(inst))
    ensures Cost(inst, BestPoint(inst))
            == Sum(SunkCosts(inst), 1, inst.T + 1) + LotPrices.Least(WithoutStock(inst), inst.T)
  {
    var p := WithoutStock(inst);
    var q := LotPrices.BestPlan(p, p.T);
    WithoutStockIsNonNegative(inst);
    forall t | 1 <= t <= inst.T ensures LotPrices.LotOfPlan(p, q, inst.T, t) {
      LotPrices.BestPlanIsIntegral(p, p.T, t);
    }
    forall t | 1 <= t <= inst.T ensures Demand(inst, 1, t) <= Sum(q.x, 1, t + 1) {
      LotPrices.BestPlanServes(p, p.T, t);
    }
    LotPrices.BestPlanCosts(p, p.T);
    PointOfIsIntegral(inst, q);
    CostsExactly(inst, q);
  }

  /** Under all (l,S) inequalities, whatever the signs of the costs, no point costs less than that integer point. */
  lemma {:induction false} FractionsSaveNothing(inst: Instance, v: Point)
    requires NonNegativeDemand(inst) && UnderCuts(inst, v)
    ensures Integral(inst, BestPoint(inst)) && Cost(inst, BestPoint(inst)) <= Cost(inst, v)
  {
    WithoutStockIsNonNegative(inst);
    BestPointIsIntegral(inst);
    CutsCover(inst, v);
    CostsAtLeast(inst, v);
    WagnerWhitin.FractionalCostsMore(WithoutStock(inst), AsPlan(v));
  }

  /** The cut that the loop over the periods finds for `ell`, if it finds one. */
  ghost predicate FoundFor(inst: Instance, v: Point, ell: int, cut: Cut) {
    1 <= ell && cut == GreedyCut(inst, v, ell) && !CutHolds(inst, cut, v)
  }

  /** One round: the greedy cut of every period for which some inequality is violated. */
  method AddViolatedCuts(inst: Instance, D: map<(int, int), real>, v: Point, pool: set<Cut>)
      returns (cuts: bool, pool': set<Cut>)
    requires forall t, j :: 1 <= t <= j <= inst.T ==> (t, j) in D && D[(t, j)] == Demand(inst, t, j)
    ensures forall cut :: cut in pool' <==> cut in pool || (cut.ell <= inst.T && FoundFor(inst, v, cut.ell, cut))
    ensures cuts <==> exists cut :: IsCut(inst, cut) && !CutHolds(inst, cut, v)
    ensures cuts ==> exists cut :: IsCut(inst, cut) && cut in pool' && !CutHolds(inst, cut, v)
  {
    pool', cuts := pool, false;
    for ell := 1 to inst.T + 1
      invariant forall cut :: cut in pool' <==> cut in pool || (cut.ell < ell && FoundFor(inst, v, cut.ell, cut))
      invariant cuts <==> exists cut :: IsCut(inst, cut) && cut.ell < ell && !CutHolds(inst, cut, v)
      invariant cuts ==> exists cut :: IsCut(inst, cut) && cut in pool' && !CutHolds(inst, cut, v)
    {
      var violated, cut := Separate(inst, D, v, ell);
      if violated {
        pool' := pool' + {cut};
        cuts := true;
      }
    }
  }

  /**
   Solves and separates until no inequality is violated. The result satisfies all (l,S) inequalities, and costs
   exactly what a cheapest integer feasible point costs.
   */
  method SilsCut(inst: Instance, optimize: set<Cut> -> Point) returns (pool: set<Cut>, v: Point)
    requires NonNegativeDemand(inst) && SolvesExactly(inst, optimize)
    ensures forall cut :: cut in pool ==> IsCut(inst, cut)
    ensures v == optimize(pool) && Cheapest(inst, pool, v)
    ensures UnderCuts(inst, v) && forall w :: UnderCuts(inst, w) ==> Cost(inst, v) <= Cost(inst, w)
    ensures forall w :: Integral(inst, w) ==> Cost(inst, v) <= Cost(inst, w)
    ensures exists w :: Integral(inst, w) && Cost(inst, w) == Cost(inst, v)
  {
    var D := Demands(inst);
    pool := {};
    v := optimize(pool);
    var cuts := true;
    while cuts
      invariant forall cut :: cut in pool ==> IsCut(inst, cut)
      invariant !cuts ==> v == optimize(pool) && Cheapest(inst, pool, v)
      invariant !cuts ==> forall cut :: IsCut(inst, cut) ==> CutHolds(inst, cut, v)
      decreases AllCuts(inst.T) - pool, cuts
    {
      v := optimize(pool);
      ghost var before := pool;
      cuts, pool := AddViolatedCuts(inst, D, v, pool);
      if cuts {
        ghost var cut :| cut in pool && cut !in before;
        CutsAreAll(cut, inst.T);
      } else {
        assert pool == before;
      }
    }
    forall w | Integral(inst, w) ensures Cost(inst, v) <= Cost(inst, w) {
      forall cut | cut in pool ensures CutHolds(inst, cut, w) { CutIsValid(inst, cut, w); }
    }
    FractionsSaveNothing(inst, v);
  }
}
