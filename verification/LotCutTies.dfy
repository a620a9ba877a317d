/** When the loop of the (l,S) inequalities can leave a fractional set-up. */
module LotSizingTies {
  import opened Sums
  import opened Products
  import opened LotSizingCut
  import opened LotSizingNudges

  /** Whatever cheapest point the loop ends with, no set-up is fractional, exactly when there is one best choice. */
  lemma {:induction false} NeverFractionalExactly(inst: Instance)
    requires NonNegativeDemand(inst)
    ensures NeverFractional(inst) <==> OneBestChoice(inst)
  {
    if NeverFractional(inst) {
      forall v, w, t | CheapestIntegral(inst, v) && CheapestIntegral(inst, w) && 1 <= t <= inst.T
        ensures v.y(t) == w.y(t) {
        MiddleIsCheapest(inst, v, w);
        assert Binary(Middle(v, w).y(t));
      }
    }
    if OneBestChoice(inst) {
      forall v, t | CheapestUnderCuts(inst, v) && 1 <= t <= inst.T ensures Binary(v.y(t)) {
        assert PeriodRows(inst, v, t);
        if 0.0 < v.y(t) < 1.0 { FractionLeavesChoice(inst, v, t); }
      }
    }
  }

  /** A cheapest point under all inequalities with half a set-up. */
  lemma {:induction false} HalfASetUpRemains()
    ensures var v := Middle(MadeAtOnce(0.0), MadeAtOnce(1.0)); CheapestUnderCuts(FreeInstance(), v) && v.y(2) == 0.5
  {
    MadeAtOnceIsCheapest(0.0);
    MadeAtOnceIsCheapest(1.0);
    MiddleIsCheapest(FreeInstance(), MadeAtOnce(0.0), MadeAtOnce(1.0));
  }
}

/** Midpoints of two points, and set-up costs changed a little in one period. */
module LotSizingNudges {
  import opened Sums
  import opened Products
  import opened LotSizingCut

  ghost predicate CheapestUnderCuts(inst: Instance, v: Point) {
    UnderCuts(inst, v) && forall w :: UnderCuts(inst, w) ==> Cost(inst, v) <= Cost(inst, w)
  }

  ghost predicate CheapestIntegral(inst: Instance, v: Point) {
    Integral(inst, v) && forall w :: Integral(inst, w) ==> Cost(inst, v) <= Cost(inst, w)
  }

  /** Whatever cheapest point the loop ends with, its set-ups are 0 or 1. */
  ghost predicate NeverFractional(inst: Instance) {
    forall v, t :: CheapestUnderCuts(inst, v) && 1 <= t <= inst.T ==> Binary(v.y(t))
  }

  /** The cheapest integer points all make the same set-ups. */
  ghost predicate OneBestChoice(inst: Instance) {
    forall v, w, t :: CheapestIntegral(inst, v) && CheapestIntegral(inst, w) && 1 <= t <= inst.T ==> v.y(t) == w.y(t)
  }

  lemma {:induction false} IntegralIsUnderCuts(inst: Instance, w: Point)
    requires NonNegativeDemand(inst) && Integral(inst, w)
    ensures UnderCuts(inst, w)
  {
    forall cut | IsCut(inst, cut) ensures CutHolds(inst, cut, w) { CutIsValid(inst, cut, w); }
  }

  // ---------- two choices leave a fraction ----------

  function HalfOf(f: int -> real, g: int -> real): int -> real { t => (f(t) + g(t)) / 2.0 }

  function Middle(v: Point, w: Point): Point { Point(HalfOf(v.y, w.y), HalfOf(v.x, w.x), HalfOf(v.I, w.I)) }

  lemma {:induction false} SumOfHalves(f: int -> real, g: int -> real, h: int -> real, lo: int, hi: int)
    requires forall k :: lo <= k < hi ==> h(k) + h(k) == f(k) + g(k)
    ensures Sum(h, lo, hi) + Sum(h, lo, hi) == Sum(f, lo, hi) + Sum(g, lo, hi)
    decreases hi - lo
  {
    if lo < hi { SumOfHalves(f, g, h, lo, hi - 1); }
  }

  lemma {:induction false} HalfTimes(c: real, a: real, b: real)
    ensures c * ((a + b) / 2.0) + c * ((a + b) / 2.0) == c * a + c * b
  {
    var h := (a + b) / 2.0;
    assert a == h + h - b;
    assert c * (h + h - b) == c * h + c * h - c * b;
  }

  lemma {:induction false} MiddleRows(inst: Instance, v: Point, w: Point, t: nat)
    requires PeriodRows(inst, v, t) && PeriodRows(inst, w, t) && 1 <= t
    ensures PeriodRows(inst, Middle(v, w), t)
  {
    HalfTimes(Demand(inst, 1, inst.T), v.y(t), w.y(t));
  }

  lemma {:induction false} MiddleTerm(inst: Instance, cut: Cut, v: Point, w: Point, t: int)
    ensures CutTerms(inst, cut, Middle(v, w))(t) + CutTerms(inst, cut, Middle(v, w))(t)
            == CutTerms(inst, cut, v)(t) + CutTerms(inst, cut, w)(t)
  {
    HalfTimes(Demand(inst, t, cut.ell), v.y(t), w.y(t));
  }

  lemma {:induction false} MiddlePeriodCost(inst: Instance, v: Point, w: Point, t: int)
    ensures PeriodCosts(inst, Middle(v, w))(t) + PeriodCosts(inst, Middle(v, w))(t)
            == PeriodCosts(inst, v)(t) + PeriodCosts(inst, w)(t)
  {
    HalfTimes(inst.f(t), v.y(t), w.y(t));
    HalfTimes(inst.c(t), v.x(t), w.x(t));
    HalfTimes(inst.h(t), v.I(t), w.I(t));
  }

  lemma {:induction false} MiddleIsUnderCuts(inst: Instance, v: Point, w: Point)
    requires UnderCuts(inst, v) && UnderCuts(inst, w)
    ensures UnderCuts(inst, Middle(v, w))
  {
    var m := Middle(v, w);
    forall t | 1 <= t <= inst.T ensures PeriodRows(inst, m, t) {
      assert PeriodRows(inst, v, t) && PeriodRows(inst, w, t);
      MiddleRows(inst, v, w, t);
    }
    forall cut | IsCut(inst, cut) ensures CutHolds(inst, cut, m) {
      var terms := CutTerms(inst, cut, m);
      assert CutHolds(inst, cut, v) && CutHolds(inst, cut, w);
      forall t | 1 <= t < cut.ell + 1
        ensures terms(t) + terms(t) == CutTerms(inst, cut, v)(t) + CutTerms(inst, cut, w)(t) {
        MiddleTerm(inst, cut, v, w, t);
      }
      SumOfHalves(CutTerms(inst, cut, v), CutTerms(inst, cut, w), terms, 1, cut.ell + 1);
    }
  }

  lemma {:induction false} MiddleCost(inst: Instance, v: Point, w: Point)
    ensures Cost(inst, Middle(v, w)) + Cost(inst, Middle(v, w)) == Cost(inst, v) + Cost(inst, w)
  {
    var costs := PeriodCosts(inst, Middle(v, w));
    forall t | 1 <= t < inst.T + 1 ensures costs(t) + costs(t) == PeriodCosts(inst, v)(t) + PeriodCosts(inst, w)(t) {
      MiddlePeriodCost(inst, v, w, t);
    }
    SumOfHalves(PeriodCosts(inst, v), PeriodCosts(inst, w), costs, 1, inst.T + 1);
  }

  /** Half-way between two cheapest integer points is a cheapest point under the inequalities. */
  lemma {:induction false} MiddleIsCheapest(inst: Instance, v: Point, w: Point)
    requires NonNegativeDemand(inst) && CheapestIntegral(inst, v) && CheapestIntegral(inst, w)
    ensures CheapestUnderCuts(inst, Middle(v, w))
  {
    IntegralIsUnderCuts(inst, v);
    IntegralIsUnderCuts(inst, w);
    MiddleIsUnderCuts(inst, v, w);
    MiddleCost(inst, v, w);
    forall u | UnderCuts(inst, u) ensures Cost(inst, Middle(v, w)) <= Cost(inst, u) { FractionsSaveNothing(inst, u); }
  }

  // ---------- a fraction leaves two choices ----------

  function RaisedAt(f: int -> real, t: int, extra: real): int -> real { k => if k == t then f(k) + extra else f(k) }

  /** The instance with the set-up cost of one period changed. */
  function Charging(inst: Instance, t: int, extra: real): Instance { inst.(f := RaisedAt(inst.f, t, extra)) }

  lemma {:induction false} SameCut(inst: Instance, t: int, extra: real, cut: Cut, v: Point)
    requires IsCut(inst, cut)
    ensures CutHolds(Charging(inst, t, extra), cut, v) <==> CutHolds(inst, cut, v)
  {
    SumCongruent(CutTerms(inst, cut, v), CutTerms(Charging(inst, t, extra), cut, v), 1, cut.ell + 1);
  }

  lemma {:induction false} SamePoints(inst: Instance, t: int, extra: real, v: Point)
    ensures UnderCuts(Charging(inst, t, extra), v) <==> UnderCuts(inst, v)
    ensures Integral(Charging(inst, t, extra), v) <==> Integral(inst, v)
  {
    var other := Charging(inst, t, extra);
    assert forall k :: 1 <= k <= inst.T ==> (PeriodRows(other, v, k) <==> PeriodRows(inst, v, k));
    forall cut | IsCut(inst, cut) ensures CutHolds(other, cut, v) <==> CutHolds(inst, cut, v) {
      SameCut(inst, t, extra, cut, v);
    }
  }

  lemma {:induction false} ChargedCost(inst: Instance, t: nat, extra: real, v: Point, charge: real)
    requires 1 <= t <= inst.T && charge == extra * v.y(t)
    ensures Cost(Charging(inst, t, extra), v) == Cost(inst, v) + charge
  {
    var costs, costs' := PeriodCosts(inst, v), PeriodCosts(Charging(inst, t, extra), v);
    assert (inst.f(t) + extra) * v.y(t) == inst.f(t) * v.y(t) + charge;
    assert costs'(t) == costs(t) + charge;
    SumChanged(costs, costs', 1, inst.T + 1, t);
  }

  /** The charge that makes a set-up at `t` dearer when side 0 is wanted, and cheaper when side 1 is. */
  function Extra(side: real, delta: real): real { if side == 0.0 then delta else -delta }

  /** How far `y` is from the wanted side. */
  function Distance(side: real, y: real): real { if side == 0.0 then y else 1.0 - y }

  lemma {:induction false} PartOfGap(gap: real, share: real, rest: real, part: real)
    requires gap > 0.0 && 0.0 < share && 0.0 < rest && share + rest == 1.0 && part == gap * share
    ensures 0.0 < part < gap && gap * rest == gap - part
  {
    ProductPositive(gap, share);
    ProductPositive(gap, rest);
    Distributes(gap, share, rest);
    assert gap * (share + rest) == gap;
  }

  lemma {:induction false} SignedPart(side: real, delta: real, y: real, share: real) returns (part: real)
    requires Binary(side) && delta > 0.0 && 0.0 < y < 1.0 && share == Distance(side, y)
    ensures 0.0 < part < delta && Extra(side, delta) * y == (if side == 0.0 then part else -part)
    ensures delta * share == if side == 0.0 then part else delta - part
  {
    part := delta * y;
    PartOfGap(delta, y, 1.0 - y, part);
  }

  lemma {:induction false} WantedSide(side: real, delta: real, y: real, made: real, costV: real, costW: real,
                                      share: real)
    requires Binary(side) && Binary(made) && delta > 0.0 && 0.0 < y < 1.0 && costV <= costW
    requires costW + Extra(side, delta) * made <= costV + Extra(side, delta) * y && share == Distance(side, y)
    ensures made == side && costW <= costV + delta * share
  {
    var part := SignedPart(side, delta, y, share);
    assert Extra(side, delta) * made == if made == 0.0 then 0.0 else Extra(side, delta);
  }

  /** A cheapest integer point when the charge on the set-up at `t` speaks for one side. */
  function Drawn(inst: Instance, t: int, side: real, delta: real): Point {
    BestPoint(Charging(inst, t, Extra(side, delta)))
  }

  lemma {:induction false} DrawnIsCheapest(inst: Instance, t: nat, extra: real, u: Point)
    requires NonNegativeDemand(inst) && UnderCuts(inst, u) && 1 <= t <= inst.T
    ensures var w := BestPoint(Charging(inst, t, extra));
            Integral(inst, w) && Cost(inst, w) + extra * w.y(t) <= Cost(inst, u) + extra * u.y(t)
  {
    var other := Charging(inst, t, extra);
    var w := BestPoint(other);
    SamePoints(inst, t, extra, u);
    FractionsSaveNothing(other, u);
    SamePoints(inst, t, extra, w);
    ChargedCost(inst, t, extra, w, extra * w.y(t));
    ChargedCost(inst, t, extra, u, extra * u.y(t));
  }

  lemma {:induction false} DrawnBeatsItsSide(inst: Instance, t: nat, extra: real, w: Point, u: Point)
    requires NonNegativeDemand(inst) && Integral(inst, u) && 1 <= t <= inst.T
    requires w == BestPoint(Charging(inst, t, extra)) && w.y(t) == u.y(t)
    ensures Cost(inst, w) <= Cost(inst, u)
  {
    IntegralIsUnderCuts(inst, u);
    DrawnIsCheapest(inst, t, extra, u);
  }

  lemma {:induction false} DrawnToSide(inst: Instance, v: Point, t: nat, side: real, delta: real, share: real)
    requires NonNegativeDemand(inst) && CheapestUnderCuts(inst, v) && 1 <= t <= inst.T && 0.0 < v.y(t) < 1.0
    requires Binary(side) && delta > 0.0 && share == Distance(side, v.y(t))
    ensures var w := Drawn(inst, t, side, delta);
            && Integral(inst, w) && w.y(t) == side
            && Cost(inst, v) <= Cost(inst, w) <= Cost(inst, v) + delta * share
  {
    var w := Drawn(inst, t, side, delta);
    DrawnIsCheapest(inst, t, Extra(side, delta), v);
    IntegralIsUnderCuts(inst, w);
    WantedSide(side, delta, v.y(t), w.y(t), Cost(inst, v), Cost(inst, w), share);
  }

  /** A set-up that is fractional at a cheapest point is made by one cheapest integer point and not by another. */
  lemma {:induction false} BothSidesAreBest(inst: Instance, v: Point, t: nat, side: real) returns (w: Point)
    requires NonNegativeDemand(inst) && CheapestUnderCuts(inst, v) && 1 <= t <= inst.T && 0.0 < v.y(t) < 1.0
    requires Binary(side)
    ensures CheapestIntegral(inst, w) && w.y(t) == side
  {
    w := Drawn(inst, t, side, 1.0);
    var share := Distance(side, v.y(t));
    DrawnToSide(inst, v, t, side, 1.0, share);
    var gap := Cost(inst, w) - Cost(inst, v);
    if gap > 0.0 {
      PartOfGap(gap, share, 1.0 - share, gap * share);
      DrawnToSide(inst, v, t, side, gap, share);
      DrawnBeatsItsSide(inst, t, Extra(side, 1.0), w, Drawn(inst, t, side, gap));
      assert false;
    }
    forall u | Integral(inst, u) ensures Cost(inst, w) <= Cost(inst, u) { IntegralIsUnderCuts(inst, u); }
  }

  lemma {:induction false} FractionLeavesChoice(inst: Instance, v: Point, t: nat)
    requires NonNegativeDemand(inst) && CheapestUnderCuts(inst, v) && 1 <= t <= inst.T && 0.0 < v.y(t) < 1.0
    ensures !OneBestChoice(inst)
  {
    var made := BothSidesAreBest(inst, v, t, 1.0);
    var unmade := BothSidesAreBest(inst, v, t, 0.0);
  }

  // ---------- an instance with two choices ----------

  /** Two periods with demand 1, where nothing costs anything. */
  function FreeInstance(): Instance { Instance(2, t => 0.0, t => 0.0, t => 1.0, t => 0.0) }

  /** All is made in the first period; the set-up of the second one is made or not. */
  function MadeAtOnce(second: real): Point {
    Point(t => if t == 1 then 1.0 else second, t => if t == 1 then 2.0 else 0.0, t => if t == 1 then 1.0 else 0.0)
  }

  lemma {:induction false} FreePointCostsNothing(v: Point)
    ensures Cost(FreeInstance(), v) == 0.0
  {
    SumZero(PeriodCosts(FreeInstance(), v), 1, 3);
  }

  lemma {:induction false} MadeAtOnceIsCheapest(second: real)
    requires Binary(second)
    ensures CheapestIntegral(FreeInstance(), MadeAtOnce(second))
  {
    var inst, w := FreeInstance(), MadeAtOnce(second);
    assert Demand(inst, 1, 2) == Sum(inst.d, 1, 2) + inst.d(2) == 2.0;
    assert PeriodRows(inst, w, 1) && PeriodRows(inst, w, 2);
    forall u | Integral(inst, u) ensures Cost(inst, w) <= Cost(inst, u) {
      FreePointCostsNothing(w);
      FreePointCostsNothing(u);
    }
  }
}
