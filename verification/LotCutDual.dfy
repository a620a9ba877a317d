/** What no plan under the (l,S) inequalities undercuts. */
module WagnerWhitin {
  import opened Sums
  import opened Products
  import opened LotPrices

  /** Weak duality: at fair prices, the demand is worth no more than any plan that satisfies all (l,S) inequalities. */
  lemma {:induction false} FairPricesBound(p: Problem, price: int -> real, q: Plan)
    requires NonNegative(p) && FairPrices(p, price) && CoversAll(p, q)
    ensures Sum(Worths(p, price), 1, p.T + 1) <= Sum(PlanCosts(p, q), 1, p.T + 1)
  {
    DemandIsCharged(p, price, q, p.T);
    ChargesAreCosts(p, price, q);
  }

  lemma {:induction false} PricesAreFair(p: Problem)
    requires NonNegative(p)
    ensures FairPrices(p, Prices(p))
  {
    var price := Prices(p);
    forall k | 1 <= k <= p.T ensures price(k + 1) <= price(k) { PriceFalls(p, k); }
    forall t | 1 <= t <= p.T ensures Sum(Margins(p, price, t), t, p.T + 1) <= p.setup(t) { MarginsPaySetUp(p, t, p.T); }
  }

  /** A plan that satisfies all (l,S) inequalities, fractional or not, costs no less than the least cost. */
  lemma {:induction false} FractionalCostsMore(p: Problem, q: Plan)
    requires NonNegative(p) && CoversAll(p, q)
    ensures Least(p, p.T) <= Sum(PlanCosts(p, q), 1, p.T + 1)
  {
    PricesAreFair(p);
    PricesAddUp(p, 1, p.T);
    FairPricesBound(p, Prices(p), q);
  }
}

/**
 Lot sizing without stock costs: set-ups `setup(t)`, unit costs `unit(t)` and demands `d(t)`, all non-negative.
 The least cost of an integer plan, computed by dynamic programming on the last set-up, bounds the cost of every
 fractional plan that satisfies all (l,S) inequalities. The bound is a price per unit of demand that never rises.
 */
module LotPrices {
  import opened Sums
  import opened Products

  datatype Problem = Problem(T: nat, d: int -> real, setup: int -> real, unit: int -> real)

  ghost predicate NonNegative(p: Problem) {
    forall t :: 1 <= t <= p.T ==> 0.0 <= p.d(t) && 0.0 <= p.setup(t) && 0.0 <= p.unit(t)
  }

  /** The demand from `t` to `k`. */
  function Need(p: Problem, t: int, k: int): real { Sum(p.d, t, k + 1) }

  // ---------- prices that no plan beats ----------

  function Above(price: real, cost: real): real { if price > cost then price - cost else 0.0 }

  function Below(price: real, cost: real): real { if price > cost then cost else price }

  function Worth(p: Problem, price: int -> real, k: int): real { p.d(k) * price(k) }

  function Worths(p: Problem, price: int -> real): int -> real { k => Worth(p, price, k) }

  function Margin(p: Problem, price: int -> real, t: int, k: int): real { p.d(k) * Above(price(k), p.unit(t)) }

  /** The margins of the prices over the unit cost of period `t`. */
  function Margins(p: Problem, price: int -> real, t: int): int -> real { k => Margin(p, price, t, k) }

  /** Prices per unit of demand that never rise, end at zero, and leave no set-up a profit. */
  ghost predicate FairPrices(p: Problem, price: int -> real) {
    && (forall k :: 1 <= k <= p.T ==> price(k + 1) <= price(k))
    && price(p.T + 1) == 0.0
    && (forall t :: 1 <= t <= p.T ==> Sum(Margins(p, price, t), t, p.T + 1) <= p.setup(t))
  }

  /** Set-ups `y` and lots `x`. */
  datatype Plan = Plan(y: int -> real, x: int -> real)

  function PlanCost(p: Problem, q: Plan, t: int): real { p.setup(t) * q.y(t) + p.unit(t) * q.x(t) }

  function PlanCosts(p: Problem, q: Plan): int -> real { t => PlanCost(p, q, t) }

  /** The least that period `t` can contribute to an inequality for `ell`. */
  function Covers(p: Problem, q: Plan, ell: int, t: int): real {
    var covered := Need(p, t, ell) * q.y(t);
    if covered < q.x(t) then covered else q.x(t)
  }

  function Covering(p: Problem, q: Plan, ell: int): int -> real { t => Covers(p, q, ell, t) }

  /** All (l,S) inequalities. */
  ghost predicate CoversAll(p: Problem, q: Plan) {
    && (forall t :: 1 <= t <= p.T ==> 0.0 <= q.x(t) && 0.0 <= q.y(t))
    && (forall ell :: 1 <= ell <= p.T ==> Need(p, 1, ell) <= Sum(Covering(p, q, ell), 1, ell + 1))
  }

  // ---------- adding up inequalities, each with its weight ----------

  /** Adding `c` times `g` takes `f` no higher than `h`. */
  predicate Raises(f: int -> real, g: int -> real, h: int -> real, c: real, t: int) { f(t) + c * g(t) <= h(t) }

  function Scaled(c: real, f: int -> real): int -> real { t => c * f(t) }

  function Together(f: int -> real, g: int -> real): int -> real { t => f(t) + g(t) }

  lemma {:induction false} ScaledTotal(g: int -> real, c: real, n: nat, total: real)
    requires 0.0 <= c && total <= Sum(g, 1, n + 1)
    ensures c * total <= Sum(Scaled(c, g), 1, n + 1)
  {
    SumScaled(c, g, Scaled(c, g), 1, n + 1);
    ProductMonotone(c, total, Sum(g, 1, n + 1));
  }

  lemma {:induction false} RaisesTogether(f: int -> real, g: int -> real, h: int -> real, c: real, t: int)
    requires Raises(f, g, h, c, t)
    ensures Together(f, Scaled(c, g))(t) <= h(t)
  {
  }

  lemma {:induction false} SumsRaised(f: int -> real, g: int -> real, h: int -> real, c: real, n: nat)
    requires forall t :: 1 <= t <= n ==> Raises(f, g, h, c, t)
    ensures Sum(f, 1, n + 1) + Sum(Scaled(c, g), 1, n + 1) <= Sum(h, 1, n + 1)
  {
    var scaled := Scaled(c, g);
    var both := Together(f, scaled);
    SumPlus(f, scaled, both, 1, n + 1);
    forall t | 1 <= t < n + 1 ensures both(t) <= h(t) { RaisesTogether(f, g, h, c, t); }
    SumMonotone(both, h, 1, n + 1);
  }

  // ---------- weights from prices ----------

  /** What a set-up at `t` is charged for one unit, through the inequalities up to `n`. */
  function SetUpShare(p: Problem, price: int -> real, n: int, t: int): real
    decreases n - t
  {
    if n < t then 0.0
    else
      SetUpShare(p, price, n - 1, t) + (Above(price(n), p.unit(t)) - Above(price(n + 1), p.unit(t))) * Need(p, t, n)
  }

  function LotShare(p: Problem, price: int -> real, n: int, t: int): real {
    Below(price(t), p.unit(t)) - Below(price(n + 1), p.unit(t))
  }

  function Charge(p: Problem, price: int -> real, q: Plan, n: int, t: int): real {
    LotShare(p, price, n, t) * q.x(t) + SetUpShare(p, price, n, t) * q.y(t)
  }

  function ChargesOf(p: Problem, price: int -> real, q: Plan, n: int): int -> real { t => Charge(p, price, q, n, t) }

  /** A drop in price splits into a part for the lot and a part for the set-up. */
  lemma {:induction false} DropIsCharged(lot: real, setup: real, a: real, b: real, need: real, x: real, y: real,
                                         covers: real)
    requires 0.0 <= a && 0.0 <= b && covers <= x && covers <= need * y
    ensures lot * x + setup * y + (a + b) * covers <= (lot + a) * x + (setup + b * need) * y
  {
    ProductMonotone(a, covers, x);
    ProductMonotone(b, covers, need * y);
    assert (a + b) * covers == a * covers + b * covers;
    assert (lot + a) * x == lot * x + a * x;
    assert (setup + b * need) * y == setup * y + b * (need * y);
  }

  lemma {:induction false} ChargeStep(p: Problem, price: int -> real, q: Plan, n: nat, t: nat, drop: real, covers: real)
    requires 0.0 <= drop == price(n) - price(n + 1) && covers == Covers(p, q, n, t) && 1 <= t <= n
    ensures Charge(p, price, q, n - 1, t) + drop * covers <= Charge(p, price, q, n, t)
  {
    var cost := p.unit(t);
    var a, b := Below(price(n), cost) - Below(price(n + 1), cost), Above(price(n), cost) - Above(price(n + 1), cost);
    DropIsCharged(LotShare(p, price, n - 1, t), SetUpShare(p, price, n - 1, t), a, b, Need(p, t, n), q.x(t), q.y(t),
                  covers);
    assert a + b == drop;
  }

  lemma {:induction false} RaisesAt(f: int -> real, g: int -> real, h: int -> real, c: real, t: int,
                                    before: real, covers: real, after: real)
    requires f(t) == before && g(t) == covers && h(t) == after && before + c * covers <= after
    ensures Raises(f, g, h, c, t)
  {
  }

  lemma {:induction false} ChargeRaises(p: Problem, price: int -> real, q: Plan, n: nat, t: nat, drop: real)
    requires 0.0 <= drop == price(n) - price(n + 1) && 1 <= t <= n
    ensures Raises(ChargesOf(p, price, q, n - 1), Covering(p, q, n), ChargesOf(p, price, q, n), drop, t)
  {
    ChargeStep(p, price, q, n, t, drop, Covers(p, q, n, t));
    RaisesAt(ChargesOf(p, price, q, n - 1), Covering(p, q, n), ChargesOf(p, price, q, n), drop, t,
             Charge(p, price, q, n - 1, t), Covers(p, q, n, t), Charge(p, price, q, n, t));
  }

  /** The inequality up to `n` holds, so its weight counts as often on the left as on the right. */
  lemma {:induction false} InequalityIsCharged(p: Problem, price: int -> real, q: Plan, n: nat, drop: real, need: real)
    requires CoversAll(p, q) && 1 <= n <= p.T && 0.0 <= drop == price(n) - price(n + 1) && need == Need(p, 1, n)
    ensures Sum(ChargesOf(p, price, q, n - 1), 1, n) + drop * need <= Sum(ChargesOf(p, price, q, n), 1, n + 1)
  {
    var before, after := ChargesOf(p, price, q, n - 1), ChargesOf(p, price, q, n);
    forall t | 1 <= t <= n ensures Raises(before, Covering(p, q, n), after, drop, t) {
      ChargeRaises(p, price, q, n, t, drop);
    }
    SumsRaised(before, Covering(p, q, n), after, drop, n);
    ScaledTotal(Covering(p, q, n), drop, n, need);
    NothingChargedYet(p, price, q, n);
  }

  lemma {:induction false} NothingChargedYet(p: Problem, price: int -> real, q: Plan, n: nat)
    requires 1 <= n
    ensures ChargesOf(p, price, q, n - 1)(n) == 0.0
  {
  }

  // ---------- the sums of drops, by parts ----------

  lemma {:induction false} WeightedStep(total: real, next: real, need: real, high: real, low: real)
    ensures total - need * high + (high - low) * (need + next) == total + next * high - (need + next) * low
  {
  }

  function Demanded(p: Problem, price: int -> real, n: int): real {
    Sum(Worths(p, price), 1, n + 1) - Need(p, 1, n) * price(n + 1)
  }

  lemma {:induction false} DemandedStep(p: Problem, price: int -> real, n: nat, drop: real, need: real)
    requires 1 <= n && drop == price(n) - price(n + 1) && need == Need(p, 1, n)
    ensures Demanded(p, price, n) == Demanded(p, price, n - 1) + drop * need
  {
    WeightedStep(Sum(Worths(p, price), 1, n), p.d(n), Need(p, 1, n - 1), price(n), price(n + 1));
  }

  lemma {:induction false} ChargedStep(p: Problem, price: int -> real, q: Plan, n: nat) returns (more: real)
    requires CoversAll(p, q) && 1 <= n <= p.T && price(n + 1) <= price(n)
    ensures Demanded(p, price, n) == Demanded(p, price, n - 1) + more
    ensures Sum(ChargesOf(p, price, q, n - 1), 1, n) + more <= Sum(ChargesOf(p, price, q, n), 1, n + 1)
  {
    var drop, need := price(n) - price(n + 1), Need(p, 1, n);
    more := drop * need;
    InequalityIsCharged(p, price, q, n, drop, need);
    DemandedStep(p, price, n, drop, need);
  }

  /** The demand up to `n`, each unit at the price of its period above the price after `n`. */
  lemma {:induction false} DemandIsCharged(p: Problem, price: int -> real, q: Plan, n: nat)
    requires CoversAll(p, q) && n <= p.T && forall k :: 1 <= k <= p.T ==> price(k + 1) <= price(k)
    ensures Demanded(p, price, n) <= Sum(ChargesOf(p, price, q, n), 1, n + 1)
  {
    if n > 0 {
      DemandIsCharged(p, price, q, n - 1);
      var more := ChargedStep(p, price, q, n);
    }
  }

  function MarginsLeft(p: Problem, price: int -> real, n: int, t: int): real {
    Sum(Margins(p, price, t), t, n + 1) - Need(p, t, n) * Above(price(n + 1), p.unit(t))
  }

  lemma {:induction false} SetUpShareStep(p: Problem, price: int -> real, n: int, t: int) returns (more: real)
    requires t <= n
    ensures MarginsLeft(p, price, n, t) == MarginsLeft(p, price, n - 1, t) + more
    ensures SetUpShare(p, price, n, t) == SetUpShare(p, price, n - 1, t) + more
  {
    var high, low := Above(price(n), p.unit(t)), Above(price(n + 1), p.unit(t));
    more := (high - low) * Need(p, t, n);
    WeightedStep(Sum(Margins(p, price, t), t, n), p.d(n), Need(p, t, n - 1), high, low);
  }

  lemma {:induction false} SetUpShareIs(p: Problem, price: int -> real, n: int, t: int)
    requires t <= n + 1
    ensures SetUpShare(p, price, n, t) == MarginsLeft(p, price, n, t)
    decreases n - t
  {
    if t <= n {
      SetUpShareIs(p, price, n - 1, t);
      var more := SetUpShareStep(p, price, n, t);
    }
  }

  lemma {:induction false} SharesAreCosts(p: Problem, price: int -> real, t: nat)
    requires NonNegative(p) && FairPrices(p, price) && 1 <= t <= p.T
    ensures LotShare(p, price, p.T, t) <= p.unit(t) && SetUpShare(p, price, p.T, t) <= p.setup(t)
  {
    SetUpShareIs(p, price, p.T, t);
    assert Above(price(p.T + 1), p.unit(t)) == 0.0;
  }

  lemma {:induction false} SharesOfPlan(lot: real, setup: real, x: real, y: real, unitCost: real, setupCost: real)
    requires 0.0 <= x && 0.0 <= y && lot <= unitCost && setup <= setupCost
    ensures lot * x + setup * y <= setupCost * y + unitCost * x
  {
    ProductMonotone(x, lot, unitCost);
    ProductMonotone(y, setup, setupCost);
  }

  lemma {:induction false} ChargeIsCost(p: Problem, price: int -> real, q: Plan, t: nat)
    requires NonNegative(p) && FairPrices(p, price) && CoversAll(p, q) && 1 <= t <= p.T
    ensures ChargesOf(p, price, q, p.T)(t) <= PlanCosts(p, q)(t)
  {
    SharesAreCosts(p, price, t);
    SharesOfPlan(LotShare(p, price, p.T, t), SetUpShare(p, price, p.T, t), q.x(t), q.y(t), p.unit(t), p.setup(t));
  }

  lemma {:induction false} ChargesAreCosts(p: Problem, price: int -> real, q: Plan)
    requires NonNegative(p) && FairPrices(p, price) && CoversAll(p, q)
    ensures Sum(ChargesOf(p, price, q, p.T), 1, p.T + 1) <= Sum(PlanCosts(p, q), 1, p.T + 1)
  {
    var charges, costs := ChargesOf(p, price, q, p.T), PlanCosts(p, q);
    forall t | 1 <= t < p.T + 1 ensures charges(t) <= costs(t) { ChargeIsCost(p, price, q, t); }
    SumMonotone(charges, costs, 1, p.T + 1);
  }

  // ---------- the least cost of serving the first periods ----------

  /** Serving up to `k` when the last set-up is at `t`. */
  function LastAt(p: Problem, t: nat, k: nat): real
    requires 1 <= t <= k
    decreases k, 0, 0
  {
    Least(p, t - 1) + p.setup(t) + p.unit(t) * Need(p, t, k)
  }

  /** The best last set-up among the first `n` periods. */
  function BestLast(p: Problem, k: nat, n: nat): (t: nat)
    requires 1 <= n <= k
    ensures 1 <= t <= n
    decreases k, 1, n
  {
    if n == 1 then 1
    else
      var t := BestLast(p, k, n - 1);
      if LastAt(p, n, k) < LastAt(p, t, k) then n else t
  }

  function Least(p: Problem, k: nat): real
    decreases k, 2, 0
  {
    if k == 0 then 0.0 else if p.d(k) == 0.0 then Least(p, k - 1) else LastAt(p, BestLast(p, k, k), k)
  }

  lemma {:induction false} BestLastIsBest(p: Problem, k: nat, n: nat, t: nat)
    requires 1 <= t <= n <= k
    ensures LastAt(p, BestLast(p, k, n), k) <= LastAt(p, t, k)
  {
    if t < n { BestLastIsBest(p, k, n - 1, t); }
  }

  lemma {:induction false} OneMorePeriod(p: Problem, t: nat, k: nat)
    requires 1 <= t < k
    ensures LastAt(p, t, k) == LastAt(p, t, k - 1) + p.unit(t) * p.d(k)
  {
    Distributes(p.unit(t), Need(p, t, k - 1), p.d(k));
  }

  lemma {:induction false} OnePeriod(p: Problem, k: nat)
    requires 1 <= k
    ensures LastAt(p, k, k) == Least(p, k - 1) + p.setup(k) + p.unit(k) * p.d(k)
  {
    assert Sum(p.d, k, k + 1) == p.d(k);
  }

  lemma {:induction false} NothingNeeded(p: Problem, t: nat, k: nat)
    requires 1 <= t <= k && p.d(k) == 0.0
    ensures t < k ==> LastAt(p, t, k) == LastAt(p, t, k - 1)
    ensures t == k ==> LastAt(p, t, k) == Least(p, k - 1) + p.setup(k)
  {
    if t < k { OneMorePeriod(p, t, k); } else { OnePeriod(p, k); }
  }

  /** No last set-up does better than the least cost. */
  lemma {:induction false} LeastAtMost(p: Problem, t: nat, k: nat)
    requires NonNegative(p) && 1 <= t <= k <= p.T
    ensures Least(p, k) <= LastAt(p, t, k)
  {
    if p.d(k) != 0.0 {
      BestLastIsBest(p, k, k, t);
    } else {
      NothingNeeded(p, t, k);
      if t < k { LeastAtMost(p, t, k - 1); }
    }
  }

  // ---------- prices that never rise ----------

  /** What one unit of demand in period `k` adds to the least cost; a period without demand takes the next price. */
  function Price(p: Problem, k: nat): real
    requires 1 <= k
    decreases p.T + 1 - k
  {
    if k > p.T then 0.0 else if p.d(k) > 0.0 then (Least(p, k) - Least(p, k - 1)) / p.d(k) else Price(p, k + 1)
  }

  lemma {:induction false} Quotient(a: real, d: real, c: real)
    requires d > 0.0
    ensures d * (a / d) == a
    ensures a <= c * d ==> a / d <= c
    ensures a >= c * d ==> a / d >= c
  {
    var q := a / d;
    assert q * d == a;
    if q > c { ProductPositive(q - c, d); }
    if q < c { ProductPositive(c - q, d); }
  }

  lemma {:induction false} PriceTimesDemand(p: Problem, k: nat)
    requires NonNegative(p) && 1 <= k <= p.T
    ensures p.d(k) * Price(p, k) == Least(p, k) - Least(p, k - 1)
  {
    if p.d(k) > 0.0 { Quotient(Least(p, k) - Least(p, k - 1), p.d(k), 0.0); }
  }

  /** A set-up at `t` that is best for the periods before `k` could go on serving them. */
  lemma {:induction false} PriceAtMost(p: Problem, t: nat, k: nat)
    requires NonNegative(p) && 1 <= t < k <= p.T + 1
    requires Least(p, k - 1) == LastAt(p, t, k - 1)
    ensures Price(p, k) <= p.unit(t)
    decreases p.T + 1 - k
  {
    if k <= p.T {
      LeastAtMost(p, t, k);
      OneMorePeriod(p, t, k);
      if p.d(k) > 0.0 {
        Quotient(Least(p, k) - Least(p, k - 1), p.d(k), p.unit(t));
      } else {
        PriceAtMost(p, t, k + 1);
      }
    }
  }

  lemma {:induction false} PriceAtLeast(p: Problem, k: nat)
    requires NonNegative(p) && 1 <= k <= p.T && p.d(k) > 0.0
    ensures Price(p, k) >= p.unit(BestLast(p, k, k))
  {
    var t := BestLast(p, k, k);
    if t < k {
      LeastAtMost(p, t, k - 1);
      OneMorePeriod(p, t, k);
    } else {
      OnePeriod(p, k);
    }
    Quotient(Least(p, k) - Least(p, k - 1), p.d(k), p.unit(t));
  }

  lemma PriceFalls(p: Problem, k: nat)
    requires NonNegative(p) && 1 <= k <= p.T
    ensures Price(p, k + 1) <= Price(p, k)
  {
    if p.d(k) > 0.0 {
      PriceAtLeast(p, k);
      PriceAtMost(p, BestLast(p, k, k), k + 1);
    }
  }

  lemma {:induction false} PricesFall(p: Problem, k: nat, m: nat)
    requires NonNegative(p) && 1 <= k <= m <= p.T + 1
    ensures Price(p, m) <= Price(p, k)
  {
    if k < m {
      PricesFall(p, k, m - 1);
      PriceFalls(p, m - 1);
    }
  }

  /** The prices as a function of the period, as fair prices are. */
  function Prices(p: Problem): int -> real { k => if 1 <= k then Price(p, k) else 0.0 }

  lemma {:induction false} WorthOfPeriod(p: Problem, k: nat)
    requires NonNegative(p) && 1 <= k <= p.T
    ensures Worths(p, Prices(p))(k) == Least(p, k) - Least(p, k - 1)
  {
    PriceTimesDemand(p, k);
  }

  /** Valued at the prices, the demand is worth what it costs. */
  lemma {:induction false} PricesAddUp(p: Problem, t: nat, k: nat)
    requires NonNegative(p) && 1 <= t <= k + 1 && k <= p.T
    ensures Sum(Worths(p, Prices(p)), t, k + 1) == Least(p, k) - Least(p, t - 1)
  {
    if t <= k {
      PricesAddUp(p, t, k - 1);
      WorthOfPeriod(p, k);
    }
  }

  lemma {:induction false} MarginOfPrice(d: real, price: real, cost: real)
    requires price >= cost
    ensures d * price == d * Above(price, cost) + cost * d
  {
  }

  lemma {:induction false} MarginsStep(p: Problem, price: int -> real, t: nat, m: nat) returns (more: real)
    requires 1 <= t <= m && price(m) >= p.unit(t)
    ensures Worths(p, price)(m) == Margins(p, price, t)(m) + more
    ensures p.unit(t) * Need(p, t, m) == p.unit(t) * Need(p, t, m - 1) + more
  {
    more := p.unit(t) * p.d(m);
    MarginOfPrice(p.d(m), price(m), p.unit(t));
    Distributes(p.unit(t), Need(p, t, m - 1), p.d(m));
  }

  lemma {:induction false} MarginsOfPrices(p: Problem, price: int -> real, t: nat, m: nat)
    requires 1 <= t <= m + 1 && forall k :: t <= k <= m ==> price(k) >= p.unit(t)
    ensures Sum(Worths(p, price), t, m + 1) == Sum(Margins(p, price, t), t, m + 1) + p.unit(t) * Need(p, t, m)
  {
    if t <= m {
      MarginsOfPrices(p, price, t, m - 1);
      var more := MarginsStep(p, price, t, m);
    }
  }

  lemma {:induction false} NoMargin(p: Problem, price: int -> real, t: int, k: int)
    requires p.d(k) == 0.0 || price(k) <= p.unit(t)
    ensures Margins(p, price, t)(k) == 0.0
  {
  }

  /** Demand served from one set-up is worth no more than that costs. */
  lemma {:induction false} WorthOfRun(p: Problem, t: nat, m: nat)
    requires NonNegative(p) && 1 <= t <= m <= p.T
    ensures Sum(Worths(p, Prices(p)), t, m + 1) <= p.setup(t) + p.unit(t) * Need(p, t, m)
  {
    PricesAddUp(p, t, m);
    LeastAtMost(p, t, m);
  }

  /** Margins of prices `price`, all above the unit cost of period `t`. */
  lemma {:induction false} MarginsOfRun(p: Problem, price: int -> real, t: nat, m: nat)
    requires 1 <= t <= m && forall k :: t <= k <= m ==> price(k) >= p.unit(t)
    requires Sum(Worths(p, price), t, m + 1) <= p.setup(t) + p.unit(t) * Need(p, t, m)
    ensures Sum(Margins(p, price, t), t, m + 1) <= p.setup(t)
  {
    MarginsOfPrices(p, price, t, m);
  }

  /** The margins over the unit cost of a period never exceed its set-up cost. */
  lemma {:induction false} MarginsPaySetUp(p: Problem, t: nat, m: nat)
    requires NonNegative(p) && 1 <= t <= p.T && t <= m + 1 && m <= p.T
    ensures Sum(Margins(p, Prices(p), t), t, m + 1) <= p.setup(t)
  {
    if t <= m {
      var price := Prices(p);
      if p.d(m) == 0.0 || Price(p, m) <= p.unit(t) {
        MarginsPaySetUp(p, t, m - 1);
        NoMargin(p, price, t, m);
      } else {
        forall k | t <= k <= m ensures price(k) >= p.unit(t) { PricesFall(p, k, m); }
        WorthOfRun(p, t, m);
        MarginsOfRun(p, price, t, m);
      }
    }
  }

  // ---------- an integer plan of exactly that cost ----------

  function SetAt(f: int -> real, t: int, value: real): int -> real { k => if k == t then value else f(k) }

  /** The plan that the dynamic program finds for the first `k` periods. */
  function BestPlan(p: Problem, k: nat): Plan {
    if k == 0 then Plan(t => 0.0, t => 0.0)
    else if p.d(k) == 0.0 then BestPlan(p, k - 1)
    else
      var t := BestLast(p, k, k);
      var before := BestPlan(p, t - 1);
      Plan(SetAt(before.y, t, 1.0), SetAt(before.x, t, Need(p, t, k)))
  }

  predicate LotOfPlan(p: Problem, q: Plan, k: nat, t: int) {
    && Binary(q.y(t)) && 0.0 <= q.x(t) <= Need(p, 1, p.T) && (q.y(t) == 0.0 || t > k ==> q.x(t) == 0.0 == q.y(t))
  }

  lemma {:induction false} NeedSplits(p: Problem, t: nat, k: nat, m: nat)
    requires NonNegative(p) && 1 <= t <= k + 1 <= m + 1 && m <= p.T
    ensures Need(p, t, m) == Need(p, t, k) + Need(p, k + 1, m)
    ensures 0.0 <= Need(p, t, k) && 0.0 <= Need(p, k + 1, m)
  {
    SumSplit(p.d, t, k + 1, m + 1);
    SumNonneg(p.d, t, k + 1);
    SumNonneg(p.d, k + 1, m + 1);
  }

  lemma {:induction false} BestPlanIsIntegral(p: Problem, k: nat, t: int)
    requires NonNegative(p) && k <= p.T && 1 <= t
    ensures LotOfPlan(p, BestPlan(p, k), k, t)
  {
    if k == 0 {
      SumNonneg(p.d, 1, p.T + 1);
    } else if p.d(k) == 0.0 {
      BestPlanIsIntegral(p, k - 1, t);
    } else {
      var last := BestLast(p, k, k);
      BestPlanIsIntegral(p, last - 1, t);
      NeedSplits(p, 1, last - 1, p.T);
      NeedSplits(p, last, k, p.T);
    }
  }

  /** The sum up to `j` after setting the value at `t`, where nothing but zeros was from `t` on. */
  lemma {:induction false} SumSetAt(f: int -> real, g: int -> real, t: nat, j: nat)
    requires 1 <= t && forall k :: 1 <= k <= j && k != t ==> g(k) == f(k)
    requires forall k :: t <= k <= j ==> f(k) == 0.0
    ensures Sum(g, 1, j + 1) == if j < t then Sum(f, 1, j + 1) else Sum(f, 1, t) + g(t)
  {
    if j < t {
      SumCongruent(g, f, 1, j + 1);
    } else {
      SumSplit(g, 1, t, j + 1);
      SumCongruent(g, f, 1, t);
      SumSingle(g, t, j + 1, t);
    }
  }

  lemma {:induction false} NothingAfter(p: Problem, k: nat, t: int)
    requires NonNegative(p) && k <= p.T && k < t
    ensures BestPlan(p, k).x(t) == 0.0 == BestPlan(p, k).y(t)
  {
    BestPlanIsIntegral(p, k, t);
  }

  /** What the last set-up adds to a plan for the periods before it, up to `j`. */
  lemma {:induction false} LastLot(p: Problem, before: Plan, x: int -> real, t: nat, k: nat, j: nat)
    requires NonNegative(p) && 1 <= t <= k <= p.T && j <= k
    requires forall i :: t <= i <= j ==> before.x(i) == 0.0
    requires x == SetAt(before.x, t, Need(p, t, k))
    requires j < t ==> Need(p, 1, j) <= Sum(before.x, 1, j + 1)
    requires t <= j ==> Need(p, 1, t - 1) <= Sum(before.x, 1, t)
    ensures Need(p, 1, j) <= Sum(x, 1, j + 1)
  {
    SumSetAt(before.x, x, t, j);
    if t <= j {
      NeedSplits(p, 1, t - 1, j);
      NeedSplits(p, t, j, k);
    }
  }

  /** It is in time with every demand. */
  lemma {:induction false} BestPlanServes(p: Problem, k: nat, j: nat)
    requires NonNegative(p) && j <= k <= p.T
    ensures Need(p, 1, j) <= Sum(BestPlan(p, k).x, 1, j + 1)
  {
    if k == 0 {
    } else if p.d(k) == 0.0 {
      BestPlanServes(p, k - 1, if j == k then k - 1 else j);
      if j == k { NothingAfter(p, k - 1, k); }
    } else {
      var t := BestLast(p, k, k);
      var before := BestPlan(p, t - 1);
      forall i | t <= i <= j ensures before.x(i) == 0.0 { NothingAfter(p, t - 1, i); }
      BestPlanServes(p, t - 1, if j < t then j else t - 1);
      LastLot(p, before, BestPlan(p, k).x, t, k, j);
    }
  }

  lemma {:induction false} CostOfLot(p: Problem, q: Plan, t: int, y: real, x: real)
    requires q.y(t) == y && q.x(t) == x
    ensures PlanCosts(p, q)(t) == p.setup(t) * y + p.unit(t) * x
    ensures x == 0.0 == y ==> PlanCosts(p, q)(t) == 0.0
    ensures y == 1.0 ==> PlanCosts(p, q)(t) == p.setup(t) + p.unit(t) * x
  {
  }

  /** One more set-up at `t`, with a lot of size `x`, after a plan that ends before `t`. */
  ghost predicate OneMoreLot(before: Plan, after: Plan, t: nat, k: nat, x: real) {
    && (forall i :: t <= i <= k ==> before.x(i) == 0.0 && before.y(i) == 0.0)
    && after.y(t) == 1.0 && after.x(t) == x
    && (forall i :: 1 <= i <= k && i != t ==> after.y(i) == before.y(i) && after.x(i) == before.x(i))
  }

  lemma {:induction false} CostOfOneMore(p: Problem, before: Plan, after: Plan, t: nat, k: nat, x: real)
    requires 1 <= t <= k && OneMoreLot(before, after, t, k, x)
    ensures Sum(PlanCosts(p, after), 1, k + 1) == Sum(PlanCosts(p, before), 1, t) + p.setup(t) + p.unit(t) * x
  {
    var costs, costs' := PlanCosts(p, before), PlanCosts(p, after);
    forall i | t <= i <= k ensures costs(i) == 0.0 { CostOfLot(p, before, i, 0.0, 0.0); }
    forall i | 1 <= i <= k && i != t ensures costs'(i) == costs(i) {
      CostOfLot(p, before, i, before.y(i), before.x(i));
      CostOfLot(p, after, i, before.y(i), before.x(i));
    }
    CostOfLot(p, after, t, 1.0, x);
    SumSetAt(costs, costs', t, k);
  }

  lemma {:induction false} BestPlanAddsLot(p: Problem, k: nat, t: nat)
    requires NonNegative(p) && 1 <= k <= p.T && p.d(k) != 0.0 && t == BestLast(p, k, k)
    ensures OneMoreLot(BestPlan(p, t - 1), BestPlan(p, k), t, k, Need(p, t, k))
  {
    var before := BestPlan(p, t - 1);
    forall i | t <= i <= k ensures before.x(i) == 0.0 && before.y(i) == 0.0 { NothingAfter(p, t - 1, i); }
  }

  lemma {:induction false} LastSetUpCosts(p: Problem, before: Plan, after: Plan, t: nat, k: nat) returns (more: real)
    requires 1 <= k && p.d(k) != 0.0 && t == BestLast(p, k, k) && OneMoreLot(before, after, t, k, Need(p, t, k))
    ensures Sum(PlanCosts(p, after), 1, k + 1) == Sum(PlanCosts(p, before), 1, t) + more
    ensures Least(p, k) == Least(p, t - 1) + more
  {
    more := LastAt(p, t, k) - Least(p, t - 1);
    CostOfOneMore(p, before, after, t, k, Need(p, t, k));
  }

  lemma {:induction false} NothingToServe(p: Problem, k: nat, q: Plan)
    requires NonNegative(p) && 1 <= k <= p.T && p.d(k) == 0.0 && q == BestPlan(p, k - 1)
    ensures q == BestPlan(p, k) && Sum(PlanCosts(p, q), 1, k + 1) == Sum(PlanCosts(p, q), 1, k)
  {
    NothingAfter(p, k - 1, k);
    CostOfLot(p, q, k, 0.0, 0.0);
  }

  /** And it costs the least. */
  lemma {:induction false} BestPlanCosts(p: Problem, k: nat)
    requires NonNegative(p) && k <= p.T
    ensures Sum(PlanCosts(p, BestPlan(p, k)), 1, k + 1) == Least(p, k)
  {
    if k == 0 {
    } else if p.d(k) == 0.0 {
      BestPlanCosts(p, k - 1);
      NothingToServe(p, k, BestPlan(p, k - 1));
    } else {
      var t := BestLast(p, k, k);
      BestPlanCosts(p, t - 1);
      BestPlanAddsLot(p, k, t);
      var more := LastSetUpCosts(p, BestPlan(p, t - 1), BestPlan(p, k), t, k);
    }
  }
}
