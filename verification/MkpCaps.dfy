/** Which capacities make the sub-symmetry inequalities lossless for every list of items. */
module KnapsackCapacities {
  import opened Sums
  import opened MultipleKnapsack
  import opened KnapsackSeats

  lemma {:induction false} OrderlyLosesNothing(inst: Instance, p: Packing) returns (q: Packing)
    requires Feasible(inst, p) && NonNegativeWeights(inst) && Orderly(inst.capacities)
    ensures Feasible(inst, q) && Profit(inst, q) == Profit(inst, p)
    ensures TakesFirstEverywhere(inst, q, false) && TakesFirstEverywhere(inst, q, true)
    decreases ValueLimit(inst) - PackedValue(inst, p)
  {
    var items := Items(inst.uniqueItems);
    if i, j1, j2 :| 0 <= i < |items| && IsPair(false, |inst.capacities|, j1, j2)
                    && !TakesFirst(items, p.knapsack(j1).x, p.knapsack(j2).x, i) {
      var next := OrderlyStep(inst, p, i, j1, j2);
      q := OrderlyLosesNothing(inst, next);
    } else {
      q := p;
      assert forall j1, j2 :: IsPair(true, |inst.capacities|, j1, j2) ==> IsPair(false, |inst.capacities|, j1, j2);
    }
  }

  lemma OrderlyIsLossless(capacities: seq<int>, consecutive: bool)
    requires Orderly(capacities)
    ensures AlwaysLossless(capacities, consecutive)
  {
    forall uniqueItems, p | NonNegativeWeights(Instance(capacities, uniqueItems))
      && Feasible(Instance(capacities, uniqueItems), p)
      ensures Lossless(Instance(capacities, uniqueItems), p, consecutive)
    {
      var q := OrderlyLosesNothing(Instance(capacities, uniqueItems), p);
      assert TakesFirstEverywhere(Instance(capacities, uniqueItems), q, consecutive);
    }
  }

  /** All needed items can be packed. */
  lemma {:induction false} SeatedIsFeasible(capacities: seq<int>, first: int, top: int, b: int, count: nat)
    requires 0 <= b < |capacities| && 0 <= first && 0 <= top && forall k :: 0 <= k < |capacities| ==> capacities[k] >= 0
    requires 0 <= first <= capacities[b] && (capacities[b] == top ==> count == 0)
    requires count <= Rank(capacities, top, |capacities|)
    ensures Feasible(Instance(capacities, Needs(first, top, count)), Seated(capacities, top, b))
    ensures NonNegativeWeights(Instance(capacities, Needs(first, top, count)))
  {
    ItemsNeeded(first, top, count);
    SeatedRows(capacities, top, b, count);
    forall j | 0 <= j < |capacities|
      ensures CapacityRow(Items(Needs(first, top, count)), capacities[j], Seated(capacities, top, b).knapsack(j).x)
    {
      SeatedLoad(capacities, first, top, b, count, j);
    }
  }

  /** If the first knapsack is a largest one, the first item takes a seat that some copy needs. */
  lemma NoSeatLeft(capacities: seq<int>, first: int, top: int, q: Packing, consecutive: bool)
    requires capacities != [] && forall k :: 0 <= k < |capacities| ==> 0 <= capacities[k] <= top
    requires capacities[0] == top && 1 <= first && 1 <= top
    requires var inst := Instance(capacities, Needs(first, top, Rank(capacities, top, |capacities|)));
             Feasible(inst, q) && TakesFirstEverywhere(inst, q, consecutive)
    ensures var count := Rank(capacities, top, |capacities|);
            Profit(Instance(capacities, Needs(first, top, count)), q) < (count + 1) as real
  {
    var count := Rank(capacities, top, |capacities|);
    var inst := Instance(capacities, Needs(first, top, count));
    if Profit(inst, q) >= (count + 1) as real {
      ItemsNeeded(first, top, count);
      EveryItemPlaced(capacities, first, top, count, q, 0);
      FirstItemInFirstKnapsack(inst, q, consecutive);
      CopiesPerKnapsack(capacities, first, top, count, q, 0);
      SeatMissed(capacities, first, top, count, q, 0);
    }
  }

  /** If it is not, a single item of the largest capacity does not fit where the rows want it. */
  lemma FirstKnapsackTooSmall(capacities: seq<int>, top: int, q: Packing, consecutive: bool)
    requires capacities != [] && capacities[0] < top
    requires var inst := Instance(capacities, Needs(top, top, 0));
             Feasible(inst, q) && TakesFirstEverywhere(inst, q, consecutive)
    ensures Profit(Instance(capacities, Needs(top, top, 0)), q) < 1.0
  {
    var inst := Instance(capacities, Needs(top, top, 0));
    ItemsNeeded(top, top, 0);
    if Profit(inst, q) >= 1.0 {
      EveryItemPlaced(capacities, top, top, 0, q, 0);
      FirstItemInFirstKnapsack(inst, q, consecutive);
      LoadOfNeeded(capacities, top, top, 0, q, 0);
    }
  }

  /** The first knapsack is too small for what some other one can hold. */
  lemma SmallFirstLoses(capacities: seq<int>, b: int, consecutive: bool)
    requires 0 <= b < |capacities| && 0 <= capacities[0] < capacities[b]
    requires forall k :: 0 <= k < |capacities| ==> 0 <= capacities[k]
    ensures !AlwaysLossless(capacities, consecutive)
  {
    var top := capacities[b];
    SeatedIsFeasible(capacities, top, top, b, 0);
    SeatedProfit(capacities, top, top, b, 0);
    forall q | Feasible(Instance(capacities, Needs(top, top, 0)), q)
               && TakesFirstEverywhere(Instance(capacities, Needs(top, top, 0)), q, consecutive)
      ensures Profit(Instance(capacities, Needs(top, top, 0)), q) < 1.0
    {
      FirstKnapsackTooSmall(capacities, top, q, consecutive);
    }
    LostPacking(capacities, Needs(top, top, 0), Seated(capacities, top, b), consecutive);
  }

  /** Some knapsack can hold something, but less than the first. */
  lemma UnequalLoses(capacities: seq<int>, top: int, small: int, consecutive: bool)
    requires 0 <= small < |capacities| && 0 < capacities[small] < top == capacities[0]
    requires forall k :: 0 <= k < |capacities| ==> 0 <= capacities[k] <= top
    ensures !AlwaysLossless(capacities, consecutive)
  {
    var first, count := capacities[small], Rank(capacities, top, |capacities|);
    SeatedIsFeasible(capacities, first, top, small, count);
    SeatedProfit(capacities, first, top, small, count);
    var inst := Instance(capacities, Needs(first, top, count));
    forall q | Feasible(inst, q) && TakesFirstEverywhere(inst, q, consecutive)
      ensures Profit(inst, q) < (count + 1) as real
    {
      NoSeatLeft(capacities, first, top, q, consecutive);
    }
    LostPacking(capacities, Needs(first, top, count), Seated(capacities, top, small), consecutive);
  }

  /** A knapsack of capacity 0 comes right before one that can hold something. */
  lemma GapLoses(capacities: seq<int>, top: int, z: int, consecutive: bool)
    requires 0 <= z < z + 1 < |capacities| && capacities[z] == 0 && capacities[z + 1] == top && 1 <= top
    requires forall k :: 0 <= k < |capacities| ==> 0 <= capacities[k] <= top
    ensures !AlwaysLossless(capacities, consecutive)
  {
    var count := Rank(capacities, top, |capacities|);
    SeatedIsFeasible(capacities, 0, top, z, count);
    SeatedProfit(capacities, 0, top, z, count);
    var inst := Instance(capacities, Needs(0, top, count));
    forall q | Feasible(inst, q) && TakesFirstEverywhere(inst, q, consecutive)
      ensures Profit(inst, q) < (count + 1) as real
    {
      NoCopiesBehindGap(capacities, top, count, q, consecutive, z);
      SeatMissed(capacities, 0, top, count, q, z + 1);
    }
    LostPacking(capacities, Needs(0, top, count), Seated(capacities, top, z), consecutive);
  }

  /**
   The rows lose nothing for any items exactly when some capacity is negative, so that nothing can be packed,
   or every positive capacity equals all capacities before it.
   */
  lemma LosslessExactly(capacities: seq<int>, consecutive: bool)
    ensures AlwaysLossless(capacities, consecutive) <==>
            (exists j :: 0 <= j < |capacities| && capacities[j] < 0) || Orderly(capacities)
  {
    if j :| 0 <= j < |capacities| && capacities[j] < 0 {
      NegativeIsLossless(capacities, consecutive, j);
    } else if Orderly(capacities) {
      OrderlyIsLossless(capacities, consecutive);
    } else {
      var j1, j2 :| 0 <= j1 < j2 < |capacities| && capacities[j2] > 0 && capacities[j1] != capacities[j2];
      var b := LargestCapacity(capacities);
      var top := capacities[b];
      if capacities[0] < top {
        SmallFirstLoses(capacities, b, consecutive);
      } else if small :| 0 <= small < |capacities| && 0 < capacities[small] < top {
        UnequalLoses(capacities, top, small, consecutive);
      } else {
        var z := GapBetween(capacities, j1, j2);
        GapLoses(capacities, top, z, consecutive);
      }
    }
  }

  /** For positive capacities that is when all of them are equal. */
  lemma LosslessExactlyWhenEqual(capacities: seq<int>, consecutive: bool)
    requires forall k :: 0 <= k < |capacities| ==> capacities[k] >= 1
    ensures AlwaysLossless(capacities, consecutive) <==> EqualCapacities(Instance(capacities, []))
  {
    LosslessExactly(capacities, consecutive);
  }
}

/** Items that fill the largest knapsacks, and what the inequalities make of them. */
module KnapsackSeats {
  import opened Sums
  import opened MultipleKnapsack

  /** Some packing that is at least as good meets the rows. */
  ghost predicate Lossless(inst: Instance, p: Packing, consecutive: bool) {
    exists p' :: Feasible(inst, p') && TakesFirstEverywhere(inst, p', consecutive)
      && Profit(inst, p) <= Profit(inst, p')
  }

  ghost predicate AlwaysLossless(capacities: seq<int>, consecutive: bool) {
    forall uniqueItems, p ::
      var inst := Instance(capacities, uniqueItems);
      NonNegativeWeights(inst) && Feasible(inst, p) ==> Lossless(inst, p, consecutive)
  }

  // ---------- a list of items that needs every largest knapsack ----------

  /** One item of weight `first`, and `count` items of weight `top`; each is worth 1. */
  function Needs(first: int, top: int, count: nat): seq<Item> { [Item(first, 1, 1), Item(top, 1, count)] }

  lemma ItemsNeeded(first: int, top: int, count: nat)
    ensures var items := Items(Needs(first, top, count));
            && |items| == count + 1 && items[0] == Item(first, 1, 1)
            && forall i :: 1 <= i <= count ==> items[i] == Item(top, 1, count)
  {
    var unique := Needs(first, top, count);
    assert unique[..1][..0] == [] && Items(unique[..1][..0]) == [];
    assert Items(unique[..1]) == [Item(first, 1, 1)];
  }

  /** The number of knapsacks before `j` that have capacity `top`. */
  function Rank(capacities: seq<int>, top: int, j: nat): nat
    requires j <= |capacities|
  {
    if j == 0 then 0 else Rank(capacities, top, j - 1) + if capacities[j - 1] == top then 1 else 0
  }

  function LargestTerm(capacities: seq<int>, top: int, j: int): real {
    if 0 <= j < |capacities| && capacities[j] == top then 1.0 else 0.0
  }

  function LargestTerms(capacities: seq<int>, top: int): int -> real { j => LargestTerm(capacities, top, j) }

  lemma {:induction false} RankIsSum(capacities: seq<int>, top: int, n: nat)
    requires n <= |capacities|
    ensures Sum(LargestTerms(capacities, top), 0, n) == Rank(capacities, top, n) as real
  {
    if n > 0 { RankIsSum(capacities, top, n - 1); }
  }

  // ---------- with orderly capacities nothing is lost ----------

  /** A knapsack that can hold something has the capacity of all before it. */
  ghost predicate Orderly(capacities: seq<int>) {
    forall j1, j2 :: 0 <= j1 < j2 < |capacities| && capacities[j2] > 0 ==> capacities[j1] == capacities[j2]
  }

  /** What a knapsack of capacity 0 holds weighs nothing. */
  lemma {:induction false} EmptyKnapsack(inst: Instance, p: Packing, i: int, j: int)
    requires Feasible(inst, p) && NonNegativeWeights(inst) && 0 <= j < |inst.capacities| && inst.capacities[j] <= 0
    requires 0 <= i < |Items(inst.uniqueItems)| && p.knapsack(j).x(i) == 1.0
    ensures Items(inst.uniqueItems)[i].weight == 0
  {
    var items := Items(inst.uniqueItems);
    var terms := LoadTerms(items, p.knapsack(j).x);
    forall k | 0 <= k < |items| ensures 0.0 <= terms(k) { assert Domain(p, k, j); }
    TermAtMostSum(terms, 0, |items|, i);
    assert CapacityRow(items, inst.capacities[j], p.knapsack(j).x);
  }

  lemma {:induction false} OrderlyStep(inst: Instance, p: Packing, i: int, j1: int, j2: int) returns (next: Packing)
    requires Feasible(inst, p) && NonNegativeWeights(inst) && Orderly(inst.capacities)
    requires 0 <= i < |Items(inst.uniqueItems)| && IsPair(false, |inst.capacities|, j1, j2)
    requires !TakesFirst(Items(inst.uniqueItems), p.knapsack(j1).x, p.knapsack(j2).x, i)
    ensures Feasible(inst, next) && Profit(inst, next) == Profit(inst, p)
    ensures PackedValue(inst, p) < PackedValue(inst, next) < ValueLimit(inst)
  {
    assert Domain(p, i, j1) && Domain(p, i, j2);
    if inst.capacities[j1] == inst.capacities[j2] {
      next := SwapSuffix(p, i, j1, j2);
      ViolationTrade(inst, p, i, j1, j2);
    } else {
      next := MoveItem(p, i, j1, j2);
      EmptyKnapsack(inst, p, i, j2);
      MoveKeepsFeasibilityAndProfit(inst, p, i, j1, j2);
      MoveGrows(inst, p, i, j1, j2);
    }
  }

  /** No packing fits a negative capacity, so there is none to lose. */
  lemma NegativeIsLossless(capacities: seq<int>, consecutive: bool, j: int)
    requires 0 <= j < |capacities| && capacities[j] < 0
    ensures AlwaysLossless(capacities, consecutive)
  {
    forall uniqueItems, p | NonNegativeWeights(Instance(capacities, uniqueItems))
      ensures !Feasible(Instance(capacities, uniqueItems), p)
    {
      if Feasible(Instance(capacities, uniqueItems), p) { CapacityNonneg(Instance(capacities, uniqueItems), p, j); }
    }
  }

  lemma {:induction false} CapacityNonneg(inst: Instance, p: Packing, j: int)
    requires Feasible(inst, p) && NonNegativeWeights(inst) && 0 <= j < |inst.capacities|
    ensures 0 <= inst.capacities[j]
  {
    var items := Items(inst.uniqueItems);
    var terms := LoadTerms(items, p.knapsack(j).x);
    forall k | 0 <= k < |items| ensures 0.0 <= terms(k) { assert Domain(p, k, j); }
    SumNonneg(terms, 0, |items|);
    assert CapacityRow(items, inst.capacities[j], p.knapsack(j).x);
  }

  // ---------- a packing of all needed items ----------

  predicate Seat(capacities: seq<int>, top: int, b: int, i: int, j: int) {
    if i == 0 then j == b else 0 <= j < |capacities| && capacities[j] == top && Rank(capacities, top, j) + 1 == i
  }

  /** The first item in knapsack `b`, and one of the others in each of the largest knapsacks. */
  function SeatColumn(capacities: seq<int>, top: int, b: int, j: int): Column {
    Column(i => if Seat(capacities, top, b, i, j) then 1.0 else 0.0)
  }

  function Seated(capacities: seq<int>, top: int, b: int): Packing {
    Packing(j => SeatColumn(capacities, top, b, j))
  }

  lemma {:induction false} OneSeatEach(capacities: seq<int>, top: int, b: int, i: int, n: nat)
    requires 1 <= i && n <= |capacities|
    ensures Sum(ItemRowTerms(Seated(capacities, top, b), i), 0, n) == if i <= Rank(capacities, top, n) then 1.0 else 0.0
  {
    if n > 0 { OneSeatEach(capacities, top, b, i, n - 1); }
  }

  lemma SeatedItemRow(capacities: seq<int>, top: int, b: int, count: nat, i: int)
    requires 0 <= b < |capacities| && 0 <= i <= count <= Rank(capacities, top, |capacities|)
    ensures Sum(ItemRowTerms(Seated(capacities, top, b), i), 0, |capacities|) == 1.0
  {
    if i == 0 {
      SumSingle(ItemRowTerms(Seated(capacities, top, b), 0), 0, |capacities|, b);
    } else {
      OneSeatEach(capacities, top, b, i, |capacities|);
    }
  }

  lemma {:induction false} SeatedTerm(capacities: seq<int>, items: seq<Item>, top: int, b: int, j: int, k: int)
    requires 0 <= k < |items|
    ensures LoadTerms(items, SeatColumn(capacities, top, b, j).x)(k) ==
            if Seat(capacities, top, b, k, j) then items[k].weight as real else 0.0
  {
  }

  lemma {:induction false} SeatedLoad(capacities: seq<int>, first: int, top: int, b: int, count: nat, j: int)
    requires 0 <= b < |capacities| && 0 <= j < |capacities| && forall k :: 0 <= k < |capacities| ==> capacities[k] >= 0
    requires 0 <= first <= capacities[b] && (capacities[b] == top ==> count == 0)
    ensures CapacityRow(Items(Needs(first, top, count)), capacities[j], Seated(capacities, top, b).knapsack(j).x)
  {
    ItemsNeeded(first, top, count);
    var items, x := Items(Needs(first, top, count)), SeatColumn(capacities, top, b, j).x;
    var terms, seat := LoadTerms(items, x), Rank(capacities, top, j) + 1;
    forall k | 0 <= k < count + 1
      ensures terms(k) == if Seat(capacities, top, b, k, j) then items[k].weight as real else 0.0
    {
      SeatedTerm(capacities, items, top, b, j, k);
    }
    if j == b {
      SumSingle(terms, 0, count + 1, 0);
    } else if capacities[j] == top && seat <= count {
      SumSingle(terms, 0, count + 1, seat);
    } else {
      SumZero(terms, 0, count + 1);
    }
  }

  lemma UnitProfit(items: seq<Item>, m: nat, p: Packing, i: int)
    requires 0 <= i < |items| && items[i].profit == 1
    ensures ItemProfits(items, m, p)(i) == Sum(ItemRowTerms(p, i), 0, m)
  {
    SumCongruent(ProfitTerms(items[i], p, i), ItemRowTerms(p, i), 0, m);
  }

  lemma {:induction false} SeatedProfit(capacities: seq<int>, first: int, top: int, b: int, count: nat)
    requires 0 <= b < |capacities| && count <= Rank(capacities, top, |capacities|)
    ensures Profit(Instance(capacities, Needs(first, top, count)), Seated(capacities, top, b)) == (count + 1) as real
  {
    ItemsNeeded(first, top, count);
    var items, p := Items(Needs(first, top, count)), Seated(capacities, top, b);
    var profits := ItemProfits(items, |capacities|, p);
    forall i | 0 <= i < |items| ensures profits(i) == AllOnes()(i) {
      SeatedItemRow(capacities, top, b, count, i);
      UnitProfit(items, |capacities|, p, i);
    }
    SumCongruent(profits, AllOnes(), 0, |items|);
    SumOfOnes(|items|);
  }

  lemma SeatedRows(capacities: seq<int>, top: int, b: int, count: nat)
    requires 0 <= b < |capacities| && count <= Rank(capacities, top, |capacities|)
    ensures forall i :: 0 <= i <= count ==> ItemRow(|capacities|, Seated(capacities, top, b), i)
    ensures forall i, j :: Domain(Seated(capacities, top, b), i, j)
  {
    forall i | 0 <= i <= count ensures ItemRow(|capacities|, Seated(capacities, top, b), i) {
      SeatedItemRow(capacities, top, b, count, i);
    }
  }

  // ---------- the rows keep some needed item out ----------

  /** A packing of full profit places every needed item. */
  lemma EveryItemPlaced(capacities: seq<int>, first: int, top: int, count: nat, q: Packing, i: int)
    requires var inst := Instance(capacities, Needs(first, top, count));
             Feasible(inst, q) && Profit(inst, q) >= (count + 1) as real
    requires 0 <= i <= count
    ensures Sum(ItemRowTerms(q, i), 0, |capacities|) == 1.0
  {
    ItemsNeeded(first, top, count);
    var items, m := Items(Needs(first, top, count)), |capacities|;
    var profits := ItemProfits(items, m, q);
    forall k | 0 <= k < |items| ensures profits(k) <= AllOnes()(k) {
      assert ItemRow(m, q, k);
      UnitProfit(items, m, q, k);
    }
    SumGap(profits, AllOnes(), 0, |items|, i, 1.0 - profits(i));
    SumOfOnes(|items|);
    UnitProfit(items, m, q, i);
    assert ItemRow(m, q, i);
  }

  /** No load precedes the first item, so the rows want it in the first knapsack. */
  lemma FirstItemInFirstKnapsack(inst: Instance, q: Packing, consecutive: bool)
    requires Feasible(inst, q) && TakesFirstEverywhere(inst, q, consecutive)
    requires Items(inst.uniqueItems) != [] && Sum(ItemRowTerms(q, 0), 0, |inst.capacities|) == 1.0
    ensures q.knapsack(0).x(0) == 1.0
  {
    var m := |inst.capacities|;
    var takes := ItemRowTerms(q, 0);
    forall j | 0 <= j < m ensures Binary(takes(j)) { assert Domain(q, 0, j); }
    var s := OneHot(takes, m);
    if s > 0 { EarlierTakesFirst(inst, q, consecutive, s); }
  }

  lemma EarlierTakesFirst(inst: Instance, q: Packing, consecutive: bool, j: int)
    requires TakesFirstEverywhere(inst, q, consecutive) && Items(inst.uniqueItems) != [] && 1 <= j < |inst.capacities|
    ensures ItemRowTerms(q, 0)(j) <= ItemRowTerms(q, 0)(j - 1)
  {
    assert IsPair(consecutive, |inst.capacities|, j - 1, j);
    assert TakesFirst(Items(inst.uniqueItems), q.knapsack(j - 1).x, q.knapsack(j).x, 0);
  }

  function Copies(q: Packing): (int, int) -> real { (i, j) => q.knapsack(j).x(i) }

  /** A knapsack holds the first item at its weight, and every copy at weight `top`. */
  lemma LoadOfNeeded(capacities: seq<int>, first: int, top: int, count: nat, q: Packing, j: int)
    requires Feasible(Instance(capacities, Needs(first, top, count)), q) && 0 <= j < |capacities|
    ensures first as real * q.knapsack(j).x(0)
            + top as real * Sum(ColumnOf(Copies(q), j), 1, count + 1) <= capacities[j] as real
  {
    ItemsNeeded(first, top, count);
    var items, x := Items(Needs(first, top, count)), q.knapsack(j).x;
    var terms := LoadTerms(items, x);
    assert CapacityRow(items, capacities[j], x);
    SumSplit(terms, 0, 1, count + 1);
    SumSingle(terms, 0, 1, 0);
    SumScaled(top as real, ColumnOf(Copies(q), j), terms, 1, count + 1);
  }

  /** So it holds at most one copy, and only if it is a largest one without the first item. */
  lemma CopiesFit(top: real, capacity: real, first: real, x0: real, copies: real)
    requires IsInteger(copies) && 0.0 <= copies && 0.0 <= first && Binary(x0) && 1.0 <= top && 0.0 <= capacity <= top
    requires first * x0 + top * copies <= capacity
    ensures copies <= 1.0
    ensures capacity < top || (x0 == 1.0 && 0.0 < first) ==> copies == 0.0
  {
    if copies >= 2.0 { AtLeastTimes(top, copies, 2.0); }
    if copies >= 1.0 { AtLeastTimes(top, copies, 1.0); }
  }

  lemma AtLeastTimes(top: real, copies: real, k: real)
    requires 0.0 <= top && copies >= k
    ensures top * copies >= top * k
  {
  }

  /** Copies in knapsack `j`. */
  function CopiesIn(q: Packing, count: nat): int -> real { ColumnSums(Copies(q), 1, count + 1) }

  lemma {:induction false} CopiesAreWhole(capacities: seq<int>, first: int, top: int, count: nat, q: Packing, j: int)
    requires Feasible(Instance(capacities, Needs(first, top, count)), q) && 0 <= j < |capacities|
    ensures IsInteger(CopiesIn(q, count)(j)) && 0.0 <= CopiesIn(q, count)(j) && Binary(q.knapsack(j).x(0))
  {
    ItemsNeeded(first, top, count);
    var column := ColumnOf(Copies(q), j);
    assert Domain(q, 0, j);
    forall i | 1 <= i < count + 1 ensures IsInteger(column(i)) && 0.0 <= column(i) { assert Domain(q, i, j); }
    SumIsInteger(column, 1, count + 1);
    SumNonneg(column, 1, count + 1);
  }

  lemma {:induction false} CopiesPerKnapsack(capacities: seq<int>, first: int, top: int, count: nat, q: Packing, j: int)
    requires Feasible(Instance(capacities, Needs(first, top, count)), q)
    requires 0 <= j < |capacities| && 0 <= first && 1 <= top && 0 <= capacities[j] <= top
    ensures CopiesIn(q, count)(j) <= LargestTerm(capacities, top, j)
    ensures q.knapsack(j).x(0) == 1.0 && 0 < first ==> CopiesIn(q, count)(j) == 0.0
  {
    CopiesAreWhole(capacities, first, top, count, q, j);
    LoadOfNeeded(capacities, first, top, count, q, j);
    var copies := CopiesIn(q, count)(j);
    CopiesFit(top as real, capacities[j] as real, first as real, q.knapsack(j).x(0), copies);
  }

  lemma CopiesTotal(capacities: seq<int>, q: Packing, count: nat)
    requires forall i :: 1 <= i <= count ==> Sum(ItemRowTerms(q, i), 0, |capacities|) == 1.0
    ensures Sum(CopiesIn(q, count), 0, |capacities|) == count as real
  {
    var m := |capacities|;
    SumExchanged(Copies(q), 1, count + 1, 0, m);
    forall i | 1 <= i < count + 1 ensures RowSums(Copies(q), 0, m)(i) == AllOnes()(i) {
      SumCongruent(RowOf(Copies(q), i), ItemRowTerms(q, i), 0, m);
    }
    SumCongruent(RowSums(Copies(q), 0, m), AllOnes(), 1, count + 1);
    SumSplit(AllOnes(), 0, 1, count + 1);
    SumOfOnes(count + 1);
    SumOfOnes(1);
  }

  /** When everything is packed, every largest knapsack holds a copy. */
  lemma {:induction false} EverySeatTaken(capacities: seq<int>, first: int, top: int, q: Packing, j: int)
    requires 0 <= j < |capacities| && 0 <= first && 1 <= top
    requires forall k :: 0 <= k < |capacities| ==> 0 <= capacities[k] <= top
    requires var count := Rank(capacities, top, |capacities|);
             var inst := Instance(capacities, Needs(first, top, count));
             Feasible(inst, q) && Profit(inst, q) >= (count + 1) as real
    ensures CopiesIn(q, Rank(capacities, top, |capacities|))(j) == LargestTerm(capacities, top, j)
  {
    var m, count := |capacities|, Rank(capacities, top, |capacities|);
    forall i | 0 <= i <= count ensures Sum(ItemRowTerms(q, i), 0, m) == 1.0 {
      EveryItemPlaced(capacities, first, top, count, q, i);
    }
    var copies, largest := CopiesIn(q, count), LargestTerms(capacities, top);
    forall k | 0 <= k < m ensures copies(k) <= largest(k) { CopiesPerKnapsack(capacities, first, top, count, q, k); }
    SumGap(copies, largest, 0, m, j, largest(j) - copies(j));
    CopiesTotal(capacities, q, count);
    RankIsSum(capacities, top, m);
  }

  /** A largest knapsack without a copy means that not everything is packed. */
  lemma {:induction false} SeatMissed(capacities: seq<int>, first: int, top: int, count: nat, q: Packing, j: int)
    requires 0 <= j < |capacities| && 0 <= first && 1 <= top
    requires forall k :: 0 <= k < |capacities| ==> 0 <= capacities[k] <= top
    requires count == Rank(capacities, top, |capacities|) && Feasible(Instance(capacities, Needs(first, top, count)), q)
    requires capacities[j] == top && CopiesIn(q, count)(j) == 0.0
    ensures Profit(Instance(capacities, Needs(first, top, count)), q) < (count + 1) as real
  {
    if Profit(Instance(capacities, Needs(first, top, count)), q) >= (count + 1) as real {
      EverySeatTaken(capacities, first, top, q, j);
    }
  }

  /** Behind a knapsack of capacity 0 no copy is taken: both loads stay 0. */
  lemma {:induction false} NoCopyBehindGap(inst: Instance, top: int, count: nat, q: Packing, consecutive: bool,
                                           z: int, i: int)
    requires Feasible(inst, q) && TakesFirstEverywhere(inst, q, consecutive)
    requires inst.uniqueItems == Needs(0, top, count) && 1 <= top && 1 <= i <= count
    requires 0 <= z < z + 1 < |inst.capacities| && inst.capacities[z] == 0
    ensures q.knapsack(z + 1).x(i) == 0.0
    decreases i
  {
    ItemsNeeded(0, top, count);
    var items, x, y := Items(inst.uniqueItems), q.knapsack(z).x, q.knapsack(z + 1).x;
    forall k | 1 <= k < i ensures y(k) == 0.0 { NoCopyBehindGap(inst, top, count, q, consecutive, z, k); }
    forall k | 1 <= k <= i ensures x(k) == 0.0 { NoCopyInGap(inst, top, count, q, z, k); }
    LoadWithoutCopies(items, x, i);
    LoadWithoutCopies(items, y, i);
    assert IsPair(consecutive, |inst.capacities|, z, z + 1);
    assert TakesFirst(items, x, y, i) && Domain(q, i, z + 1);
  }

  lemma {:induction false} LoadWithoutCopies(items: seq<Item>, x: int -> real, i: int)
    requires 1 <= i < |items| && items[0].weight == 0 && forall k :: 1 <= k < i ==> x(k) == 0.0
    ensures Load(items, x, i) == 0.0
  {
    var terms := LoadTerms(items, x);
    forall k | 0 <= k < i ensures terms(k) == 0.0 {
      if k == 0 { Weightless(items, x, 0); }
    }
    SumZero(terms, 0, i);
  }

  lemma {:induction false} NoCopyInGap(inst: Instance, top: int, count: nat, q: Packing, z: int, i: int)
    requires Feasible(inst, q) && inst.uniqueItems == Needs(0, top, count) && 1 <= top && 1 <= i <= count
    requires 0 <= z < |inst.capacities| && inst.capacities[z] == 0
    ensures q.knapsack(z).x(i) == 0.0
  {
    ItemsNeeded(0, top, count);
    assert Domain(q, i, z);
    if q.knapsack(z).x(i) == 1.0 { EmptyKnapsack(inst, q, i, z); }
  }

  lemma {:induction false} NoCopiesBehindGap(capacities: seq<int>, top: int, count: nat, q: Packing,
                                             consecutive: bool, z: int)
    requires Feasible(Instance(capacities, Needs(0, top, count)), q)
    requires TakesFirstEverywhere(Instance(capacities, Needs(0, top, count)), q, consecutive)
    requires 0 <= z < z + 1 < |capacities| && capacities[z] == 0 && 1 <= top
    ensures CopiesIn(q, count)(z + 1) == 0.0
  {
    var inst, column := Instance(capacities, Needs(0, top, count)), ColumnOf(Copies(q), z + 1);
    forall i | 1 <= i < count + 1 ensures column(i) == 0.0 { NoCopyBehindGap(inst, top, count, q, consecutive, z, i); }
    SumZero(column, 1, count + 1);
  }

  lemma {:induction false} LargestCapacity(capacities: seq<int>) returns (b: int)
    requires capacities != []
    ensures 0 <= b < |capacities| && forall k :: 0 <= k < |capacities| ==> capacities[k] <= capacities[b]
  {
    if |capacities| == 1 {
      b := 0;
    } else {
      b := LargestCapacity(capacities[..|capacities| - 1]);
      if capacities[b] < capacities[|capacities| - 1] { b := |capacities| - 1; }
    }
  }

  lemma LostPacking(capacities: seq<int>, uniqueItems: seq<Item>, p: Packing, consecutive: bool)
    requires var inst := Instance(capacities, uniqueItems); NonNegativeWeights(inst) && Feasible(inst, p)
    requires var inst := Instance(capacities, uniqueItems);
             forall q :: Feasible(inst, q) && TakesFirstEverywhere(inst, q, consecutive) ==>
               Profit(inst, q) < Profit(inst, p)
    ensures !AlwaysLossless(capacities, consecutive)
  {
    var inst := Instance(capacities, uniqueItems);
    assert !Lossless(inst, p, consecutive);
  }

  lemma {:induction false} GapBetween(capacities: seq<int>, lo: int, hi: int) returns (z: int)
    requires 0 <= lo < hi < |capacities| && capacities[lo] == 0 && capacities[hi] > 0
    requires forall k :: 0 <= k < |capacities| ==> 0 <= capacities[k]
    ensures lo <= z < hi && capacities[z] == 0 && capacities[z + 1] > 0
    decreases hi - lo
  {
    if capacities[lo + 1] > 0 { z := lo; } else { z := GapBetween(capacities, lo + 1, hi); }
  }
}
