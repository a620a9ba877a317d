/** The multiple knapsack program and the sub-symmetry inequalities for knapsacks of equal prefix load. */
module MultipleKnapsack {
  import opened Sums
  import opened Tails
  import RowMajor

  datatype Item = Item(weight: int, profit: int, multiplicity: nat)

  datatype Instance = Instance(capacities: seq<int>, uniqueItems: seq<Item>)

  /** `x(i)` says whether item `i` is put into this knapsack. */
  datatype Column = Column(x: int -> real)

  /** x[i, j] is `knapsack(j).x(i)`. */
  datatype Packing = Packing(knapsack: int -> Column)

  /** Every unique item, as often as its multiplicity says. */
  function Items(uniqueItems: seq<Item>): seq<Item> {
    if uniqueItems == [] then []
    else
      var last := uniqueItems[|uniqueItems| - 1];
      Items(uniqueItems[..|uniqueItems| - 1]) + seq(last.multiplicity, _ => last)
  }

  function LoadTerms(items: seq<Item>, column: int -> real): int -> real {
    k => if 0 <= k < |items| then items[k].weight as real * column(k) else 0.0
  }

  /** The load that the items before `i` put on a knapsack. */
  function Load(items: seq<Item>, column: int -> real, i: int): real {
    Sum(LoadTerms(items, column), 0, i)
  }

  function ItemRowTerms(p: Packing, i: int): int -> real {
    j => p.knapsack(j).x(i)
  }

  predicate ItemRow(m: nat, p: Packing, i: int) {
    Sum(ItemRowTerms(p, i), 0, m) <= 1.0
  }

  predicate CapacityRow(items: seq<Item>, capacity: int, column: int -> real) {
    Load(items, column, |items|) <= capacity as real
  }

  predicate Domain(p: Packing, i: int, j: int) {
    Binary(p.knapsack(j).x(i))
  }

  ghost predicate Feasible(inst: Instance, p: Packing) {
    var items, m := Items(inst.uniqueItems), |inst.capacities|;
    && (forall i, j :: 0 <= i < |items| && 0 <= j < m ==> Domain(p, i, j))
    && (forall i :: 0 <= i < |items| ==> ItemRow(m, p, i))
    && (forall j :: 0 <= j < m ==> CapacityRow(items, inst.capacities[j], p.knapsack(j).x))
  }

  function ItemProfits(items: seq<Item>, m: nat, p: Packing): int -> real {
    i => if 0 <= i < |items| then Sum(ProfitTerms(items[i], p, i), 0, m) else 0.0
  }

  function ProfitTerms(item: Item, p: Packing, i: int): int -> real {
    j => item.profit as real * p.knapsack(j).x(i)
  }

  function Profit(inst: Instance, p: Packing): real {
    var items := Items(inst.uniqueItems);
    Sum(ItemProfits(items, |inst.capacities|, p), 0, |items|)
  }

  // ---------- what a packing earns and carries ----------

  ghost predicate Packed(m: nat, p: Packing, i: int) { exists j :: 0 <= j < m && p.knapsack(j).x(i) == 1.0 }

  /** The profits of the items that lie in some knapsack. */
  ghost function PackedProfit(items: seq<Item>, m: nat, p: Packing, i: int): real {
    if 0 <= i < |items| && Packed(m, p, i) then items[i].profit as real else 0.0
  }

  ghost function PackedProfits(items: seq<Item>, m: nat, p: Packing): int -> real { i => PackedProfit(items, m, p, i) }

  /** An item lies in one knapsack at most. */
  lemma {:induction false} OnceOrNever(inst: Instance, p: Packing, i: int)
    requires Feasible(inst, p) && 0 <= i < |Items(inst.uniqueItems)|
    ensures Sum(ItemRowTerms(p, i), 0, |inst.capacities|) == if Packed(|inst.capacities|, p, i) then 1.0 else 0.0
  {
    var m, terms := |inst.capacities|, ItemRowTerms(p, i);
    forall j | 0 <= j < m ensures Binary(terms(j)) { assert Domain(p, i, j); }
    assert ItemRow(m, p, i);
    if j :| 0 <= j < m && p.knapsack(j).x(i) == 1.0 {
      TermAtMostSum(terms, 0, m, j);
    } else {
      SumZero(terms, 0, m);
    }
  }

  lemma {:induction false} ProfitOfItem(inst: Instance, p: Packing, i: int)
    requires Feasible(inst, p) && 0 <= i < |Items(inst.uniqueItems)|
    ensures var items, m := Items(inst.uniqueItems), |inst.capacities|;
            ItemProfits(items, m, p)(i) == PackedProfits(items, m, p)(i)
  {
    var item, m := Items(inst.uniqueItems)[i], |inst.capacities|;
    OnceOrNever(inst, p, i);
    SumScaled(item.profit as real, ItemRowTerms(p, i), ProfitTerms(item, p, i), 0, m);
  }

  /** The objective adds the profit of every packed item once. */
  lemma {:induction false} ProfitIsOfPackedItems(inst: Instance, p: Packing)
    requires Feasible(inst, p)
    ensures var items := Items(inst.uniqueItems);
            Profit(inst, p) == Sum(PackedProfits(items, |inst.capacities|, p), 0, |items|)
  {
    var items, m := Items(inst.uniqueItems), |inst.capacities|;
    forall i | 0 <= i < |items| ensures ItemProfits(items, m, p)(i) == PackedProfits(items, m, p)(i) {
      ProfitOfItem(inst, p, i);
    }
    SumCongruent(ItemProfits(items, m, p), PackedProfits(items, m, p), 0, |items|);
  }

  // ---------- the sub-symmetry rows ----------

  /** The pairs that `pairwise` or `combinations` enumerates. */
  predicate IsPair(consecutive: bool, m: nat, j1: int, j2: int) {
    0 <= j1 < j2 < m && (consecutive ==> j2 == j1 + 1)
  }

  /** What the rows are for: as long as the prefix loads agree, the first knapsack takes the item before the second. */
  predicate TakesFirst(items: seq<Item>, c1: int -> real, c2: int -> real, i: int) {
    Load(items, c1, i) == Load(items, c2, i) ==> c2(i) <= c1(i)
  }

  ghost predicate TakesFirstEverywhere(inst: Instance, p: Packing, consecutive: bool) {
    var items := Items(inst.uniqueItems);
    forall i, j1, j2 :: 0 <= i < |items| && IsPair(consecutive, |inst.capacities|, j1, j2) ==>
      TakesFirst(items, p.knapsack(j1).x, p.knapsack(j2).x, i)
  }

  /** The auxiliary variables of one item and pair. */
  datatype Aux = Aux(alphaPlus: real, alphaMin: real, zPlus: real, zMin: real)

  function DifferenceTerms(items: seq<Item>, c1: int -> real, c2: int -> real): int -> real {
    k => if 0 <= k < |items| then items[k].weight as real * (c1(k) - c2(k)) else 0.0
  }

  predicate AuxDomain(v: Aux) {
    0.0 <= v.alphaPlus && 0.0 <= v.alphaMin && Binary(v.zPlus) && Binary(v.zMin)
  }

  /** `totalWeight` is the big-M coefficient. */
  predicate SizeRows(totalWeight: int, v: Aux) {
    && v.alphaPlus <= totalWeight as real * v.zPlus
    && v.alphaMin <= totalWeight as real * v.zMin
    && v.alphaPlus + v.alphaMin >= v.zPlus + v.zMin
  }

  predicate LinkRows(items: seq<Item>, c1: int -> real, c2: int -> real, i: int, v: Aux) {
    && Sum(DifferenceTerms(items, c1, c2), 0, i) == v.alphaPlus - v.alphaMin
    && v.zPlus + v.zMin <= 1.0
    && c2(i) <= v.zPlus + v.zMin + c1(i)
  }

  /** The domains of the auxiliary variables and the six rows. */
  predicate AuxRows(items: seq<Item>, c1: int -> real, c2: int -> real, i: int, totalWeight: int, v: Aux) {
    AuxDomain(v) && SizeRows(totalWeight, v) && LinkRows(items, c1, c2, i, v)
  }

  function PrefixWeight(items: seq<Item>, i: nat): int
    requires i <= |items|
  {
    if i == 0 then 0 else PrefixWeight(items, i - 1) + items[i - 1].weight
  }

  lemma {:induction false} DifferenceOfLoads(items: seq<Item>, c1: int -> real, c2: int -> real, i: int)
    ensures Sum(DifferenceTerms(items, c1, c2), 0, i) == Load(items, c1, i) - Load(items, c2, i)
    decreases i
  {
    if i > 0 { DifferenceOfLoads(items, c1, c2, i - 1); }
  }

  /** A load of whole items is an integer between 0 and the weight of all of them. */
  lemma {:induction false} LoadIsInteger(items: seq<Item>, c: int -> real, i: nat) returns (load: int)
    requires i <= |items| && forall k :: 0 <= k < i ==> Binary(c(k)) && items[k].weight >= 0
    ensures Load(items, c, i) == load as real && 0 <= load <= PrefixWeight(items, i)
  {
    if i == 0 {
      load := 0;
    } else {
      var before := LoadIsInteger(items, c, i - 1);
      load := if c(i - 1) == 1.0 then before + items[i - 1].weight else before;
    }
  }

  /** The witness for the auxiliary variables: sign and size of the difference of the prefix loads. */
  function AuxOf(items: seq<Item>, c1: int -> real, c2: int -> real, i: int): Aux {
    var d := Load(items, c1, i) - Load(items, c2, i);
    if d > 0.0 then Aux(d, 0.0, 1.0, 0.0) else if d < 0.0 then Aux(0.0, -d, 0.0, 1.0) else Aux(0.0, 0.0, 0.0, 0.0)
  }

  /** With the weight of all earlier items as coefficient, the big-M rows say exactly what they are for. */
  lemma BigMRowsAreExact(items: seq<Item>, c1: int -> real, c2: int -> real, i: nat)
    requires i < |items| && forall k :: 0 <= k <= i ==> Binary(c1(k)) && Binary(c2(k)) && items[k].weight >= 0
    ensures (exists v :: AuxRows(items, c1, c2, i, PrefixWeight(items, i), v)) <==> TakesFirst(items, c1, c2, i)
    ensures TakesFirst(items, c1, c2, i) ==>
              AuxRows(items, c1, c2, i, PrefixWeight(items, i), AuxOf(items, c1, c2, i))
  {
    DifferenceOfLoads(items, c1, c2, i);
    var l1 := LoadIsInteger(items, c1, i);
    var l2 := LoadIsInteger(items, c2, i);
    forall v | AuxRows(items, c1, c2, i, PrefixWeight(items, i), v) ensures TakesFirst(items, c1, c2, i) {
      if l1 == l2 {
        // both parts are equal, and one of them is forced to zero, so z is zero
        assert v.zPlus == 0.0 ==> v.alphaPlus == 0.0;
        assert v.zMin == 0.0 ==> v.alphaMin == 0.0;
      }
    }
    if TakesFirst(items, c1, c2, i) {
      assert AuxRows(items, c1, c2, i, PrefixWeight(items, i), AuxOf(items, c1, c2, i));
    }
  }

  lemma {:induction false} TakesFirstSorts(items: seq<Item>, c1: int -> real, c2: int -> real, i: int)
    requires 0 <= i <= |items| && Load(items, c1, i) == Load(items, c2, i)
    requires forall k :: 0 <= k < |items| ==> TakesFirst(items, c1, c2, k)
    ensures LexAtLeast(c1, c2, i, |items| - 1)
    decreases |items| - i
  {
    if i < |items| {
      assert TakesFirst(items, c1, c2, i);
      if c1(i) == c2(i) { TakesFirstSorts(items, c1, c2, i + 1); }
    }
  }

  /** The consecutive rows order the knapsacks: columns are lexicographically non-increasing. */
  lemma {:induction false} ColumnsAreSorted(inst: Instance, p: Packing, j1: int, j2: int)
    requires TakesFirstEverywhere(inst, p, true) && 0 <= j1 < j2 < |inst.capacities|
    ensures LexAtLeast(p.knapsack(j1).x, p.knapsack(j2).x, 0, |Items(inst.uniqueItems)| - 1)
    decreases j2 - j1
  {
    var items := Items(inst.uniqueItems);
    if j2 > j1 + 1 {
      ColumnsAreSorted(inst, p, j1, j2 - 1);
      ColumnsAreSorted(inst, p, j2 - 1, j2);
      LexTransitive(p.knapsack(j1).x, p.knapsack(j2 - 1).x, p.knapsack(j2).x, 0, |items| - 1);
    } else {
      assert IsPair(true, |inst.capacities|, j1, j2);
      TakesFirstSorts(items, p.knapsack(j1).x, p.knapsack(j2).x, 0);
    }
  }

  // ---------- trading suffixes between two knapsacks ----------

  /** Knapsacks `j1` and `j2` trade all items from `i` on. */
  function SwapSuffix(p: Packing, i: int, j1: int, j2: int): Packing {
    Packing(j => if j == j1 then Column(Splice(p.knapsack(j1).x, p.knapsack(j2).x, i))
                 else if j == j2 then Column(Splice(p.knapsack(j2).x, p.knapsack(j1).x, i))
                 else p.knapsack(j))
  }

  lemma LoadOfSplice(items: seq<Item>, c1: int -> real, c2: int -> real, i: nat)
    requires i <= |items| && Load(items, c1, i) == Load(items, c2, i)
    ensures Load(items, Splice(c1, c2, i), |items|) == Load(items, c2, |items|)
  {
    var s := Splice(c1, c2, i);
    SumSplit(LoadTerms(items, s), 0, i, |items|);
    SumSplit(LoadTerms(items, c2), 0, i, |items|);
    SumCongruent(LoadTerms(items, s), LoadTerms(items, c1), 0, i);
    SumCongruent(LoadTerms(items, s), LoadTerms(items, c2), i, |items|);
  }

  lemma SwapKeepsItemSums(items: seq<Item>, m: nat, p: Packing, i: int, j1: int, j2: int, k: int)
    requires 0 <= j1 < j2 < m
    ensures Sum(ItemRowTerms(SwapSuffix(p, i, j1, j2), k), 0, m) == Sum(ItemRowTerms(p, k), 0, m)
    ensures ItemProfits(items, m, SwapSuffix(p, i, j1, j2))(k) == ItemProfits(items, m, p)(k)
  {
    var p' := SwapSuffix(p, i, j1, j2);
    assert p'.knapsack(j1) == Column(Splice(p.knapsack(j1).x, p.knapsack(j2).x, i));
    assert p'.knapsack(j2) == Column(Splice(p.knapsack(j2).x, p.knapsack(j1).x, i));
    SumTraded(ItemRowTerms(p, k), ItemRowTerms(p', k), 0, m, j1, j2);
    if 0 <= k < |items| {
      SumTraded(ProfitTerms(items[k], p, k), ProfitTerms(items[k], p', k), 0, m, j1, j2);
    }
  }

  ghost predicate EqualCapacities(inst: Instance) {
    forall j1, j2 :: 0 <= j1 < j2 < |inst.capacities| ==> inst.capacities[j1] == inst.capacities[j2]
  }

  /** Knapsacks of equal capacity and equal prefix load can trade suffixes at no loss. */
  lemma SwapKeepsFeasibilityAndProfit(inst: Instance, p: Packing, i: nat, j1: int, j2: int)
    requires Feasible(inst, p) && i < |Items(inst.uniqueItems)| && 0 <= j1 < j2 < |inst.capacities|
    requires inst.capacities[j1] == inst.capacities[j2]
    requires Load(Items(inst.uniqueItems), p.knapsack(j1).x, i) == Load(Items(inst.uniqueItems), p.knapsack(j2).x, i)
    ensures Feasible(inst, SwapSuffix(p, i, j1, j2)) && Profit(inst, SwapSuffix(p, i, j1, j2)) == Profit(inst, p)
  {
    var items, m, p' := Items(inst.uniqueItems), |inst.capacities|, SwapSuffix(p, i, j1, j2);
    forall k, j | 0 <= k < |items| && 0 <= j < m ensures Domain(p', k, j) {
      assert Domain(p, k, j) && Domain(p, k, j1) && Domain(p, k, j2);
    }
    forall k
      ensures ItemRow(m, p', k) <==> ItemRow(m, p, k)
      ensures ItemProfits(items, m, p')(k) == ItemProfits(items, m, p)(k)
    {
      SwapKeepsItemSums(items, m, p, i, j1, j2, k);
    }
    SumCongruent(ItemProfits(items, m, p'), ItemProfits(items, m, p), 0, |items|);
    LoadOfSplice(items, p.knapsack(j1).x, p.knapsack(j2).x, i);
    LoadOfSplice(items, p.knapsack(j2).x, p.knapsack(j1).x, i);
    forall j | 0 <= j < m ensures CapacityRow(items, inst.capacities[j], p'.knapsack(j).x) {
      assert CapacityRow(items, inst.capacities[j], p.knapsack(j).x);
      assert CapacityRow(items, inst.capacities[j1], p.knapsack(j1).x)
             && CapacityRow(items, inst.capacities[j2], p.knapsack(j2).x);
    }
  }

  datatype Trade = Trade(i: nat, j1: int, j2: int)

  function ApplyTrades(p: Packing, trades: seq<Trade>): Packing
    decreases |trades|
  {
    if trades == [] then p else ApplyTrades(SwapSuffix(p, trades[0].i, trades[0].j1, trades[0].j2), trades[1..])
  }

  /** Between two knapsacks that carry equal loads of the items before `i`. */
  ghost predicate Admissible(inst: Instance, p: Packing, trade: Trade) {
    var items := Items(inst.uniqueItems);
    && trade.i < |items| && 0 <= trade.j1 < trade.j2 < |inst.capacities|
    && Load(items, p.knapsack(trade.j1).x, trade.i) == Load(items, p.knapsack(trade.j2).x, trade.i)
  }

  /** Every trade is admissible and leads from a feasible packing to a feasible one. */
  ghost predicate AllAdmissible(inst: Instance, p: Packing, trades: seq<Trade>)
    decreases |trades|
  {
    Feasible(inst, p) && (trades != [] ==>
      && Admissible(inst, p, trades[0])
      && AllAdmissible(inst, SwapSuffix(p, trades[0].i, trades[0].j1, trades[0].j2), trades[1..]))
  }

  /** The row-major reading of x. */
  function PackedBits(p: Packing): (int, int) -> bool {
    (t, j) => p.knapsack(j - 1).x(t - 1) == 1.0
  }

  function PackedValue(inst: Instance, p: Packing): nat {
    RowMajor.Value(PackedBits(p), |inst.capacities|, |Items(inst.uniqueItems)|, |inst.capacities|)
  }

  function ValueLimit(inst: Instance): nat {
    RowMajor.Limit(|inst.capacities|, |Items(inst.uniqueItems)|, |inst.capacities|)
  }

  lemma SuffixGrows(inst: Instance, p: Packing, i: int, j1: int, j2: int)
    requires 0 <= i < |Items(inst.uniqueItems)| && 0 <= j1 < j2 < |inst.capacities|
    requires p.knapsack(j1).x(i) == 0.0 && p.knapsack(j2).x(i) == 1.0
    ensures PackedValue(inst, p) < PackedValue(inst, SwapSuffix(p, i, j1, j2)) < ValueLimit(inst)
  {
    var n, m, bits := |Items(inst.uniqueItems)|, |inst.capacities|, PackedBits(SwapSuffix(p, i, j1, j2));
    RowMajor.FirstDifferenceDecides(PackedBits(p), bits, m, i + 1, j1 + 1, n, m);
    RowMajor.ValueBelowLimit(bits, m, n, m);
  }

  lemma ViolationTrade(inst: Instance, p: Packing, i: int, j1: int, j2: int)
    requires Feasible(inst, p) && 0 <= i < |Items(inst.uniqueItems)| && IsPair(false, |inst.capacities|, j1, j2)
    requires inst.capacities[j1] == inst.capacities[j2]
    requires !TakesFirst(Items(inst.uniqueItems), p.knapsack(j1).x, p.knapsack(j2).x, i)
    ensures var p' := SwapSuffix(p, i, j1, j2);
            && Feasible(inst, p') && Profit(inst, p') == Profit(inst, p)
            && PackedValue(inst, p) < PackedValue(inst, p') < ValueLimit(inst)
  {
    SwapKeepsFeasibilityAndProfit(inst, p, i, j1, j2);
    assert Domain(p, i, j1) && Domain(p, i, j2);
    SuffixGrows(inst, p, i, j1, j2);
  }

  /** Knapsack `j1` takes item `i` over from `j2`. */
  function MoveItem(p: Packing, i: int, j1: int, j2: int): Packing {
    Packing(j => if j == j1 then Column(Replaced(p.knapsack(j1).x, i, p.knapsack(j2).x(i)))
                 else if j == j2 then Column(Replaced(p.knapsack(j2).x, i, p.knapsack(j1).x(i)))
                 else p.knapsack(j))
  }

  function Replaced(x: int -> real, i: int, value: real): int -> real { k => if k == i then value else x(k) }

  /** An item without weight can change its knapsack. */
  lemma {:induction false} MoveKeepsFeasibilityAndProfit(inst: Instance, p: Packing, i: nat, j1: int, j2: int)
    requires Feasible(inst, p) && i < |Items(inst.uniqueItems)| && 0 <= j1 < j2 < |inst.capacities|
    requires Items(inst.uniqueItems)[i].weight == 0
    ensures Feasible(inst, MoveItem(p, i, j1, j2)) && Profit(inst, MoveItem(p, i, j1, j2)) == Profit(inst, p)
  {
    var items, m, p' := Items(inst.uniqueItems), |inst.capacities|, MoveItem(p, i, j1, j2);
    forall k, j | 0 <= k < |items| && 0 <= j < m ensures Domain(p', k, j) {
      assert Domain(p, k, j) && Domain(p, k, j1) && Domain(p, k, j2);
    }
    forall k
      ensures ItemRow(m, p', k) <==> ItemRow(m, p, k)
      ensures ItemProfits(items, m, p')(k) == ItemProfits(items, m, p)(k)
    {
      MoveKeepsItemSums(items, m, p, i, j1, j2, k);
    }
    SumCongruent(ItemProfits(items, m, p'), ItemProfits(items, m, p), 0, |items|);
    forall j | 0 <= j < m ensures CapacityRow(items, inst.capacities[j], p'.knapsack(j).x) {
      assert CapacityRow(items, inst.capacities[j], p.knapsack(j).x);
      MoveKeepsLoad(items, p, i, j1, j2, j);
    }
  }

  lemma {:induction false} MoveKeepsLoad(items: seq<Item>, p: Packing, i: nat, j1: int, j2: int, j: int)
    requires i < |items| && items[i].weight == 0
    ensures Load(items, MoveItem(p, i, j1, j2).knapsack(j).x, |items|) == Load(items, p.knapsack(j).x, |items|)
  {
    var moved, terms := LoadTerms(items, MoveItem(p, i, j1, j2).knapsack(j).x), LoadTerms(items, p.knapsack(j).x);
    forall k | 0 <= k < |items| ensures moved(k) == terms(k) {
      if k == i {
        Weightless(items, MoveItem(p, i, j1, j2).knapsack(j).x, i);
        Weightless(items, p.knapsack(j).x, i);
      }
    }
    SumCongruent(moved, terms, 0, |items|);
  }

  lemma {:induction false} Weightless(items: seq<Item>, column: int -> real, i: nat)
    requires i < |items| && items[i].weight == 0
    ensures LoadTerms(items, column)(i) == 0.0
  {
  }

  lemma {:induction false} MoveKeepsItemSums(items: seq<Item>, m: nat, p: Packing, i: int, j1: int, j2: int, k: int)
    requires 0 <= j1 < j2 < m
    ensures Sum(ItemRowTerms(MoveItem(p, i, j1, j2), k), 0, m) == Sum(ItemRowTerms(p, k), 0, m)
    ensures ItemProfits(items, m, MoveItem(p, i, j1, j2))(k) == ItemProfits(items, m, p)(k)
  {
    var p' := MoveItem(p, i, j1, j2);
    assert p'.knapsack(j1) == Column(Replaced(p.knapsack(j1).x, i, p.knapsack(j2).x(i)));
    assert p'.knapsack(j2) == Column(Replaced(p.knapsack(j2).x, i, p.knapsack(j1).x(i)));
    SumTraded(ItemRowTerms(p, k), ItemRowTerms(p', k), 0, m, j1, j2);
    if 0 <= k < |items| {
      SumTraded(ProfitTerms(items[k], p, k), ProfitTerms(items[k], p', k), 0, m, j1, j2);
    }
  }

  lemma {:induction false} MoveGrows(inst: Instance, p: Packing, i: int, j1: int, j2: int)
    requires 0 <= i < |Items(inst.uniqueItems)| && 0 <= j1 < j2 < |inst.capacities|
    requires p.knapsack(j1).x(i) == 0.0 && p.knapsack(j2).x(i) == 1.0
    ensures PackedValue(inst, p) < PackedValue(inst, MoveItem(p, i, j1, j2)) < ValueLimit(inst)
  {
    var n, m, bits := |Items(inst.uniqueItems)|, |inst.capacities|, PackedBits(MoveItem(p, i, j1, j2));
    RowMajor.FirstDifferenceDecides(PackedBits(p), bits, m, i + 1, j1 + 1, n, m);
    RowMajor.ValueBelowLimit(bits, m, n, m);
  }

  /** With equal capacities, finitely many trades reach an equally good packing that meets the rows for all pairs. */
  lemma {:induction false} SubSymmetryRowsLoseNothing(inst: Instance, p: Packing) returns (trades: seq<Trade>)
    requires Feasible(inst, p) && EqualCapacities(inst)
    ensures AllAdmissible(inst, p, trades)
    ensures Feasible(inst, ApplyTrades(p, trades)) && Profit(inst, ApplyTrades(p, trades)) == Profit(inst, p)
    ensures TakesFirstEverywhere(inst, ApplyTrades(p, trades), false)
    ensures TakesFirstEverywhere(inst, ApplyTrades(p, trades), true)
    decreases ValueLimit(inst) - PackedValue(inst, p)
  {
    var items := Items(inst.uniqueItems);
    if i, j1, j2 :| 0 <= i < |items| && IsPair(false, |inst.capacities|, j1, j2)
                    && !TakesFirst(items, p.knapsack(j1).x, p.knapsack(j2).x, i) {
      ViolationTrade(inst, p, i, j1, j2);
      var rest := SubSymmetryRowsLoseNothing(inst, SwapSuffix(p, i, j1, j2));
      trades := [Trade(i, j1, j2)] + rest;
    } else {
      trades := [];
      assert forall j1, j2 :: IsPair(true, |inst.capacities|, j1, j2) ==> IsPair(false, |inst.capacities|, j1, j2);
    }
  }

  /** A packing that is best under the rows for all pairs is best without them, and likewise for consecutive pairs. */
  lemma OptimumSurvives(inst: Instance, best: Packing, consecutive: bool)
    requires EqualCapacities(inst) && Feasible(inst, best) && TakesFirstEverywhere(inst, best, consecutive)
    requires forall p :: Feasible(inst, p) && TakesFirstEverywhere(inst, p, consecutive) ==>
             Profit(inst, p) <= Profit(inst, best)
    ensures forall p :: Feasible(inst, p) ==> Profit(inst, p) <= Profit(inst, best)
  {
    forall p | Feasible(inst, p) ensures Profit(inst, p) <= Profit(inst, best) {
      var trades := SubSymmetryRowsLoseNothing(inst, p);
    }
  }

  // ---------- with all auxiliary variables ----------

  /** The values of all variables of the extended model; `aux(i, j1, j2)` belongs to item `i` and pair `j1, j2`. */
  datatype Assignment = Assignment(packing: Packing, aux: (int, int, int) -> Aux)

  ghost predicate AllAuxRows(inst: Instance, a: Assignment, consecutive: bool) {
    var items := Items(inst.uniqueItems);
    forall i, j1, j2 :: 0 <= i < |items| && IsPair(consecutive, |inst.capacities|, j1, j2) ==>
      AuxRowsAt(items, a, i, j1, j2)
  }

  ghost predicate AuxRowsAt(items: seq<Item>, a: Assignment, i: int, j1: int, j2: int)
    requires 0 <= i < |items|
  {
    AuxRows(items, a.packing.knapsack(j1).x, a.packing.knapsack(j2).x, i, PrefixWeight(items, i), a.aux(i, j1, j2))
  }

  ghost predicate NonNegativeWeights(inst: Instance) {
    forall k :: 0 <= k < |Items(inst.uniqueItems)| ==> Items(inst.uniqueItems)[k].weight >= 0
  }

  /** The extended model projects to the packings that take items first wherever prefix loads agree. */
  lemma AuxVariablesProject(inst: Instance, p: Packing, consecutive: bool)
    requires Feasible(inst, p) && NonNegativeWeights(inst)
    ensures (exists aux :: AllAuxRows(inst, Assignment(p, aux), consecutive)) <==>
            TakesFirstEverywhere(inst, p, consecutive)
  {
    var items, m := Items(inst.uniqueItems), |inst.capacities|;
    var witnesses := (i, j1, j2) => AuxOf(items, p.knapsack(j1).x, p.knapsack(j2).x, i);
    forall i, j1, j2 | 0 <= i < |items| && IsPair(consecutive, m, j1, j2)
      ensures (exists v :: AuxRows(items, p.knapsack(j1).x, p.knapsack(j2).x, i, PrefixWeight(items, i), v))
              <==> TakesFirst(items, p.knapsack(j1).x, p.knapsack(j2).x, i)
      ensures TakesFirst(items, p.knapsack(j1).x, p.knapsack(j2).x, i) ==>
                AuxRows(items, p.knapsack(j1).x, p.knapsack(j2).x, i, PrefixWeight(items, i), witnesses(i, j1, j2))
    {
      forall k | 0 <= k < |items| ensures Binary(p.knapsack(j1).x(k)) && Binary(p.knapsack(j2).x(k)) {
        assert Domain(p, k, j1) && Domain(p, k, j2);
      }
      BigMRowsAreExact(items, p.knapsack(j1).x, p.knapsack(j2).x, i);
    }
    if TakesFirstEverywhere(inst, p, consecutive) {
      assert AllAuxRows(inst, Assignment(p, witnesses), consecutive);
    }
    forall aux | AllAuxRows(inst, Assignment(p, aux), consecutive) ensures TakesFirstEverywhere(inst, p, consecutive) {
      forall i, j1, j2 | 0 <= i < |items| && IsPair(consecutive, m, j1, j2)
        ensures TakesFirst(items, p.knapsack(j1).x, p.knapsack(j2).x, i)
      {
        assert AuxRowsAt(items, Assignment(p, aux), i, j1, j2);
      }
    }
  }

  /** The orbitope that `add_subsym_ineqs_glob_orbitope` adds first: columns in non-increasing lexicographic order. */
  predicate OrbitopeRow(inst: Instance, p: Packing) {
    forall j1, j2 | 0 <= j1 < |inst.capacities| && 0 <= j2 < |inst.capacities| :: j1 < j2 ==>
      LexAtLeast(p.knapsack(j1).x, p.knapsack(j2).x, 0, |Items(inst.uniqueItems)| - 1)
  }

  /** The orbitope forbids exactly a first difference between two columns in favour of the second one. */
  lemma {:induction false} OrbitopeForbids(inst: Instance, p: Packing)
    requires Feasible(inst, p)
    ensures OrbitopeRow(inst, p) <==> forall j1, j2, r ::
              0 <= j1 < j2 < |inst.capacities| && 0 <= r < |Items(inst.uniqueItems)| ==> !LaterFirst(p, j1, j2, r)
  {
    var n := |Items(inst.uniqueItems)|;
    forall j1, j2 | 0 <= j1 < j2 < |inst.capacities|
      ensures LexAtLeast(p.knapsack(j1).x, p.knapsack(j2).x, 0, n - 1)
              <==> forall r :: 0 <= r < n ==> !LaterFirst(p, j1, j2, r)
    {
      ColumnsForbid(inst, p, j1, j2);
    }
  }

  lemma {:induction false} ColumnsForbid(inst: Instance, p: Packing, j1: int, j2: int)
    requires Feasible(inst, p) && 0 <= j1 < j2 < |inst.capacities|
    ensures LexAtLeast(p.knapsack(j1).x, p.knapsack(j2).x, 0, |Items(inst.uniqueItems)| - 1)
            <==> forall r :: 0 <= r < |Items(inst.uniqueItems)| ==> !LaterFirst(p, j1, j2, r)
  {
    var n, c1, c2 := |Items(inst.uniqueItems)|, p.knapsack(j1).x, p.knapsack(j2).x;
    forall i | 0 <= i <= n - 1 ensures Binary(c1(i)) && Binary(c2(i)) { assert Domain(p, i, j1) && Domain(p, i, j2); }
    if !LexAtLeast(c1, c2, 0, n - 1) {
      var r := LexViolation(c1, c2, 0, n - 1);
      assert LaterFirst(p, j1, j2, r);
    }
    forall r | 0 <= r < n && LaterFirst(p, j1, j2, r) ensures !LexAtLeast(c1, c2, 0, n - 1) {
      LexFails(c1, c2, 0, r, n - 1);
    }
  }

  /** Item `r` is the first one that only one of the two knapsacks holds, and it is the second that holds it. */
  ghost predicate LaterFirst(p: Packing, j1: int, j2: int, r: int) {
    && p.knapsack(j1).x(r) == 0.0 && p.knapsack(j2).x(r) == 1.0
    && forall k :: 0 <= k < r ==> p.knapsack(j1).x(k) == p.knapsack(j2).x(k)
  }

  /** It cuts off nothing that the inequalities leave, for consecutive pairs and for all pairs. */
  lemma OrbitopeIsImplied(inst: Instance, p: Packing, consecutive: bool)
    requires TakesFirstEverywhere(inst, p, consecutive)
    ensures OrbitopeRow(inst, p)
  {
    assert forall j1, j2 :: IsPair(true, |inst.capacities|, j1, j2) ==> IsPair(consecutive, |inst.capacities|, j1, j2);
    forall j1, j2 | 0 <= j1 < j2 < |inst.capacities|
      ensures LexAtLeast(p.knapsack(j1).x, p.knapsack(j2).x, 0, |Items(inst.uniqueItems)| - 1)
    {
      ColumnsAreSorted(inst, p, j1, j2);
    }
  }
}
