/** The symmetric traveling salesman problem, solved by separating subtours. */
module Tsp {
  import opened Sums
  import opened Bits
  import Atsp
  import Lists
  import ListSums
  import opened TspEdges

  /** The cut of a closed set is violated. */
  lemma ClosedSetViolates(n: nat, v: Edges, S: Nodes)
    requires Relaxed(n, v) && Closed(n, v, S)
    ensures !CutHolds(S, v)
  {
    forall i | 1 <= i < n + 1 ensures RowSums(PairTerms(S, v), 1, n + 1)(i) == TwiceMember(S)(i) {
      PairRow(n, v, S, i);
    }
    SumCongruent(RowSums(PairTerms(S, v), 1, n + 1), TwiceMember(S), 1, n + 1);
    TwiceSize(S);
    HandshakeInside(S, v);
  }

  /** Where the degree rows hold, the cut of S says that edges of weight two leave S. */
  lemma {:induction false} CutMeansTwoLeave(n: nat, v: Edges, S: Nodes)
    requires Relaxed(n, v) && |S| == n
    ensures CutHolds(S, v) <==> Leaving(S, v) >= 2.0
  {
    var inside, outside := RowSums(PairTerms(S, v), 1, n + 1), RowSums(LeavingTerms(S, v), 1, n + 1);
    forall i | 1 <= i < n + 1 ensures TwiceMember(S)(i) == inside(i) + outside(i) { DegreeInAndOut(n, v, S, i); }
    SumPlus(inside, outside, TwiceMember(S), 1, n + 1);
    HandshakeInside(S, v);
    TwiceSize(S);
  }

  /** A connected selection of whole edges keeps the cut of every proper set. */
  lemma CutIsValid(n: nat, v: Edges, S: Nodes)
    requires Relaxed(n, v) && Integral(n, v) && Connected(n, v) && Proper(n, S)
    ensures CutHolds(S, v)
  {
    var a, b := SomeEdgeLeaves(n, v, S);
    InnerBelowSize(n, v, S, a, b);
    SizesAreIntegers(n, v, S);
  }

  /** An integral point of degree two that is connected is a tour. */
  lemma ConnectedIsTour(n: nat, v: Edges)
    requires 1 <= n && Relaxed(n, v) && Integral(n, v) && Connected(n, v)
    ensures HamiltonianCycle(n, v)
  {
    var second := OtherNeighbour(n, v, 1, 1);
    var order := PathCloses(n, v, [1, second]);
    RingIsEverything(n, v, order);
    Lists.DistinctUpTo(n, order);
    forall i, j | 1 <= i < j <= n ensures EdgeOfTour(n, order, v, i, j) {
      assert Binary(v.x(i, j));
      assert i in order;
      var k :| 0 <= k < n && order[k] == i;
      RingNeighbours(n, v, order, k, j);
      StepsAt(n, order, k, i, j);
    }
    assert Tour(n, order, v);
  }

  /** The objective at a tour is its length. */
  lemma {:induction false} CostIsLength(n: nat, c: (int, int) -> real, order: seq<int>, v: Edges)
    requires 3 <= n && Tour(n, order, v)
    ensures Cost(n, c, v) == Length(c, order)
  {
    PaidAlongTour(n, c, order, v);
    CostFromBothEnds(n, c, v);
    LengthTwice(n, c, order);
  }

  /** A tour satisfies every model that the loop can build. */
  lemma TourSatisfiesModel(n: nat, order: seq<int>, v: Edges, pool: set<Nodes>, isMIP: bool)
    requires 3 <= n && Tour(n, order, v) && forall S :: S in pool ==> Proper(n, S)
    ensures ModelHolds(n, pool, isMIP, v)
  {
    TourIsRelaxed(n, order, v);
    TourIsConnected(n, order, v);
    forall S | S in pool ensures CutHolds(S, v) { CutIsValid(n, v, S); }
  }

  /** The connected components of the used edges, by merging labels along them. */
  method ConnectedComponents(n: nat, v: Edges) returns (comp: seq<int>)
    ensures |comp| == n && (forall k :: 0 <= k < n ==> 1 <= comp[k] <= n)
    ensures forall c :: Closed(n, v, Labelled(comp, c))
    ensures Inseparable(n, v, comp)
  {
    comp := seq(n, k => k + 1);
    for a := 1 to n + 1
      invariant |comp| == n && (forall k :: 0 <= k < n ==> 1 <= comp[k] <= n) && Inseparable(n, v, comp)
      invariant forall i, j :: 1 <= i < j <= n && i < a && v.x(i, j) > 0.0 ==> comp[i - 1] == comp[j - 1]
    {
      for b := a + 1 to n + 1
        invariant |comp| == n && (forall k :: 0 <= k < n ==> 1 <= comp[k] <= n) && Inseparable(n, v, comp)
        invariant forall i, j :: 1 <= i < j <= n && (i < a || (i == a && j < b)) && v.x(i, j) > 0.0 ==>
                  comp[i - 1] == comp[j - 1]
      {
        if v.x(a, b) > 0.0 {
          comp := MergeLabels(n, v, comp, a, b);
        }
      }
    }
  }

  /** Adds the cut of every component, if there are several; each of them is violated, hence new. */
  method AddCut(n: nat, v: Edges, pool: set<Nodes>) returns (several: bool, pool': set<Nodes>)
    requires 1 <= n && Relaxed(n, v)
    requires forall S :: S in pool ==> Proper(n, S) && CutHolds(S, v)
    ensures forall S :: S in pool' ==> Proper(n, S)
    ensures several ==> pool < pool' && forall i :: 1 <= i <= n ==> CutAround(n, v, pool', i)
    ensures several ==> forall S :: S in pool' <==> S in pool || Component(n, v, S)
    ensures several ==> forall S :: S in pool' && S !in pool ==> Closed(n, v, S) && !CutHolds(S, v)
    ensures !several ==> pool' == pool && Connected(n, v)
  {
    var comp := ConnectedComponents(n, v);
    several := exists k | 0 <= k < n :: comp[k] != comp[0];
    pool' := pool;
    if several {
      pool' := AddCuts(n, comp, pool);
      CutsOfComponents(n, v, comp, pool, pool');
      forall S ensures S in pool' <==> S in pool || Component(n, v, S) { LabelsAreComponents(n, v, comp, S); }
    }
  }

  lemma CutsOfComponents(n: nat, v: Edges, comp: seq<int>, pool: set<Nodes>, pool': set<Nodes>)
    requires 1 <= n && Relaxed(n, v) && |comp| == n && exists k :: 0 <= k < n && comp[k] != comp[0]
    requires forall c :: Closed(n, v, Labelled(comp, c))
    requires forall S :: S in pool ==> Proper(n, S) && CutHolds(S, v)
    requires forall S :: S in pool' <==> S in pool || IsComponent(comp, S)
    ensures pool < pool' && forall S :: S in pool' ==> Proper(n, S)
    ensures forall i :: 1 <= i <= n ==> CutAround(n, v, pool', i)
    ensures forall S :: S in pool' && S !in pool ==> Closed(n, v, S) && !CutHolds(S, v)
  {
    var other :| 0 <= other < n && comp[other] != comp[0];
    forall S | IsComponent(comp, S) ensures Proper(n, S) && Closed(n, v, S) && !CutHolds(S, v) {
      ComponentIsProper(n, comp, other, S);
      ClosedSetViolates(n, v, S);
    }
    forall i | 1 <= i <= n ensures CutAround(n, v, pool', i) {
      assert IsComponent(comp, Labelled(comp, comp[i - 1])) && Has(Labelled(comp, comp[i - 1]), i);
    }
    assert IsComponent(comp, Labelled(comp, comp[0]));
  }

  lemma {:induction false} CheapestIsShortest(n: nat, c: (int, int) -> real, v: Edges)
    requires 3 <= n && HamiltonianCycle(n, v)
    requires forall w :: HamiltonianCycle(n, w) ==> Cost(n, c, v) <= Cost(n, c, w)
    ensures exists order :: Tour(n, order, v) && Shortest(n, c, order) && Cost(n, c, v) == Length(c, order)
  {
    var order :| Tour(n, order, v);
    CostIsLength(n, c, order, v);
    forall other | Atsp.IsTour(n, other) ensures Length(c, order) <= Length(c, other) {
      OrderIsTour(n, other);
      CostIsLength(n, c, other, EdgesOf(n, other));
    }
  }

  /** Returns a shortest Hamiltonian cycle, its length, and the edges it uses. */
  method SolveTsp(n: nat, c: (int, int) -> real, optimize: (set<Nodes>, bool) -> Edges)
    returns (v: Edges, value: real, edges: set<(int, int)>)
    requires 3 <= n && SolvesExactly(n, c, optimize)
    ensures HamiltonianCycle(n, v)
    ensures forall w :: HamiltonianCycle(n, w) ==> Cost(n, c, v) <= Cost(n, c, w)
    ensures exists order :: Tour(n, order, v) && Shortest(n, c, order) && value == Length(c, order)
    ensures forall i, j :: (i, j) in edges <==> 1 <= i < j <= n && v.x(i, j) == 1.0
  {
    var pool: set<Nodes>, isMIP := {}, false;
    while true
      invariant forall S :: S in pool ==> Proper(n, S)
      decreases AllBits(n) - pool, !isMIP
    {
      v := optimize(pool, isMIP);
      assert Cheapest(n, c, pool, isMIP, v);
      var several, pool' := AddCut(n, v, pool);
      if several {
        ghost var S :| S in pool' && S !in pool;
        BitsAreAll(S);
        pool := pool';
      } else if isMIP {
        break;
      } else {
        isMIP := true;
      }
    }
    ConnectedIsTour(n, v);
    forall w | HamiltonianCycle(n, w) ensures Cost(n, c, v) <= Cost(n, c, w) {
      var order :| Tour(n, order, w);
      TourSatisfiesModel(n, order, w, pool, true);
    }
    CheapestIsShortest(n, c, v);
    value := Cost(n, c, v);
    edges := set i, j | 1 <= i <= n && 1 <= j <= n && i < j && v.x(i, j) > 0.0 :: (i, j);
    forall i, j | 1 <= i < j <= n ensures v.x(i, j) > 0.0 <==> v.x(i, j) == 1.0 { assert Binary(v.x(i, j)); }
  }
}

/** Edges, sets of nodes and their cuts, and tours as selections of edges. */
module TspEdges {
  import opened Sums
  import opened Bits
  import Atsp
  import Lists
  import ListSums

  /** `x(i, j)` for i < j says how much of the edge between `i` and `j` is used. */
  datatype Edges = Edges(x: (int, int) -> real)

  predicate EdgeDomain(v: Edges, i: int, j: int) { 0.0 <= v.x(i, j) <= 1.0 }

  predicate DegreeRow(n: nat, v: Edges, i: int) {
    Sum(ColumnOf(v.x, i), 1, i) + Sum(RowOf(v.x, i), i + 1, n + 1) == 2.0
  }

  ghost predicate Relaxed(n: nat, v: Edges) {
    && (forall i, j :: 1 <= i < j <= n ==> EdgeDomain(v, i, j))
    && (forall i :: 1 <= i <= n ==> DegreeRow(n, v, i))
  }

  ghost predicate Integral(n: nat, v: Edges) {
    forall i, j :: 1 <= i < j <= n ==> Binary(v.x(i, j))
  }

  // ---------- node sets and their cuts ----------

  /** A set of nodes as a 0/1 vector; node `i` is at position `i - 1`. */
  type Nodes = seq<bool>

  predicate Has(S: Nodes, i: int) { 1 <= i <= |S| && S[i - 1] }

  function Member(S: Nodes, i: int): real { if Has(S, i) then 1.0 else 0.0 }

  function Members(S: Nodes): int -> real { i => Member(S, i) }

  function Size(S: Nodes): real { Sum(Members(S), 1, |S| + 1) }

  function InnerTerm(S: Nodes, v: Edges, i: int, j: int): real {
    if i < j && Has(S, i) && Has(S, j) then v.x(i, j) else 0.0
  }

  function InnerTerms(S: Nodes, v: Edges): (int, int) -> real { (i, j) => InnerTerm(S, v, i, j) }

  /** What is used of the edges inside S. */
  function Inner(S: Nodes, v: Edges): real { Sum(RowSums(InnerTerms(S, v), 1, |S| + 1), 1, |S| + 1) }

  predicate CutHolds(S: Nodes, v: Edges) { Inner(S, v) <= Size(S) - 1.0 }

  /** Neither empty nor everything. */
  ghost predicate Proper(n: nat, S: Nodes) {
    |S| == n && (exists i :: Has(S, i)) && (exists i :: 1 <= i <= n && !Has(S, i))
  }

  // ---------- weights seen from both ends ----------

  function Weight(v: Edges, i: int, j: int): real { if j < i then v.x(j, i) else if i < j then v.x(i, j) else 0.0 }

  function WeightsAt(v: Edges, i: int): int -> real { j => Weight(v, i, j) }

  lemma DegreeIsWeight(n: nat, v: Edges, i: int)
    requires 1 <= i <= n
    ensures DegreeRow(n, v, i) <==> Sum(WeightsAt(v, i), 1, n + 1) == 2.0
  {
    SumSplit(WeightsAt(v, i), 1, i, n + 1);
    SumSplit(WeightsAt(v, i), i, i + 1, n + 1);
    SumSingle(WeightsAt(v, i), i, i + 1, i);
    SumCongruent(WeightsAt(v, i), ColumnOf(v.x, i), 1, i);
    SumCongruent(WeightsAt(v, i), RowOf(v.x, i), i + 1, n + 1);
  }

  /** The weights between nodes of S, over ordered pairs. */
  function PairTerm(S: Nodes, v: Edges, i: int, j: int): real {
    if Has(S, i) && Has(S, j) then Weight(v, i, j) else 0.0
  }

  function PairTerms(S: Nodes, v: Edges): (int, int) -> real { (i, j) => PairTerm(S, v, i, j) }

  /** Every inner edge is seen from both of its ends. */
  lemma HandshakeInside(S: Nodes, v: Edges)
    ensures Sum(RowSums(PairTerms(S, v), 1, |S| + 1), 1, |S| + 1) == Inner(S, v) + Inner(S, v)
  {
    var n, g, f := |S|, InnerTerms(S, v), PairTerms(S, v);
    var all, upper, lower := RowSums(f, 1, n + 1), RowSums(g, 1, n + 1), ColumnSums(g, 1, n + 1);
    SumExchanged(g, 1, n + 1, 1, n + 1);
    forall i | 1 <= i < n + 1 ensures all(i) == upper(i) + lower(i) {
      SumPlus(RowOf(g, i), ColumnOf(g, i), RowOf(f, i), 1, n + 1);
    }
    SumPlus(upper, lower, all, 1, n + 1);
  }

  /** No used edge leaves S. */
  ghost predicate Closed(n: nat, v: Edges, S: Nodes) {
    |S| == n && forall i, j :: 1 <= i < j <= n && v.x(i, j) > 0.0 ==> (Has(S, i) <==> Has(S, j))
  }

  /** A row of pair terms is the whole degree inside a closed set, and at most the degree in any case. */
  lemma PairRow(n: nat, v: Edges, S: Nodes, i: int)
    requires Relaxed(n, v) && |S| == n && 1 <= i <= n
    ensures Sum(RowOf(PairTerms(S, v), i), 1, n + 1) <= 2.0 * Member(S, i)
    ensures Closed(n, v, S) ==> Sum(RowOf(PairTerms(S, v), i), 1, n + 1) == 2.0 * Member(S, i)
  {
    var row := RowOf(PairTerms(S, v), i);
    assert DegreeRow(n, v, i);
    DegreeIsWeight(n, v, i);
    forall j | 1 <= j < n + 1 ensures 0.0 <= Weight(v, i, j) {
      assert j < i ==> EdgeDomain(v, j, i);
      assert i < j ==> EdgeDomain(v, i, j);
    }
    if Has(S, i) {
      SumMonotone(row, WeightsAt(v, i), 1, n + 1);
      if Closed(n, v, S) { SumCongruent(row, WeightsAt(v, i), 1, n + 1); }
    } else {
      SumZero(row, 1, n + 1);
    }
  }

  function TwiceMember(S: Nodes): int -> real { i => 2.0 * Member(S, i) }

  lemma TwiceSize(S: Nodes)
    ensures Sum(TwiceMember(S), 1, |S| + 1) == 2.0 * Size(S)
  {
    SumScaled(2.0, Members(S), TwiceMember(S), 1, |S| + 1);
  }

  // ---------- what a cut asks for ----------

  /** The weights between a node of S and one outside. */
  function LeavingTerm(S: Nodes, v: Edges, i: int, j: int): real {
    if Has(S, i) && !Has(S, j) then Weight(v, i, j) else 0.0
  }

  function LeavingTerms(S: Nodes, v: Edges): (int, int) -> real { (i, j) => LeavingTerm(S, v, i, j) }

  /** How much of the edges that leave S is used. */
  function Leaving(S: Nodes, v: Edges): real { Sum(RowSums(LeavingTerms(S, v), 1, |S| + 1), 1, |S| + 1) }

  lemma {:induction false} DegreeInAndOut(n: nat, v: Edges, S: Nodes, i: int)
    requires Relaxed(n, v) && |S| == n && 1 <= i <= n
    ensures Sum(RowOf(PairTerms(S, v), i), 1, n + 1) + Sum(RowOf(LeavingTerms(S, v), i), 1, n + 1)
            == TwiceMember(S)(i)
  {
    var inside, outside := RowOf(PairTerms(S, v), i), RowOf(LeavingTerms(S, v), i);
    assert DegreeRow(n, v, i);
    DegreeIsWeight(n, v, i);
    if Has(S, i) {
      SumPlus(inside, outside, WeightsAt(v, i), 1, n + 1);
    } else {
      SumZero(inside, 1, n + 1);
      SumZero(outside, 1, n + 1);
    }
  }

  // ---------- every cut holds for every tour ----------

  /** No proper set of nodes is closed. */
  ghost predicate Connected(n: nat, v: Edges) {
    forall S :: Closed(n, v, S) ==> !Proper(n, S)
  }

  lemma RowWithExit(n: nat, v: Edges, S: Nodes, a: int, b: int)
    requires Relaxed(n, v) && |S| == n && Has(S, a) && 1 <= b <= n && !Has(S, b) && Weight(v, a, b) >= 1.0
    ensures Sum(RowOf(PairTerms(S, v), a), 1, n + 1) + 1.0 <= 2.0
  {
    assert DegreeRow(n, v, a);
    DegreeIsWeight(n, v, a);
    forall j | 1 <= j < n + 1 ensures 0.0 <= Weight(v, a, j) {
      assert j < a ==> EdgeDomain(v, j, a);
      assert a < j ==> EdgeDomain(v, a, j);
    }
    SumGap(RowOf(PairTerms(S, v), a), WeightsAt(v, a), 1, n + 1, b, 1.0);
  }

  lemma SizesAreIntegers(n: nat, v: Edges, S: Nodes)
    requires Integral(n, v) && |S| == n
    ensures IsInteger(Size(S)) && IsInteger(Inner(S, v))
  {
    SumIsInteger(Members(S), 1, n + 1);
    var rows := RowSums(InnerTerms(S, v), 1, n + 1);
    forall i | 1 <= i < n + 1 ensures IsInteger(rows(i)) {
      forall j | 1 <= j < n + 1 ensures IsInteger(RowOf(InnerTerms(S, v), i)(j)) {
        assert i < j ==> Binary(v.x(i, j));
      }
      SumIsInteger(RowOf(InnerTerms(S, v), i), 1, n + 1);
    }
    SumIsInteger(rows, 1, n + 1);
  }

  lemma SomeEdgeLeaves(n: nat, v: Edges, S: Nodes) returns (a: int, b: int)
    requires Relaxed(n, v) && Integral(n, v) && Connected(n, v) && Proper(n, S)
    ensures Has(S, a) && 1 <= b <= n && !Has(S, b) && Weight(v, a, b) >= 1.0
  {
    assert !Closed(n, v, S);
    var i, j :| 1 <= i < j <= n && v.x(i, j) > 0.0 && !(Has(S, i) <==> Has(S, j));
    assert Binary(v.x(i, j));
    if Has(S, i) { a, b := i, j; } else { a, b := j, i; }
  }

  /** An edge that leaves S is missing from the pair terms of S. */
  lemma InnerBelowSize(n: nat, v: Edges, S: Nodes, a: int, b: int)
    requires Relaxed(n, v) && |S| == n && Has(S, a) && 1 <= b <= n && !Has(S, b) && Weight(v, a, b) >= 1.0
    ensures Inner(S, v) + Inner(S, v) + 1.0 <= 2.0 * Size(S)
  {
    var rows := RowSums(PairTerms(S, v), 1, n + 1);
    forall i | 1 <= i < n + 1 ensures rows(i) <= TwiceMember(S)(i) { PairRow(n, v, S, i); }
    RowWithExit(n, v, S, a, b);
    SumGap(rows, TwiceMember(S), 1, n + 1, a, 1.0);
    TwiceSize(S);
    HandshakeInside(S, v);
  }

  // ---------- a connected integral point is a tour ----------

  predicate Adjacent(v: Edges, i: int, j: int) { Weight(v, i, j) == 1.0 }

  /** Positions `k` and the next one hold the two ends, in either direction. */
  predicate IsStep(order: seq<int>, k: int, i: int, j: int)
    requires 0 <= k < |order|
  {
    (order[k] == i && Atsp.Next(order, k) == j) || (order[k] == j && Atsp.Next(order, k) == i)
  }

  /** The used edges are exactly the steps of one order of all nodes. */
  ghost predicate Tour(n: nat, order: seq<int>, v: Edges) {
    && Atsp.IsTour(n, order)
    && forall i, j :: 1 <= i < j <= n ==> EdgeOfTour(n, order, v, i, j)
  }

  ghost predicate EdgeOfTour(n: nat, order: seq<int>, v: Edges, i: int, j: int)
    requires |order| == n
  {
    Binary(v.x(i, j)) && (v.x(i, j) == 1.0 <==> exists k :: 0 <= k < n && IsStep(order, k, i, j))
  }

  ghost predicate HamiltonianCycle(n: nat, v: Edges) { exists order :: Tour(n, order, v) }

  /** No node has three neighbours. */
  lemma ThreeNeighbours(n: nat, v: Edges, i: int, a: int, b: int, c: int)
    requires Relaxed(n, v) && 1 <= i <= n && 1 <= a <= n && 1 <= b <= n && 1 <= c <= n
    requires Adjacent(v, i, a) && Adjacent(v, i, b) && Adjacent(v, i, c) && a != b
    ensures c == a || c == b
  {
    assert DegreeRow(n, v, i);
    DegreeIsWeight(n, v, i);
    forall j | 1 <= j < n + 1 ensures 0.0 <= WeightsAt(v, i)(j) {
      assert j < i ==> EdgeDomain(v, j, i);
      assert i < j ==> EdgeDomain(v, i, j);
    }
    if c != a && c != b {
      var lo := if a < b && a < c then a else if b < c then b else c;
      var hi := if a > b && a > c then a else if b > c then b else c;
      ThreeTermsAtMostSum(WeightsAt(v, i), 1, n + 1, lo, a + b + c - lo - hi, hi);
    }
  }

  /** Every node has a neighbour other than a given one. */
  lemma OtherNeighbour(n: nat, v: Edges, i: int, a: int) returns (b: int)
    requires Relaxed(n, v) && Integral(n, v) && 1 <= i <= n && 1 <= a <= n
    ensures 1 <= b <= n && b != a && b != i && Adjacent(v, i, b)
  {
    assert DegreeRow(n, v, i);
    DegreeIsWeight(n, v, i);
    var weights := WeightsAt(v, i);
    SumSplit(weights, 1, a, n + 1);
    SumSplit(weights, a, a + 1, n + 1);
    SumSingle(weights, a, a + 1, a);
    assert weights(a) <= 1.0 by {
      assert a < i ==> EdgeDomain(v, a, i);
      assert i < a ==> EdgeDomain(v, i, a);
    }
    if Sum(weights, 1, a) > 0.0 {
      b := PositiveTerm(weights, 1, a);
    } else {
      b := PositiveTerm(weights, a + 1, n + 1);
    }
    assert b < i ==> Binary(v.x(b, i));
    assert i < b ==> Binary(v.x(i, b));
  }

  ghost predicate DistinctNodes(n: nat, order: seq<int>) {
    && (forall k :: 0 <= k < |order| ==> 1 <= order[k] <= n)
    && (forall k, k' :: 0 <= k < k' < |order| ==> order[k] != order[k'])
  }

  ghost predicate Path(n: nat, v: Edges, order: seq<int>) {
    && 2 <= |order| && order[0] == 1 && DistinctNodes(n, order)
    && (forall k :: 0 <= k < |order| - 1 ==> Adjacent(v, order[k], order[k + 1]))
  }

  function Prev(order: seq<int>, k: int): int
    requires 0 <= k < |order|
  {
    if k == 0 then order[|order| - 1] else order[k - 1]
  }

  /** The path can only come back to where it started. */
  lemma ReturnsToStart(n: nat, v: Edges, order: seq<int>, w: int)
    requires Relaxed(n, v) && Path(n, v, order) && w in order
    requires Adjacent(v, order[|order| - 1], w) && w != order[|order| - 2] && w != order[|order| - 1]
    ensures w == 1 && |order| >= 3
  {
    var m := |order| - 1;
    var k :| 0 <= k < |order| && order[k] == w;
    if k > 0 {
      assert Adjacent(v, order[k - 1], order[(k - 1) + 1]);
      ThreeNeighbours(n, v, w, order[k - 1], order[k + 1], order[m]);
    }
  }

  /** A closed path: also its ends are neighbours. */
  ghost predicate Ring(n: nat, v: Edges, order: seq<int>) {
    Path(n, v, order) && 3 <= |order| && Adjacent(v, order[|order| - 1], order[0])
  }

  lemma RingNeighbours(n: nat, v: Edges, order: seq<int>, k: int, c: int)
    requires Relaxed(n, v) && Ring(n, v, order) && 0 <= k < |order| && 1 <= c <= n
    ensures Adjacent(v, order[k], c) <==> c == Prev(order, k) || c == Atsp.Next(order, k)
  {
    var p, s := Prev(order, k), Atsp.Next(order, k);
    if k > 0 { assert Adjacent(v, order[k - 1], order[(k - 1) + 1]); }
    assert Adjacent(v, order[k], p) && Adjacent(v, order[k], s);
    if Adjacent(v, order[k], c) { ThreeNeighbours(n, v, order[k], p, s, c); }
  }

  /** In a connected graph a ring holds every node. */
  lemma RingIsEverything(n: nat, v: Edges, order: seq<int>)
    requires Relaxed(n, v) && Integral(n, v) && Connected(n, v) && Ring(n, v, order)
    ensures |order| == n
  {
    var S := seq(n, k requires 0 <= k < n => (k + 1) in order);
    forall i, j | 1 <= i < j <= n && v.x(i, j) > 0.0 ensures Has(S, i) <==> Has(S, j) {
      assert Binary(v.x(i, j));
      if k :| 0 <= k < |order| && order[k] == i { RingNeighbours(n, v, order, k, j); }
      if k :| 0 <= k < |order| && order[k] == j { RingNeighbours(n, v, order, k, i); }
    }
    assert Closed(n, v, S);
    assert Has(S, order[0]);
    assert !Proper(n, S);
    forall i | 1 <= i <= n ensures i in order { assert Has(S, i); }
    Lists.DistinctUpTo(n, order);
  }

  lemma {:induction false} PathCloses(n: nat, v: Edges, order: seq<int>) returns (ring: seq<int>)
    requires Relaxed(n, v) && Integral(n, v) && Path(n, v, order)
    ensures Ring(n, v, ring)
    decreases n - |order|
  {
    var m := |order| - 1;
    Lists.DistinctUpTo(n, order);
    var w := OtherNeighbour(n, v, order[m], order[m - 1]);
    if w in order {
      ReturnsToStart(n, v, order, w);
      ring := order;
    } else {
      var longer := order + [w];
      Lists.DistinctUpTo(n, longer);
      ring := PathCloses(n, v, longer);
    }
  }

  /** A step between the node at position `k` and another is the step before or after that position. */
  lemma StepsAt(n: nat, order: seq<int>, k: int, i: int, j: int)
    requires |order| == n && DistinctNodes(n, order) && 0 <= k < n && order[k] == i && i != j
    ensures (exists t :: 0 <= t < n && IsStep(order, t, i, j)) <==> j == Prev(order, k) || j == Atsp.Next(order, k)
  {
    var before := if k == 0 then n - 1 else k - 1;
    assert order[before] == Prev(order, k) && Atsp.Next(order, before) == order[k];
    if j == Prev(order, k) { assert IsStep(order, before, i, j); }
    if j == Atsp.Next(order, k) { assert IsStep(order, k, i, j); }
    if t :| 0 <= t < n && IsStep(order, t, i, j) {
      if order[t] == i { assert t == k; } else { assert t == before; }
    }
  }

  // ---------- and every tour is one ----------

  lemma TourWeight(n: nat, order: seq<int>, v: Edges, k: int, c: int)
    requires 3 <= n && Tour(n, order, v) && 0 <= k < n && 1 <= c <= n
    ensures Weight(v, order[k], c) == if c == Prev(order, k) || c == Atsp.Next(order, k) then 1.0 else 0.0
  {
    var i := order[k];
    if c < i {
      assert EdgeOfTour(n, order, v, c, i);
      StepsAt(n, order, k, i, c);
      assert forall t :: 0 <= t < n ==> IsStep(order, t, i, c) == IsStep(order, t, c, i);
    } else if i < c {
      assert EdgeOfTour(n, order, v, i, c);
      StepsAt(n, order, k, i, c);
    }
  }

  lemma TourIsRelaxed(n: nat, order: seq<int>, v: Edges)
    requires 3 <= n && Tour(n, order, v)
    ensures Relaxed(n, v) && Integral(n, v)
  {
    forall i, j | 1 <= i < j <= n ensures Binary(v.x(i, j)) && EdgeDomain(v, i, j) {
      assert EdgeOfTour(n, order, v, i, j);
    }
    Lists.DistinctUpTo(n, order);
    forall i | 1 <= i <= n ensures DegreeRow(n, v, i) {
      assert i in order;
      var k :| 0 <= k < n && order[k] == i;
      var p, s := Prev(order, k), Atsp.Next(order, k);
      forall c | 1 <= c < n + 1 ensures WeightsAt(v, i)(c) == if c == p || c == s then 1.0 else 0.0 {
        TourWeight(n, order, v, k, c);
      }
      DegreeIsWeight(n, v, i);
      if p < s { SumTwo(WeightsAt(v, i), 1, n + 1, p, s); } else { SumTwo(WeightsAt(v, i), 1, n + 1, s, p); }
    }
  }

  lemma {:induction false} ClosedAlongTour(n: nat, order: seq<int>, v: Edges, S: Nodes, k: int)
    requires 3 <= n && Tour(n, order, v) && Closed(n, v, S) && 0 <= k < n
    ensures Has(S, order[k]) <==> Has(S, order[0])
    decreases k
  {
    if k > 0 {
      ClosedAlongTour(n, order, v, S, k - 1);
      TourWeight(n, order, v, k, order[k - 1]);
    }
  }

  lemma TourIsConnected(n: nat, order: seq<int>, v: Edges)
    requires 3 <= n && Tour(n, order, v)
    ensures Connected(n, v)
  {
    Lists.DistinctUpTo(n, order);
    forall S | Closed(n, v, S) ensures !Proper(n, S) {
      forall i | 1 <= i <= n ensures Has(S, i) <==> Has(S, order[0]) {
        assert i in order;
        var k :| 0 <= k < n && order[k] == i;
        ClosedAlongTour(n, order, v, S, k);
      }
    }
  }

  // ---------- the loop ----------

  function EdgeCost(c: (int, int) -> real, v: Edges, i: int, j: int): real {
    if i < j then c(i, j) * v.x(i, j) else 0.0
  }

  function EdgeCosts(c: (int, int) -> real, v: Edges): (int, int) -> real { (i, j) => EdgeCost(c, v, i, j) }

  function Cost(n: nat, c: (int, int) -> real, v: Edges): real {
    Sum(RowSums(EdgeCosts(c, v), 1, n + 1), 1, n + 1)
  }

  // ---------- what a tour costs ----------

  /** The cost of the edge between two nodes, which is kept under the smaller one first. */
  function Pay(c: (int, int) -> real, i: int, j: int): real { if i < j then c(i, j) else c(j, i) }

  function StepCost(c: (int, int) -> real, order: seq<int>, k: int): real {
    if 0 <= k < |order| then Pay(c, order[k], Atsp.Next(order, k)) else 0.0
  }

  function StepCosts(c: (int, int) -> real, order: seq<int>): int -> real { k => StepCost(c, order, k) }

  /** The length of the tour that visits the nodes in this order and returns. */
  function Length(c: (int, int) -> real, order: seq<int>): real { Sum(StepCosts(c, order), 0, |order|) }

  /** The cost of an edge, seen from both of its ends. */
  function Paid(c: (int, int) -> real, v: Edges, i: int, j: int): real { Pay(c, i, j) * Weight(v, i, j) }

  function PaidAt(c: (int, int) -> real, v: Edges): (int, int) -> real { (i, j) => Paid(c, v, i, j) }

  lemma {:induction false} CostFromBothEnds(n: nat, c: (int, int) -> real, v: Edges)
    ensures Sum(RowSums(PaidAt(c, v), 1, n + 1), 1, n + 1) == Cost(n, c, v) + Cost(n, c, v)
  {
    var g, f := EdgeCosts(c, v), PaidAt(c, v);
    var all, upper, lower := RowSums(f, 1, n + 1), RowSums(g, 1, n + 1), ColumnSums(g, 1, n + 1);
    SumExchanged(g, 1, n + 1, 1, n + 1);
    forall i | 1 <= i < n + 1 ensures all(i) == upper(i) + lower(i) {
      SumPlus(RowOf(g, i), ColumnOf(g, i), RowOf(f, i), 1, n + 1);
    }
    SumPlus(upper, lower, all, 1, n + 1);
  }

  function StepBefore(n: nat, c: (int, int) -> real, order: seq<int>): int -> real {
    k => StepCost(c, order, if k == 0 then n - 1 else k - 1)
  }

  function BothSteps(n: nat, c: (int, int) -> real, order: seq<int>): int -> real {
    k => StepCost(c, order, k) + StepBefore(n, c, order)(k)
  }

  /** What is paid at a node is the step to it and the step from it. */
  lemma {:induction false} PaidAtNode(n: nat, c: (int, int) -> real, order: seq<int>, v: Edges, k: nat)
    requires 3 <= n && Tour(n, order, v) && k < n
    ensures Sum(RowOf(PaidAt(c, v), order[k]), 1, n + 1) == BothSteps(n, c, order)(k)
  {
    var i, p, s := order[k], Prev(order, k), Atsp.Next(order, k);
    var row := RowOf(PaidAt(c, v), i);
    forall j | 1 <= j < n + 1 ensures row(j) == if j == p || j == s then Pay(c, i, j) else 0.0 {
      TourWeight(n, order, v, k, j);
    }
    if p < s { SumTwo(row, 1, n + 1, p, s); } else { SumTwo(row, 1, n + 1, s, p); }
    var before := if k == 0 then n - 1 else k - 1;
    assert Atsp.Next(order, before) == i && order[before] == p && p != i;
    assert StepBefore(n, c, order)(k) == StepCost(c, order, before) == Pay(c, p, i) == Pay(c, i, p);
    assert StepCost(c, order, k) == Pay(c, i, s);
  }

  /** Going once around, every step is the step before some node. */
  lemma {:induction false} StepsShifted(n: nat, c: (int, int) -> real, order: seq<int>, m: nat)
    requires 1 <= m <= n
    ensures Sum(StepBefore(n, c, order), 0, m) == Sum(StepCosts(c, order), 0, m - 1) + StepCost(c, order, n - 1)
  {
    if m == 1 {
      assert Sum(StepBefore(n, c, order), 0, 0) == 0.0;
    } else {
      StepsShifted(n, c, order, m - 1);
    }
  }

  lemma {:induction false} PaidAlongTour(n: nat, c: (int, int) -> real, order: seq<int>, v: Edges)
    requires 3 <= n && Tour(n, order, v)
    ensures Sum(BothSteps(n, c, order), 0, n) == Sum(RowSums(PaidAt(c, v), 1, n + 1), 1, n + 1)
  {
    var rows, steps := RowSums(PaidAt(c, v), 1, n + 1), BothSteps(n, c, order);
    forall k | 0 <= k < n ensures steps(k) == rows(order[k]) { PaidAtNode(n, c, order, v, k); }
    ListSums.SumAlongOrder(n, order, rows, steps);
  }

  lemma {:induction false} LengthTwice(n: nat, c: (int, int) -> real, order: seq<int>)
    requires 1 <= n == |order|
    ensures Sum(BothSteps(n, c, order), 0, n) == Length(c, order) + Length(c, order)
  {
    SumPlus(StepCosts(c, order), StepBefore(n, c, order), BothSteps(n, c, order), 0, n);
    StepsShifted(n, c, order, n);
    assert StepCosts(c, order)(n - 1) == StepCost(c, order, n - 1);
  }

  /** Every order of the nodes is the tour of some selection of edges. */
  function EdgesOf(n: nat, order: seq<int>): Edges
    requires |order| == n
  {
    Edges((i, j) => if exists k :: 0 <= k < n && IsStep(order, k, i, j) then 1.0 else 0.0)
  }

  lemma {:induction false} OrderIsTour(n: nat, order: seq<int>)
    requires Atsp.IsTour(n, order)
    ensures Tour(n, order, EdgesOf(n, order))
  {
  }

  /** The rows of the model after the cuts of `pool`, with whole edges once the model is switched. */
  ghost predicate ModelHolds(n: nat, pool: set<Nodes>, isMIP: bool, v: Edges) {
    Relaxed(n, v) && (isMIP ==> Integral(n, v)) && forall S :: S in pool ==> CutHolds(S, v)
  }

  ghost predicate Cheapest(n: nat, c: (int, int) -> real, pool: set<Nodes>, isMIP: bool, v: Edges) {
    && ModelHolds(n, pool, isMIP, v)
    && forall w :: ModelHolds(n, pool, isMIP, w) ==> Cost(n, c, v) <= Cost(n, c, w)
  }

  /** The solver returns a cheapest point of every model that the loop can build. */
  ghost predicate SolvesExactly(n: nat, c: (int, int) -> real, optimize: (set<Nodes>, bool) -> Edges) {
    forall pool, isMIP :: (forall S :: S in pool ==> Proper(n, S)) ==>
      Cheapest(n, c, pool, isMIP, optimize(pool, isMIP))
  }

  /** The nodes with label `c`. */
  function Labelled(comp: seq<int>, c: int): (S: Nodes)
    ensures |S| == |comp|
    ensures forall i :: Has(S, i) <==> 1 <= i <= |comp| && comp[i - 1] == c
  {
    seq(|comp|, k requires 0 <= k < |comp| => comp[k] == c)
  }

  /** Equal labels are what no closed set separates. */
  ghost predicate Inseparable(n: nat, v: Edges, comp: seq<int>)
    requires |comp| == n
  {
    forall S, i, j :: Closed(n, v, S) && 1 <= i <= n && 1 <= j <= n && comp[i - 1] == comp[j - 1] ==>
      (Has(S, i) <==> Has(S, j))
  }

  method MergeLabels(n: nat, v: Edges, comp: seq<int>, a: int, b: int) returns (merged: seq<int>)
    requires |comp| == n && (forall k :: 0 <= k < n ==> 1 <= comp[k] <= n) && Inseparable(n, v, comp)
    requires 1 <= a < b <= n && v.x(a, b) > 0.0
    ensures |merged| == n && (forall k :: 0 <= k < n ==> 1 <= merged[k] <= n) && Inseparable(n, v, merged)
    ensures merged[a - 1] == merged[b - 1]
    ensures forall i, j :: 0 <= i < n && 0 <= j < n && comp[i] == comp[j] ==> merged[i] == merged[j]
  {
    var keep, drop := comp[a - 1], comp[b - 1];
    merged := seq(n, k requires 0 <= k < n => if comp[k] == drop then keep else comp[k]);
    forall S, i, j | Closed(n, v, S) && 1 <= i <= n && 1 <= j <= n && merged[i - 1] == merged[j - 1]
      ensures Has(S, i) <==> Has(S, j)
    {
      assert Has(S, a) <==> Has(S, b);
      var i' := if comp[i - 1] == drop then b else if comp[i - 1] == keep then a else i;
      var j' := if comp[j - 1] == drop then b else if comp[j - 1] == keep then a else j;
      assert Has(S, i) <==> Has(S, i');
      assert Has(S, j) <==> Has(S, j');
    }
  }

  /** The pool has the cut of a set around node `i` that no used edge leaves. */
  ghost predicate CutAround(n: nat, v: Edges, pool: set<Nodes>, i: int) {
    exists S :: S in pool && Has(S, i) && Closed(n, v, S)
  }

  ghost predicate IsComponent(comp: seq<int>, S: Nodes) {
    exists k :: 0 <= k < |comp| && S == Labelled(comp, comp[k])
  }

  /** The loop over the components. */
  method AddCuts(n: nat, comp: seq<int>, pool: set<Nodes>) returns (pool': set<Nodes>)
    requires |comp| == n && forall k :: 0 <= k < n ==> 1 <= comp[k] <= n
    ensures forall S :: S in pool' <==> S in pool || IsComponent(comp, S)
  {
    pool' := pool;
    for c := 1 to n + 1
      invariant forall S :: S in pool' ==> S in pool || IsComponent(comp, S)
      invariant pool <= pool' && forall k :: 0 <= k < n && comp[k] < c ==> Labelled(comp, comp[k]) in pool'
    {
      if exists k | 0 <= k < n :: comp[k] == c {
        ghost var k :| 0 <= k < n && comp[k] == c;
        assert IsComponent(comp, Labelled(comp, comp[k]));
        pool' := pool' + {Labelled(comp, c)};
      }
    }
  }

  /** With several labels, each component is proper. */
  lemma ComponentIsProper(n: nat, comp: seq<int>, other: int, S: Nodes)
    requires |comp| == n && 0 <= other < n && comp[other] != comp[0] && IsComponent(comp, S)
    ensures Proper(n, S)
  {
    var k :| 0 <= k < n && S == Labelled(comp, comp[k]);
    assert Has(S, k + 1);
    assert !Has(S, if comp[k] == comp[0] then other + 1 else 1);
  }

  /** A connected component: a set that no used edge leaves, inside every other such set that it meets. */
  ghost predicate Component(n: nat, v: Edges, S: Nodes) {
    && Closed(n, v, S) && (exists i :: Has(S, i))
    && forall S', i, j :: Closed(n, v, S') && Has(S, i) && Has(S', i) && Has(S, j) ==> Has(S', j)
  }

  lemma {:induction false} LabelsAreComponents(n: nat, v: Edges, comp: seq<int>, S: Nodes)
    requires |comp| == n && Inseparable(n, v, comp) && forall c :: Closed(n, v, Labelled(comp, c))
    ensures IsComponent(comp, S) <==> Component(n, v, S)
  {
    if IsComponent(comp, S) {
      var k :| 0 <= k < |comp| && S == Labelled(comp, comp[k]);
      assert Has(S, k + 1);
    }
    if Component(n, v, S) {
      var i :| Has(S, i);
      var L := Labelled(comp, comp[i - 1]);
      assert Closed(n, v, L) && Has(L, i);
      forall k | 0 <= k < n ensures S[k] == L[k] { assert Has(S, k + 1) <==> Has(L, k + 1); }
      assert S == L;
    }
  }

  /** No order of all nodes is a shorter tour. */
  ghost predicate Shortest(n: nat, c: (int, int) -> real, order: seq<int>) {
    forall other :: Atsp.IsTour(n, other) ==> Length(c, order) <= Length(c, other)
  }
}
