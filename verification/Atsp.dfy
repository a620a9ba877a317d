/** Four formulations of the asymmetric traveling salesman problem over nodes 1..n. */
module Atsp {
  import opened Sums

  type Arcs = (int, int) -> real

  // ---------- rows ----------

  function OutTerm(x: Arcs, i: int, j: int): real { if j != i then x(i, j) else 0.0 }

  function OutTerms(x: Arcs, i: int): int -> real { j => OutTerm(x, i, j) }

  function InTerms(x: Arcs, i: int): int -> real { j => OutTerm(x, j, i) }

  predicate ArcDomain(x: Arcs, i: int, j: int) { i != j ==> Binary(x(i, j)) }

  /** One arc leaves every node and one enters it. */
  predicate DegreeRows(n: nat, x: Arcs, i: int) {
    Sum(OutTerms(x, i), 1, n + 1) == 1.0 && Sum(InTerms(x, i), 1, n + 1) == 1.0
  }

  ghost predicate Assignment(n: nat, x: Arcs) {
    && (forall i, j :: 1 <= i <= n && 1 <= j <= n ==> ArcDomain(x, i, j))
    && (forall i :: 1 <= i <= n ==> DegreeRows(n, x, i))
  }

  function ArcCost(c: Arcs, x: Arcs, i: int, j: int): real { if i != j then c(i, j) * x(i, j) else 0.0 }

  function ArcCosts(c: Arcs, x: Arcs, i: int): int -> real { j => ArcCost(c, x, i, j) }

  function NodeCosts(n: nat, c: Arcs, x: Arcs): int -> real { i => Sum(ArcCosts(c, x, i), 1, n + 1) }

  function TourCost(n: nat, c: Arcs, x: Arcs): real { Sum(NodeCosts(n, c, x), 1, n + 1) }

  datatype Potentials = Potentials(x: Arcs, u: int -> real)

  predicate PotentialDomain(n: nat, v: Potentials, i: int) { 0.0 <= v.u(i) <= (n - 1) as real }

  predicate MtzRow(n: nat, v: Potentials, i: int, j: int) {
    i != j ==> v.u(i) - v.u(j) + (n - 1) as real * v.x(i, j) <= (n - 2) as real
  }

  ghost predicate Mtz(n: nat, v: Potentials) {
    && Assignment(n, v.x)
    && (forall i :: 1 <= i <= n ==> PotentialDomain(n, v, i))
    && (forall i, j :: 1 <= i <= n && 2 <= j <= n ==> MtzRow(n, v, i, j))
  }

  predicate LiftedMtzRow(n: nat, v: Potentials, i: int, j: int) {
    i != j ==> v.u(i) - v.u(j) + (n - 1) as real * v.x(i, j) + (n - 3) as real * v.x(j, i) <= (n - 2) as real
  }

  predicate LiftedBounds(n: nat, v: Potentials, i: int) {
    && -v.x(1, i) - v.u(i) + (n - 3) as real * v.x(i, 1) <= -2.0
    && -v.x(i, 1) + v.u(i) + (n - 3) as real * v.x(1, i) <= (n - 2) as real
  }

  ghost predicate MtzStrong(n: nat, v: Potentials) {
    && Assignment(n, v.x)
    && (forall i :: 1 <= i <= n ==> PotentialDomain(n, v, i))
    && (forall i, j :: 1 <= i <= n && 2 <= j <= n ==> LiftedMtzRow(n, v, i, j))
    && (forall i :: 2 <= i <= n ==> LiftedBounds(n, v, i))
  }

  datatype SingleFlow = SingleFlow(x: Arcs, f: Arcs)

  predicate FlowDomain(n: nat, v: SingleFlow, i: int, j: int) {
    i != j ==> 0.0 <= v.f(i, j) <= (if i == 1 then n - 1 else n - 2) as real
  }

  function FlowFrom1(v: SingleFlow): int -> real { j => v.f(1, j) }

  predicate FlowConsumed(n: nat, v: SingleFlow, i: int) {
    Sum(InTerms(v.f, i), 1, n + 1) - Sum(OutTerms(v.f, i), 1, n + 1) == 1.0
  }

  predicate FlowUB(n: nat, v: SingleFlow, i: int, j: int) {
    i != j ==> v.f(i, j) <= (if i == 1 then n - 1 else n - 2) as real * v.x(i, j)
  }

  ghost predicate Scf(n: nat, v: SingleFlow) {
    && Assignment(n, v.x)
    && (forall i, j :: 1 <= i <= n && 1 <= j <= n ==> FlowDomain(n, v, i, j))
    && Sum(FlowFrom1(v), 2, n + 1) == (n - 1) as real
    && (forall i :: 2 <= i <= n ==> FlowConsumed(n, v, i))
    && (forall i, j :: 1 <= i <= n && 2 <= j <= n ==> FlowUB(n, v, i, j))
  }

  datatype MultiFlow = MultiFlow(x: Arcs, f: (int, int, int) -> real)

  /** The keys for which a flow variable exists: no flow back to node 1, none out of its own sink. */
  predicate HasFlow(n: nat, i: int, j: int, k: int) {
    1 <= i <= n && 2 <= j <= n && i != j && 2 <= k <= n && i != k
  }

  function FlowAt(n: nat, v: MultiFlow, i: int, j: int, k: int): real {
    if HasFlow(n, i, j, k) then v.f(i, j, k) else 0.0
  }

  function FlowOutTerms(n: nat, v: MultiFlow, i: int, k: int): int -> real { j => FlowAt(n, v, i, j, k) }

  function FlowInTerms(n: nat, v: MultiFlow, i: int, k: int): int -> real { j => FlowAt(n, v, j, i, k) }

  predicate CommodityEnds(n: nat, v: MultiFlow, k: int) {
    && Sum(FlowOutTerms(n, v, 1, k), 2, n + 1) == 1.0
    && Sum(FlowInTerms(n, v, k, k), 1, n + 1) == 1.0
  }

  predicate CommodityKept(n: nat, v: MultiFlow, i: int, k: int) {
    i != k ==> Sum(FlowInTerms(n, v, i, k), 1, n + 1) == Sum(FlowOutTerms(n, v, i, k), 1, n + 1)
  }

  predicate CommodityUB(n: nat, v: MultiFlow, i: int, j: int, k: int) {
    HasFlow(n, i, j, k) ==> 0.0 <= v.f(i, j, k) <= 1.0 && v.f(i, j, k) <= v.x(i, j)
  }

  ghost predicate Mcf(n: nat, v: MultiFlow) {
    && Assignment(n, v.x)
    && (forall k :: 2 <= k <= n ==> CommodityEnds(n, v, k))
    && (forall i, k :: 2 <= i <= n && 2 <= k <= n ==> CommodityKept(n, v, i, k))
    && (forall i, j, k :: CommodityUB(n, v, i, j, k))
  }

  // ---------- the meaning ----------

  /** An order of all nodes that starts at node 1. */
  ghost predicate IsTour(n: nat, order: seq<int>) {
    && |order| == n >= 1 && order[0] == 1
    && (forall k :: 0 <= k < n ==> 1 <= order[k] <= n)
    && (forall k, k' :: 0 <= k < k' < n ==> order[k] != order[k'])
  }

  function Next(order: seq<int>, k: int): int
    requires 0 <= k < |order|
  {
    if k + 1 < |order| then order[k + 1] else order[0]
  }

  /** The chosen arcs are exactly the steps of the order, and the step back to its start. */
  ghost predicate ArcsOfTour(n: nat, order: seq<int>, x: Arcs)
    requires |order| == n
  {
    && (forall i, j :: 1 <= i <= n && 1 <= j <= n ==> ArcDomain(x, i, j))
    && (forall i, j :: 1 <= i <= n && 1 <= j <= n && i != j ==>
          (x(i, j) == 1.0 <==> exists k :: 0 <= k < n && order[k] == i && Next(order, k) == j))
  }

  ghost predicate HamiltonianCycle(n: nat, x: Arcs) {
    exists order :: IsTour(n, order) && ArcsOfTour(n, order, x)
  }
}
