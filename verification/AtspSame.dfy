/** Each formulation describes exactly the Hamiltonian cycles. */
module AtspMeaning {
  import opened Sums
  import opened Lists
  import opened ListSums
  import opened AtspTours
  import opened Atsp

  // ---------- successors under the degree rows ----------

  ghost function Succ(n: nat, x: Arcs, i: int): (j: int)
    requires Assignment(n, x) && 1 <= i <= n
    ensures 1 <= j <= n && j != i && x(i, j) == 1.0
  {
    SuccExists(n, x, i);
    var j :| 1 <= j <= n && j != i && x(i, j) == 1.0;
    j
  }

  lemma SuccExists(n: nat, x: Arcs, i: int)
    requires Assignment(n, x) && 1 <= i <= n
    ensures exists j :: 1 <= j <= n && j != i && x(i, j) == 1.0
  {
    assert DegreeRows(n, x, i);
    var j := PositiveTerm(OutTerms(x, i), 1, n + 1);
    assert ArcDomain(x, i, j);
  }

  lemma ArcIsSucc(n: nat, x: Arcs, i: int, j: int)
    requires Assignment(n, x) && 1 <= i <= n && 1 <= j <= n && i != j && x(i, j) == 1.0
    ensures j == Succ(n, x, i)
  {
    var s := Succ(n, x, i);
    assert DegreeRows(n, x, i);
    forall k | 1 <= k < n + 1 ensures 0.0 <= OutTerm(x, i, k) { assert ArcDomain(x, i, k); }
    if j < s { TwoTermsAtMostSum(OutTerms(x, i), 1, n + 1, j, s); }
    if s < j { TwoTermsAtMostSum(OutTerms(x, i), 1, n + 1, s, j); }
  }

  lemma SuccInjective(n: nat, x: Arcs, i: int, i': int)
    requires Assignment(n, x) && 1 <= i <= n && 1 <= i' <= n && Succ(n, x, i) == Succ(n, x, i')
    ensures i == i'
  {
    var j := Succ(n, x, i);
    assert DegreeRows(n, x, j);
    forall k | 1 <= k < n + 1 ensures 0.0 <= OutTerm(x, k, j) { assert ArcDomain(x, k, j); }
    if i < i' { TwoTermsAtMostSum(InTerms(x, j), 1, n + 1, i, i'); }
    if i' < i { TwoTermsAtMostSum(InTerms(x, j), 1, n + 1, i', i); }
  }

  /** A set of nodes without node 1 that the chosen arcs never leave. */
  ghost predicate Subtour(n: nat, x: Arcs, s: set<nat>)
    requires Assignment(n, x)
  {
    && (exists i :: i in s) && (forall i :: i in s ==> 2 <= i <= n)
    && (forall i {:trigger Succ(n, x, i)} :: i in s ==> Succ(n, x, i) in s)
  }

  // ---------- without subtours the walk from node 1 is a tour ----------

  /** The walk from node 1 along successors, without repetition. */
  ghost predicate Walk(n: nat, x: Arcs, order: seq<int>)
    requires Assignment(n, x)
  {
    && 1 <= |order| && order[0] == 1
    && (forall k :: 0 <= k < |order| ==> 1 <= order[k] <= n)
    && Distinct(order)
    && (forall k :: 0 <= k < |order| - 1 ==> order[k + 1] == Succ(n, x, order[k]))
  }

  /** Stepping from the end of the walk either finds a new node or returns to node 1. */
  lemma StepFromEnd(n: nat, x: Arcs, order: seq<int>)
    requires Assignment(n, x) && Walk(n, x, order)
    ensures var next := Succ(n, x, order[|order| - 1]); next in order ==> next == 1
  {
    var m := |order| - 1;
    var next := Succ(n, x, order[m]);
    if k :| 0 < k < |order| && order[k] == next {
      assert order[(k - 1) + 1] == Succ(n, x, order[k - 1]);
      SuccInjective(n, x, order[k - 1], order[m]);
    }
  }

  /** If the walk returns early, the nodes it missed are a subtour. */
  lemma MissedNodesAreSubtour(n: nat, x: Arcs, order: seq<int>)
    requires Assignment(n, x) && Walk(n, x, order) && |order| < n && Succ(n, x, order[|order| - 1]) == 1
    ensures exists s :: Subtour(n, x, s)
  {
    var s := set i | i in UpTo(n) && i !in order;
    DistinctUpTo(n, order);
    var i :| 1 <= i <= n && i !in order;
    assert i in s;
    forall i | i in s ensures Succ(n, x, i) in s {
      var next := Succ(n, x, i);
      if k :| 0 <= k < |order| && order[k] == next {
        if k == 0 {
          SuccInjective(n, x, i, order[|order| - 1]);
        } else {
          assert order[(k - 1) + 1] == Succ(n, x, order[k - 1]);
          SuccInjective(n, x, i, order[k - 1]);
        }
      }
    }
    assert 1 in order;
    assert Subtour(n, x, s);
  }

  lemma {:induction false} WalkToTheEnd(n: nat, x: Arcs, order: seq<int>) returns (tour: seq<int>)
    requires Assignment(n, x) && Walk(n, x, order) && !exists s :: Subtour(n, x, s)
    ensures Walk(n, x, tour) && |tour| == n
    decreases n - |order|
  {
    DistinctUpTo(n, order);
    if |order| == n {
      tour := order;
    } else {
      var next := Succ(n, x, order[|order| - 1]);
      StepFromEnd(n, x, order);
      if next == 1 { MissedNodesAreSubtour(n, x, order); }
      assert next !in order;
      tour := WalkToTheEnd(n, x, order + [next]);
    }
  }

  /** A walk through all nodes steps along every chosen arc. */
  lemma ArcIsStep(n: nat, x: Arcs, order: seq<int>, i: int, j: int)
    requires Assignment(n, x) && |order| == n && 1 <= i <= n && 1 <= j <= n && i != j && i in order
    requires forall k :: 0 <= k < n ==> 1 <= order[k] <= n && Next(order, k) == Succ(n, x, order[k])
    ensures x(i, j) == 1.0 <==> exists k :: 0 <= k < n && order[k] == i && Next(order, k) == j
  {
    var k :| 0 <= k < n && order[k] == i;
    if x(i, j) == 1.0 {
      ArcIsSucc(n, x, i, j);
      assert Next(order, k) == j;
    }
  }

  lemma {:induction false} EveryStepFollows(n: nat, x: Arcs, order: seq<int>)
    requires Assignment(n, x) && Walk(n, x, order) && |order| == n
    ensures IsTour(n, order) && forall i :: 1 <= i <= n ==> i in order
    ensures forall k :: 0 <= k < n ==> Next(order, k) == Succ(n, x, order[k])
  {
    DistinctUpTo(n, order);
    StepFromEnd(n, x, order);
  }

  /** Degree rows without a subtour describe a Hamiltonian cycle. */
  lemma {:induction false} NoSubtourMeansCycle(n: nat, x: Arcs)
    requires 1 <= n && Assignment(n, x) && !exists s :: Subtour(n, x, s)
    ensures HamiltonianCycle(n, x)
  {
    var order := WalkToTheEnd(n, x, [1]);
    EveryStepFollows(n, x, order);
    forall i, j | 1 <= i <= n && 1 <= j <= n && i != j
      ensures x(i, j) == 1.0 <==> exists k :: 0 <= k < n && order[k] == i && Next(order, k) == j
    {
      ArcIsStep(n, x, order, i, j);
    }
    assert ArcsOfTour(n, order, x);
  }

  // ---------- what the potentials are ----------

  /** Potentials that rise by at least one along a tour and stay between 0 and n - 1 number the nodes. */
  lemma {:induction false} RisingNumbers(n: nat, order: seq<int>, u: int -> real, k: nat)
    requires IsTour(n, order) && k < n && u(order[0]) >= 0.0 && u(order[n - 1]) <= (n - 1) as real
    requires forall m :: 0 <= m < n - 1 ==> u(Next(order, m)) >= u(order[m]) + 1.0
    ensures u(order[k]) == k as real
  {
    AtLeastPosition(n, order, u, k);
    AtMostPosition(n, order, u, k);
  }

  lemma {:induction false} AtLeastPosition(n: nat, order: seq<int>, u: int -> real, k: nat)
    requires |order| == n && k < n && u(order[0]) >= 0.0
    requires forall m :: 0 <= m < n - 1 ==> u(Next(order, m)) >= u(order[m]) + 1.0
    ensures u(order[k]) >= k as real
  {
    if k > 0 {
      AtLeastPosition(n, order, u, k - 1);
      assert u(Next(order, k - 1)) >= u(order[k - 1]) + 1.0;
    }
  }

  lemma {:induction false} AtMostPosition(n: nat, order: seq<int>, u: int -> real, k: nat)
    requires |order| == n && k < n && u(order[n - 1]) <= (n - 1) as real
    requires forall m :: 0 <= m < n - 1 ==> u(Next(order, m)) >= u(order[m]) + 1.0
    ensures u(order[k]) <= k as real
    decreases n - k
  {
    if k < n - 1 {
      AtMostPosition(n, order, u, k + 1);
      assert u(Next(order, k)) >= u(order[k]) + 1.0;
    }
  }

  /** In the potential model every node has its position on the tour as potential. */
  lemma {:induction false} PotentialsArePositions(n: nat, v: Potentials, order: seq<int>, k: nat)
    requires 2 <= n && Mtz(n, v) && IsTour(n, order) && ArcsOfTour(n, order, v.x) && k < n
    ensures v.u(order[k]) == k as real
  {
    forall m | 0 <= m < n - 1 ensures v.u(Next(order, m)) >= v.u(order[m]) + 1.0 {
      assert v.x(order[m], Next(order, m)) == 1.0 && MtzRow(n, v, order[m], Next(order, m));
    }
    assert PotentialDomain(n, v, order[0]) && PotentialDomain(n, v, order[n - 1]);
    RisingNumbers(n, order, v.u, k);
  }

  /** And so it has in the lifted model. */
  lemma {:induction false} LiftedPotentialsArePositions(n: nat, v: Potentials, order: seq<int>, k: nat)
    requires 3 <= n && MtzStrong(n, v) && IsTour(n, order) && ArcsOfTour(n, order, v.x) && k < n
    ensures v.u(order[k]) == k as real
  {
    forall m | 0 <= m < n - 1 ensures v.u(Next(order, m)) >= v.u(order[m]) + 1.0 {
      var i, j := order[m], Next(order, m);
      assert v.x(i, j) == 1.0 && LiftedMtzRow(n, v, i, j) && ArcDomain(v.x, j, i);
    }
    assert PotentialDomain(n, v, order[0]) && PotentialDomain(n, v, order[n - 1]);
    RisingNumbers(n, order, v.u, k);
  }

  /** The same arcs, with the potential of one node moved. */
  function Moved(v: Potentials, i: int, shift: real): Potentials {
    Potentials(v.x, k => if k == i then v.u(k) + shift else v.u(k))
  }

  /** The lifting leaves no slack: along every step, and against it, the rows forbid to move the potentials apart. */
  lemma {:induction false} LiftedRowsAreTight(n: nat, v: Potentials, order: seq<int>, m: nat, shift: real)
    requires 3 <= n && MtzStrong(n, v) && IsTour(n, order) && ArcsOfTour(n, order, v.x)
    requires m + 1 < n && shift > 0.0
    ensures var i, j := order[m], order[m + 1];
            !LiftedMtzRow(n, Moved(v, i, shift), i, j) && !LiftedMtzRow(n, Moved(v, j, shift), j, i)
  {
    var i, j := order[m], order[m + 1];
    LiftedPotentialsArePositions(n, v, order, m);
    LiftedPotentialsArePositions(n, v, order, m + 1);
    OneWayOnly(n, v.x, order, m);
    assert v.x(i, Next(order, m)) == 1.0;
  }

  lemma {:induction false} OneWayOnly(n: nat, x: Arcs, order: seq<int>, m: nat)
    requires 3 <= n && IsTour(n, order) && ArcsOfTour(n, order, x) && m < n
    ensures x(Next(order, m), order[m]) == 0.0
  {
    var i, j := order[m], Next(order, m);
    assert ArcDomain(x, j, i);
    forall k | 0 <= k < n && order[k] == j ensures Next(order, k) != i { }
  }

  /** The bounds fix the potentials next to node 1 on both sides. */
  lemma {:induction false} LiftedBoundsAreTight(n: nat, v: Potentials, order: seq<int>, shift: real)
    requires 3 <= n && MtzStrong(n, v) && IsTour(n, order) && ArcsOfTour(n, order, v.x) && shift != 0.0
    ensures !LiftedBounds(n, Moved(v, order[1], shift), order[1])
    ensures !LiftedBounds(n, Moved(v, order[n - 1], shift), order[n - 1])
  {
    var second, last := order[1], order[n - 1];
    LiftedPotentialsArePositions(n, v, order, 1);
    LiftedPotentialsArePositions(n, v, order, n - 1);
    OneWayOnly(n, v.x, order, 0);
    OneWayOnly(n, v.x, order, n - 1);
    assert v.x(1, Next(order, 0)) == 1.0 && v.x(last, Next(order, n - 1)) == 1.0;
  }

  // ---------- what a tour costs ----------

  function StepCost(c: Arcs, order: seq<int>, k: int): real {
    if 0 <= k < |order| then c(order[k], Next(order, k)) else 0.0
  }

  function StepCosts(c: Arcs, order: seq<int>): int -> real { k => StepCost(c, order, k) }

  /** The objective of all four models is the length of the tour, step by step from node 1 and back to it. */
  lemma {:induction false} CostIsTourLength(n: nat, c: Arcs, x: Arcs, order: seq<int>)
    requires 2 <= n && IsTour(n, order) && ArcsOfTour(n, order, x)
    ensures TourCost(n, c, x) == Sum(StepCosts(c, order), 0, n)
  {
    forall k | 0 <= k < n ensures StepCosts(c, order)(k) == NodeCosts(n, c, x)(order[k]) {
      OneArcIsPaid(n, c, x, order, k);
    }
    SumAlongOrder(n, order, NodeCosts(n, c, x), StepCosts(c, order));
  }

  lemma {:induction false} OneArcIsPaid(n: nat, c: Arcs, x: Arcs, order: seq<int>, k: nat)
    requires 2 <= n && IsTour(n, order) && ArcsOfTour(n, order, x) && k < n
    ensures Sum(ArcCosts(c, x, order[k]), 1, n + 1) == c(order[k], Next(order, k))
  {
    var i, next := order[k], Next(order, k);
    forall j | 1 <= j < n + 1 && j != next ensures ArcCosts(c, x, i)(j) == 0.0 {
      assert i != j ==> ArcDomain(x, i, j);
    }
    assert x(i, next) == 1.0;
    SumSingle(ArcCosts(c, x, i), 1, n + 1, next);
  }

  // ---------- potentials rule out subtours ----------

  lemma {:induction false} Highest(s: set<nat>, first: int, level: int -> real) returns (m: int)
    requires first in s
    ensures m in s && forall i :: i in s ==> level(i) <= level(m)
    decreases |s|
  {
    m := first;
    if next :| next in s && next != first {
      var m' := Highest(s - {first}, next, level);
      if level(m) < level(m') { m := m'; }
    }
  }

  /** No level can rise by one along every arc of a set that the arcs never leave. */
  lemma SomeArcDoesNotRise(n: nat, x: Arcs, s: set<nat>, level: int -> real) returns (i: int)
    requires Assignment(n, x) && Subtour(n, x, s)
    ensures i in s && level(Succ(n, x, i)) <= level(i)
  {
    var first :| first in s;
    i := Highest(s, first, level);
  }

  lemma MtzHasNoSubtour(n: nat, v: Potentials, s: set<nat>)
    requires Mtz(n, v)
    ensures !Subtour(n, v.x, s)
  {
    if Subtour(n, v.x, s) {
      forall i | i in s ensures v.u(Succ(n, v.x, i)) >= v.u(i) + 1.0 {
        assert MtzRow(n, v, i, Succ(n, v.x, i));
      }
      var i := SomeArcDoesNotRise(n, v.x, s, v.u);
    }
  }

  lemma MtzStrongHasNoSubtour(n: nat, v: Potentials, s: set<nat>)
    requires MtzStrong(n, v)
    ensures !Subtour(n, v.x, s)
  {
    if Subtour(n, v.x, s) {
      forall i | i in s ensures v.u(Succ(n, v.x, i)) >= v.u(i) + 1.0 {
        var j := Succ(n, v.x, i);
        assert LiftedMtzRow(n, v, i, j);
        assert ArcDomain(v.x, j, i);
      }
      var i := SomeArcDoesNotRise(n, v.x, s, v.u);
    }
  }

  // ---------- flows rule out subtours ----------

  ghost function Pred(n: nat, x: Arcs, i: int): (j: int)
    requires Assignment(n, x) && 1 <= i <= n
    ensures 1 <= j <= n && j != i && x(j, i) == 1.0 && Succ(n, x, j) == i
  {
    PredExists(n, x, i);
    var j :| 1 <= j <= n && j != i && x(j, i) == 1.0;
    ArcIsSucc(n, x, j, i);
    j
  }

  lemma PredExists(n: nat, x: Arcs, i: int)
    requires Assignment(n, x) && 1 <= i <= n
    ensures exists j :: 1 <= j <= n && j != i && x(j, i) == 1.0
  {
    assert DegreeRows(n, x, i);
    var j := PositiveTerm(InTerms(x, i), 1, n + 1);
    assert ArcDomain(x, j, i);
  }

  lemma PredOfSucc(n: nat, x: Arcs, i: int)
    requires Assignment(n, x) && 1 <= i <= n
    ensures Pred(n, x, Succ(n, x, i)) == i
  {
    SuccInjective(n, x, i, Pred(n, x, Succ(n, x, i)));
  }

  /** What reaches node `i`, negated. */
  ghost function Depletion(n: nat, v: SingleFlow): int -> real
    requires Assignment(n, v.x)
  {
    i => if 1 <= i <= n then -v.f(Pred(n, v.x, i), i) else 0.0
  }

  /** Every node other than 1 consumes one unit before the flow goes on. */
  lemma FlowDrops(n: nat, v: SingleFlow, i: int)
    requires Scf(n, v) && 2 <= i <= n && Succ(n, v.x, i) != 1
    ensures v.f(i, Succ(n, v.x, i)) <= v.f(Pred(n, v.x, i), i) - 1.0
  {
    var p, s := Pred(n, v.x, i), Succ(n, v.x, i);
    forall j | 1 <= j < n + 1 && j != p ensures OutTerm(v.f, j, i) == 0.0 {
      if j != i {
        assert FlowUB(n, v, j, i) && FlowDomain(n, v, j, i) && ArcDomain(v.x, j, i);
        if v.x(j, i) == 1.0 {
          ArcIsSucc(n, v.x, j, i);
          SuccInjective(n, v.x, j, p);
        }
      }
    }
    SumSingle(InTerms(v.f, i), 1, n + 1, p);
    forall j | 1 <= j < n + 1 ensures 0.0 <= OutTerm(v.f, i, j) { assert FlowDomain(n, v, i, j); }
    TermAtMostSum(OutTerms(v.f, i), 1, n + 1, s);
    assert FlowConsumed(n, v, i);
  }

  lemma ScfHasNoSubtour(n: nat, v: SingleFlow, s: set<nat>)
    requires Scf(n, v)
    ensures !Subtour(n, v.x, s)
  {
    if Subtour(n, v.x, s) {
      forall i | i in s ensures Depletion(n, v)(Succ(n, v.x, i)) >= Depletion(n, v)(i) + 1.0 {
        FlowDrops(n, v, i);
        PredOfSucc(n, v.x, i);
      }
      var i := SomeArcDoesNotRise(n, v.x, s, Depletion(n, v));
    }
  }

  /** In a finite set that successors do not leave, every node is a successor. */
  lemma {:induction false} SomeNodePrecedes(n: nat, x: Arcs, s: set<nat>, k: nat) returns (i: nat)
    requires Assignment(n, x) && (forall i :: i in s ==> 1 <= i <= n) && k in s
    requires forall i {:trigger Succ(n, x, i)} :: i in s ==> Succ(n, x, i) in s
    ensures i in s && Succ(n, x, i) == k
    decreases |s|
  {
    if j :| j in s && Succ(n, x, j) == k {
      i := j;
    } else {
      i := SomeNodePrecedes(n, x, s - {k}, Succ(n, x, k));
      SuccInjective(n, x, i, k);
    }
  }

  /** Along an arc, commodity `k` is passed on unchanged, and `k` itself passes on nothing. */
  lemma CommodityPassesOn(n: nat, v: MultiFlow, i: int, k: int)
    requires Mcf(n, v) && 2 <= i <= n && 2 <= k <= n && Succ(n, v.x, i) != 1
    ensures Inflow(n, v, Succ(n, v.x, i), k) == if i == k then 0.0 else Inflow(n, v, i, k)
  {
    var s := Succ(n, v.x, i);
    forall j | 1 <= j < n + 1 && j != i ensures FlowAt(n, v, j, s, k) == 0.0 {
      if HasFlow(n, j, s, k) {
        assert CommodityUB(n, v, j, s, k) && ArcDomain(v.x, j, s);
        if v.x(j, s) == 1.0 {
          ArcIsSucc(n, v.x, j, s);
          SuccInjective(n, v.x, i, j);
        }
      }
    }
    SumSingle(FlowInTerms(n, v, s, k), 1, n + 1, i);
    if i != k {
      forall j | 1 <= j < n + 1 && j != s ensures FlowAt(n, v, i, j, k) == 0.0 {
        if HasFlow(n, i, j, k) {
          assert CommodityUB(n, v, i, j, k) && ArcDomain(v.x, i, j);
          if v.x(i, j) == 1.0 { ArcIsSucc(n, v.x, i, j); }
        }
      }
      SumSingle(FlowOutTerms(n, v, i, k), 1, n + 1, s);
      assert CommodityKept(n, v, i, k);
    }
  }

  lemma McfHasNoSubtour(n: nat, v: MultiFlow, s: set<nat>)
    requires Mcf(n, v)
    ensures !Subtour(n, v.x, s)
  {
    if Subtour(n, v.x, s) {
      var k :| k in s;
      assert CommodityEnds(n, v, k);
      // the nodes that commodity k does not reach
      var dry := set i | i in s && Inflow(n, v, i, k) == 0.0;
      forall i | i in dry + {k} ensures Succ(n, v.x, i) in dry {
        CommodityPassesOn(n, v, i, k);
      }
      var i := SomeNodePrecedes(n, v.x, dry, Succ(n, v.x, k));
      SuccInjective(n, v.x, i, k);
    }
  }

  // ---------- the four formulations have the same tours ----------

  lemma MtzDescribesCycles(n: nat, x: Arcs)
    requires 2 <= n
    ensures (exists u :: Mtz(n, Potentials(x, u))) <==> HamiltonianCycle(n, x)
  {
    forall u | Mtz(n, Potentials(x, u)) ensures HamiltonianCycle(n, x) {
      forall s ensures !Subtour(n, x, s) { MtzHasNoSubtour(n, Potentials(x, u), s); }
      NoSubtourMeansCycle(n, x);
    }
    if order :| IsTour(n, order) && ArcsOfTour(n, order, x) {
      var p, at := PositionsOfTour(n, order, x);
      TourMeetsMtz(n, x, p, at);
    }
  }

  lemma MtzStrongDescribesCycles(n: nat, x: Arcs)
    requires 2 <= n
    ensures (exists u :: MtzStrong(n, Potentials(x, u))) <==> HamiltonianCycle(n, x)
  {
    forall u | MtzStrong(n, Potentials(x, u)) ensures HamiltonianCycle(n, x) {
      forall s ensures !Subtour(n, x, s) { MtzStrongHasNoSubtour(n, Potentials(x, u), s); }
      NoSubtourMeansCycle(n, x);
    }
    if order :| IsTour(n, order) && ArcsOfTour(n, order, x) {
      var p, at := PositionsOfTour(n, order, x);
      TourMeetsMtzStrong(n, x, p, at);
    }
  }

  lemma ScfDescribesCycles(n: nat, x: Arcs)
    requires 2 <= n
    ensures (exists f :: Scf(n, SingleFlow(x, f))) <==> HamiltonianCycle(n, x)
  {
    forall f | Scf(n, SingleFlow(x, f)) ensures HamiltonianCycle(n, x) {
      forall s ensures !Subtour(n, x, s) { ScfHasNoSubtour(n, SingleFlow(x, f), s); }
      NoSubtourMeansCycle(n, x);
    }
    if order :| IsTour(n, order) && ArcsOfTour(n, order, x) {
      var p, at := PositionsOfTour(n, order, x);
      TourMeetsScf(n, x, p, at);
    }
  }

  lemma McfDescribesCycles(n: nat, x: Arcs)
    requires 2 <= n
    ensures (exists f :: Mcf(n, MultiFlow(x, f))) <==> HamiltonianCycle(n, x)
  {
    forall f | Mcf(n, MultiFlow(x, f)) ensures HamiltonianCycle(n, x) {
      forall s ensures !Subtour(n, x, s) { McfHasNoSubtour(n, MultiFlow(x, f), s); }
      NoSubtourMeansCycle(n, x);
    }
    if order :| IsTour(n, order) && ArcsOfTour(n, order, x) {
      var p, at := PositionsOfTour(n, order, x);
      TourMeetsMcf(n, x, p, at);
    }
  }

  /** The four formulations allow the same arc sets, so any cost of the arcs has the same optimum in all of them. */
  lemma FormulationsAgree(n: nat, x: Arcs)
    requires 2 <= n
    ensures var mtz := exists u :: Mtz(n, Potentials(x, u));
            && (mtz <==> exists u :: MtzStrong(n, Potentials(x, u)))
            && (mtz <==> exists f :: Scf(n, SingleFlow(x, f)))
            && (mtz <==> exists f :: Mcf(n, MultiFlow(x, f)))
  {
    MtzDescribesCycles(n, x);
    MtzStrongDescribesCycles(n, x);
    ScfDescribesCycles(n, x);
    McfDescribesCycles(n, x);
  }
}

/** Every Hamiltonian cycle satisfies each of the four formulations. */
module AtspTours {
  import opened Sums
  import opened Lists
  import opened Atsp

  function Inflow(n: nat, v: MultiFlow, i: int, k: int): real {
    Sum(FlowInTerms(n, v, i, k), 1, n + 1)
  }

  /** `p` numbers the nodes along the tour from 0, `at` is its inverse. */
  ghost predicate Positioned(n: nat, x: Arcs, p: int -> int, at: int -> int) {
    && 2 <= n && at(0) == 1
    && (forall i :: 1 <= i <= n ==> 0 <= p(i) < n && at(p(i)) == i)
    && (forall k :: 0 <= k < n ==> 1 <= at(k) <= n && p(at(k)) == k)
    && (forall i, j :: 1 <= i <= n && 1 <= j <= n && i != j ==> StepArc(n, x, p, i, j))
  }

  predicate StepArc(n: nat, x: Arcs, p: int -> int, i: int, j: int) {
    Binary(x(i, j)) && (x(i, j) == 1.0 <==> p(j) == p(i) + 1 || (p(i) == n - 1 && j == 1))
  }

  /** The arc leaves `i`, which is at position `k`, exactly for the node at the next position. */
  lemma StepOfTour(n: nat, order: seq<int>, x: Arcs, i: int, j: int, k: int)
    requires 2 <= n && IsTour(n, order) && ArcsOfTour(n, order, x)
    requires 1 <= i <= n && 1 <= j <= n && i != j && 0 <= k < n
    ensures Binary(x(i, j)) && (order[k] == i ==> (x(i, j) == 1.0 <==> Next(order, k) == j))
  {
    assert ArcDomain(x, i, j);
  }

  /** Positions of distinct nodes: the arc from `i` is a step from its position. */
  lemma ArcByPositions(n: nat, order: seq<int>, x: Arcs, i: int, j: int)
    requires 2 <= n && IsTour(n, order) && ArcsOfTour(n, order, x)
    requires 1 <= i <= n && 1 <= j <= n && i != j && i in order && j in order
    ensures Binary(x(i, j))
    ensures x(i, j) == 1.0 <==> Position(order, j) == Position(order, i) + 1 || (Position(order, i) == n - 1 && j == 1)
  {
    var k, k' := Position(order, i), Position(order, j);
    StepOfTour(n, order, x, i, j, k);
    assert order[k] == i && order[k'] == j;
    if k + 1 < n { assert Next(order, k) == j <==> k' == k + 1; }
  }

  lemma PositionsOfTour(n: nat, order: seq<int>, x: Arcs) returns (p: int -> int, at: int -> int)
    requires 2 <= n && IsTour(n, order) && ArcsOfTour(n, order, x)
    ensures Positioned(n, x, p, at)
  {
    DistinctUpTo(n, order);
    p := i => Position(order, i);
    at := k => if 0 <= k < |order| then order[k] else 1;
    forall i, j | 1 <= i <= n && 1 <= j <= n && i != j ensures StepArc(n, x, p, i, j) {
      ArcByPositions(n, order, x, i, j);
    }
    forall k | 0 <= k < n ensures p(at(k)) == k {
      assert order[Position(order, order[k])] == order[k];
    }
  }

  /** The node after and the node before `i` on the tour. */
  function NextNode(n: nat, p: int -> int, at: int -> int, i: int): int {
    if p(i) == n - 1 then 1 else at(p(i) + 1)
  }

  function PrevNode(n: nat, p: int -> int, at: int -> int, i: int): int {
    if p(i) == 0 then at(n - 1) else at(p(i) - 1)
  }

  lemma NeighboursOnTour(n: nat, x: Arcs, p: int -> int, at: int -> int, i: int)
    requires Positioned(n, x, p, at) && 1 <= i <= n
    ensures var s := NextNode(n, p, at, i); 1 <= s <= n && s != i && x(i, s) == 1.0
    ensures var r := PrevNode(n, p, at, i); 1 <= r <= n && r != i && x(r, i) == 1.0
    ensures forall j :: 1 <= j <= n && j != i && j != NextNode(n, p, at, i) ==> x(i, j) == 0.0
    ensures forall j :: 1 <= j <= n && j != i && j != PrevNode(n, p, at, i) ==> x(j, i) == 0.0
  {
    var s, r := NextNode(n, p, at, i), PrevNode(n, p, at, i);
    assert p(1) == 0;
    assert StepArc(n, x, p, i, s) && StepArc(n, x, p, r, i);
    forall j | 1 <= j <= n && j != i && j != s ensures x(i, j) == 0.0 { assert StepArc(n, x, p, i, j); }
    forall j | 1 <= j <= n && j != i && j != r ensures x(j, i) == 0.0 { assert StepArc(n, x, p, j, i); }
  }

  lemma TourIsAssignment(n: nat, x: Arcs, p: int -> int, at: int -> int)
    requires Positioned(n, x, p, at)
    ensures Assignment(n, x)
  {
    forall i, j | 1 <= i <= n && 1 <= j <= n ensures ArcDomain(x, i, j) {
      if i != j { assert StepArc(n, x, p, i, j); }
    }
    forall i | 1 <= i <= n ensures DegreeRows(n, x, i) {
      NeighboursOnTour(n, x, p, at, i);
      SumSingle(OutTerms(x, i), 1, n + 1, NextNode(n, p, at, i));
      SumSingle(InTerms(x, i), 1, n + 1, PrevNode(n, p, at, i));
    }
  }

  function PositionLevels(p: int -> int): int -> real { i => p(i) as real }

  /** The potential row, in terms of two positions on a tour and the arc between them. */
  lemma {:induction false} RowOfPositions(n: nat, pi: int, pj: int, there: real)
    requires 0 <= pi < n && 1 <= pj < n && Binary(there) && (there == 1.0 ==> pj == pi + 1)
    ensures pi as real - pj as real + (n - 1) as real * there <= (n - 2) as real
  {
    assert (n - 1) as real * there == if there == 1.0 then (n - 1) as real else 0.0;
  }

  lemma TourMeetsMtzRow(n: nat, x: Arcs, p: int -> int, at: int -> int, i: int, j: int)
    requires Positioned(n, x, p, at) && p(1) == 0 && 1 <= i <= n && 2 <= j <= n
    ensures MtzRow(n, Potentials(x, PositionLevels(p)), i, j)
  {
    if i != j {
      assert StepArc(n, x, p, i, j);
      assert at(p(j)) == j && at(p(1)) == 1;
      RowOfPositions(n, p(i), p(j), x(i, j));
    }
  }

  lemma TourMeetsMtz(n: nat, x: Arcs, p: int -> int, at: int -> int)
    requires Positioned(n, x, p, at)
    ensures Mtz(n, Potentials(x, PositionLevels(p)))
  {
    var v := Potentials(x, PositionLevels(p));
    TourIsAssignment(n, x, p, at);
    assert p(1) == 0;
    forall i | 1 <= i <= n ensures PotentialDomain(n, v, i) { }
    forall i, j | 1 <= i <= n && 2 <= j <= n ensures MtzRow(n, v, i, j) { TourMeetsMtzRow(n, x, p, at, i, j); }
  }

  /** The lifted row, in terms of two positions on a tour and the arcs between them. */
  lemma {:induction false} LiftedRowOfPositions(n: nat, pi: int, pj: int, there: real, back: real)
    requires 0 <= pi < n && 1 <= pj < n && pi != pj && Binary(there) && Binary(back)
    requires there == 1.0 ==> pj == pi + 1
    requires back == 1.0 ==> pi == pj + 1 || (pi == 0 && pj == n - 1)
    ensures pi as real - pj as real + (n - 1) as real * there + (n - 3) as real * back <= (n - 2) as real
  {
    assert (n - 1) as real * there == if there == 1.0 then (n - 1) as real else 0.0;
    assert (n - 3) as real * back == if back == 1.0 then (n - 3) as real else 0.0;
  }

  lemma TourMeetsLiftedRow(n: nat, x: Arcs, p: int -> int, at: int -> int, i: int, j: int)
    requires Positioned(n, x, p, at) && p(1) == 0 && 1 <= i <= n && 2 <= j <= n
    ensures LiftedMtzRow(n, Potentials(x, PositionLevels(p)), i, j)
  {
    if i != j {
      assert StepArc(n, x, p, i, j) && StepArc(n, x, p, j, i);
      assert at(p(i)) == i && at(p(j)) == j && at(p(1)) == 1;
      LiftedRowOfPositions(n, p(i), p(j), x(i, j), x(j, i));
    }
  }

  lemma TourMeetsLiftedBounds(n: nat, x: Arcs, p: int -> int, at: int -> int, i: int)
    requires Positioned(n, x, p, at) && p(1) == 0 && 2 <= i <= n
    ensures LiftedBounds(n, Potentials(x, PositionLevels(p)), i)
  {
    assert StepArc(n, x, p, 1, i) && StepArc(n, x, p, i, 1);
    assert at(p(i)) == i && at(p(1)) == 1;
  }

  lemma TourMeetsMtzStrong(n: nat, x: Arcs, p: int -> int, at: int -> int)
    requires Positioned(n, x, p, at)
    ensures MtzStrong(n, Potentials(x, PositionLevels(p)))
  {
    var v := Potentials(x, PositionLevels(p));
    TourIsAssignment(n, x, p, at);
    assert p(1) == 0;
    forall i | 1 <= i <= n ensures PotentialDomain(n, v, i) { }
    forall i | 2 <= i <= n ensures LiftedBounds(n, v, i) { TourMeetsLiftedBounds(n, x, p, at, i); }
    forall i, j | 1 <= i <= n && 2 <= j <= n ensures LiftedMtzRow(n, v, i, j) {
      TourMeetsLiftedRow(n, x, p, at, i, j);
    }
  }

  // ---------- the two flows of a tour ----------

  function FlowOfTour(n: nat, x: Arcs, p: int -> int): Arcs {
    (i, j) => if j != 1 && x(i, j) == 1.0 then (n - 1 - p(i)) as real else 0.0
  }

  lemma TourFlowRows(n: nat, x: Arcs, p: int -> int, at: int -> int, i: int)
    requires Positioned(n, x, p, at) && 1 <= i <= n
    ensures Sum(OutTerms(FlowOfTour(n, x, p), i), 1, n + 1) == (n - 1 - p(i)) as real
    ensures 2 <= i ==> Sum(InTerms(FlowOfTour(n, x, p), i), 1, n + 1) == (n - p(i)) as real
  {
    var f, s, r := FlowOfTour(n, x, p), NextNode(n, p, at, i), PrevNode(n, p, at, i);
    NeighboursOnTour(n, x, p, at, i);
    SumSingle(OutTerms(f, i), 1, n + 1, s);
    assert at(p(i)) == i && p(1) == 0;
    if p(i) < n - 1 { assert p(s) == p(i) + 1; }
    if 2 <= i {
      SumSingle(InTerms(f, i), 1, n + 1, r);
      assert p(r) == p(i) - 1;
    }
  }

  lemma TourMeetsScf(n: nat, x: Arcs, p: int -> int, at: int -> int)
    requires Positioned(n, x, p, at)
    ensures Scf(n, SingleFlow(x, FlowOfTour(n, x, p)))
  {
    var v := SingleFlow(x, FlowOfTour(n, x, p));
    TourIsAssignment(n, x, p, at);
    assert at(0) == 1 && p(1) == 0;
    forall i, j | 1 <= i <= n && 1 <= j <= n ensures FlowDomain(n, v, i, j) && (2 <= j ==> FlowUB(n, v, i, j)) {
      assert at(p(i)) == i;
      if i != j { assert StepArc(n, x, p, i, j); }
    }
    forall i | 2 <= i <= n ensures FlowConsumed(n, v, i) { TourFlowRows(n, x, p, at, i); }
    TourFlowRows(n, x, p, at, 1);
    SumSplit(OutTerms(v.f, 1), 1, 2, n + 1);
    SumSingle(OutTerms(v.f, 1), 1, 2, 1);
    SumCongruent(OutTerms(v.f, 1), FlowFrom1(v), 2, n + 1);
  }

  function CommoditiesOfTour(n: nat, x: Arcs, p: int -> int): (int, int, int) -> real {
    (i, j, k) => if x(i, j) == 1.0 && p(j) <= p(k) then 1.0 else 0.0
  }

  /** What of commodity `k` enters and leaves node `i`. */
  lemma TourCommodityRows(n: nat, x: Arcs, p: int -> int, at: int -> int, i: int, k: int)
    requires Positioned(n, x, p, at) && 1 <= i <= n && 2 <= k <= n
    ensures var v := MultiFlow(x, CommoditiesOfTour(n, x, p));
            && (2 <= i ==> Inflow(n, v, i, k) == if p(i) <= p(k) then 1.0 else 0.0)
            && (i != k ==> Sum(FlowOutTerms(n, v, i, k), 1, n + 1) == if p(i) < p(k) then 1.0 else 0.0)
  {
    var v, s, r := MultiFlow(x, CommoditiesOfTour(n, x, p)), NextNode(n, p, at, i), PrevNode(n, p, at, i);
    NeighboursOnTour(n, x, p, at, i);
    assert at(0) == 1 && p(1) == 0 && at(p(i)) == i && at(p(k)) == k;
    if 2 <= i {
      SumSingle(FlowInTerms(n, v, i, k), 1, n + 1, r);
      assert p(r) == p(i) - 1;
    }
    if i != k {
      SumSingle(FlowOutTerms(n, v, i, k), 1, n + 1, s);
      if p(i) < n - 1 { assert p(s) == p(i) + 1; }
    }
  }

  lemma TourMeetsMcf(n: nat, x: Arcs, p: int -> int, at: int -> int)
    requires Positioned(n, x, p, at)
    ensures Mcf(n, MultiFlow(x, CommoditiesOfTour(n, x, p)))
  {
    var v := MultiFlow(x, CommoditiesOfTour(n, x, p));
    TourIsAssignment(n, x, p, at);
    assert at(0) == 1 && p(1) == 0;
    forall k | 2 <= k <= n ensures CommodityEnds(n, v, k) {
      assert at(p(k)) == k;
      TourCommodityRows(n, x, p, at, 1, k);
      TourCommodityRows(n, x, p, at, k, k);
      SumSplit(FlowOutTerms(n, v, 1, k), 1, 2, n + 1);
      SumSingle(FlowOutTerms(n, v, 1, k), 1, 2, 1);
    }
    forall i, k | 2 <= i <= n && 2 <= k <= n ensures CommodityKept(n, v, i, k) {
      assert at(p(i)) == i && at(p(k)) == k;
      TourCommodityRows(n, x, p, at, i, k);
    }
    forall i, j, k ensures CommodityUB(n, v, i, j, k) {
      if HasFlow(n, i, j, k) { assert StepArc(n, x, p, i, j); }
    }
  }
}
