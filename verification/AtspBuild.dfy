/** The four builders of the traveling salesman models, proved against the predicates of `Atsp`. */
module AtspBuild {
  import opened Sums
  import opened Scip
  import opened Atsp

  /** One 0/1 variable per arc. */
  method AddArcs<A(!new)>(model: Model<A>, n: nat, arcs: A -> Arcs)
    modifies model
    ensures forall a :: Holds(model.rows, a) <==> old(Holds(model.rows, a)) && AllArcs(n, arcs(a))
  {
    for i := 1 to n + 1
      invariant forall a :: Holds(model.rows, a) <==>
                  old(Holds(model.rows, a)) && forall i', j :: 1 <= i' < i && 1 <= j <= n ==> ArcDomain(arcs(a), i', j)
    {
      for j := 1 to n + 1
        invariant forall a :: Holds(model.rows, a) <==>
                    && old(Holds(model.rows, a))
                    && (forall i', j :: 1 <= i' < i && 1 <= j <= n ==> ArcDomain(arcs(a), i', j))
                    && (forall j' :: 1 <= j' < j ==> ArcDomain(arcs(a), i, j'))
      {
        model.AddCons(a => ArcDomain(arcs(a), i, j));
      }
    }
  }

  ghost predicate AllArcs(n: nat, x: Arcs) {
    forall i, j :: 1 <= i <= n && 1 <= j <= n ==> ArcDomain(x, i, j)
  }

  /** The rows `Out` and `In` of every node. */
  method AddDegreeRows<A(!new)>(model: Model<A>, n: nat, arcs: A -> Arcs)
    modifies model
    ensures forall a :: Holds(model.rows, a) <==>
              old(Holds(model.rows, a)) && forall i :: 1 <= i <= n ==> DegreeRows(n, arcs(a), i)
  {
    for i := 1 to n + 1
      invariant forall a :: Holds(model.rows, a) <==>
                  old(Holds(model.rows, a)) && forall k :: 1 <= k < i ==> DegreeRows(n, arcs(a), k)
    {
      model.AddCons(a => Sum(OutTerms(arcs(a), i), 1, n + 1) == 1.0);
      model.AddCons(a => Sum(InTerms(arcs(a), i), 1, n + 1) == 1.0);
      assert forall a :: DegreeRows(n, arcs(a), i) <==>
               Sum(OutTerms(arcs(a), i), 1, n + 1) == 1.0 && Sum(InTerms(arcs(a), i), 1, n + 1) == 1.0;
    }
  }

  /** The nested loops over nodes `i` and targets `j` from 2 on. */
  method AddForArcs<A(!new)>(model: Model<A>, n: nat, row: (A, int, int) -> bool)
    requires 1 <= n
    modifies model
    ensures forall a :: Holds(model.rows, a) <==>
              old(Holds(model.rows, a)) && forall i, j :: 1 <= i <= n && 2 <= j <= n ==> row(a, i, j)
  {
    for i := 1 to n + 1
      invariant forall a :: Holds(model.rows, a) <==>
                  old(Holds(model.rows, a)) && forall i', j :: 1 <= i' < i && 2 <= j <= n ==> row(a, i', j)
    {
      for j := 2 to n + 1
        invariant forall a :: Holds(model.rows, a) <==>
                    && old(Holds(model.rows, a))
                    && (forall i', j' :: 1 <= i' < i && 2 <= j' <= n ==> row(a, i', j'))
                    && (forall j' :: 2 <= j' < j ==> row(a, i, j'))
      {
        model.AddCons(a => row(a, i, j));
      }
    }
  }

  /** A row per node from `first` on. */
  method AddForNodes<A(!new)>(model: Model<A>, first: nat, n: nat, row: (A, int) -> bool)
    requires first <= n + 1
    modifies model
    ensures forall a :: Holds(model.rows, a) <==>
              old(Holds(model.rows, a)) && forall i :: first <= i <= n ==> row(a, i)
  {
    for i := first to n + 1
      invariant forall a :: Holds(model.rows, a) <==>
                  old(Holds(model.rows, a)) && forall k :: first <= k < i ==> row(a, k)
    {
      model.AddCons(a => row(a, i));
    }
  }

  method BuildMtz(n: nat, c: Arcs) returns (model: Model<Potentials>)
    requires 1 <= n
    ensures fresh(model)
    ensures forall v :: Holds(model.rows, v) <==> Mtz(n, v)
    ensures forall v :: model.objective(v) == TourCost(n, c, v.x)
  {
    var domain := (v: Potentials, i: int) => PotentialDomain(n, v, i);
    var mtz := (v: Potentials, i: int, j: int) => MtzRow(n, v, i, j);
    model := new Model();
    AddForNodes(model, 1, n, domain);
    AddArcs(model, n, (v: Potentials) => v.x);
    AddDegreeRows(model, n, (v: Potentials) => v.x);
    AddForArcs(model, n, mtz);
    model.SetObjective((v: Potentials) => TourCost(n, c, v.x));
    assert forall v, i :: domain(v, i) <==> PotentialDomain(n, v, i);
    assert forall v, i, j :: mtz(v, i, j) <==> MtzRow(n, v, i, j);
  }

  method BuildMtzStrong(n: nat, c: Arcs) returns (model: Model<Potentials>)
    requires 1 <= n
    ensures fresh(model)
    ensures forall v :: Holds(model.rows, v) <==> MtzStrong(n, v)
    ensures forall v :: model.objective(v) == TourCost(n, c, v.x)
  {
    var domain := (v: Potentials, i: int) => PotentialDomain(n, v, i);
    var lifted := (v: Potentials, i: int, j: int) => LiftedMtzRow(n, v, i, j);
    var bounds := (v: Potentials, i: int) => LiftedBounds(n, v, i);
    model := new Model();
    AddForNodes(model, 1, n, domain);
    AddArcs(model, n, (v: Potentials) => v.x);
    AddDegreeRows(model, n, (v: Potentials) => v.x);
    AddForArcs(model, n, lifted);
    AddForNodes(model, 2, n, bounds);
    model.SetObjective((v: Potentials) => TourCost(n, c, v.x));
    assert forall v, i :: domain(v, i) <==> PotentialDomain(n, v, i);
    assert forall v, i, j :: lifted(v, i, j) <==> LiftedMtzRow(n, v, i, j);
    assert forall v, i :: bounds(v, i) <==> LiftedBounds(n, v, i);
  }

  // ---------- single commodity ----------

  /** The bounds of the flow variables, set where the variables are created. */
  method AddFlowBounds(model: Model<SingleFlow>, n: nat)
    modifies model
    ensures forall v :: Holds(model.rows, v) <==>
              old(Holds(model.rows, v)) && forall i, j :: 1 <= i <= n && 1 <= j <= n ==> FlowDomain(n, v, i, j)
  {
    for i := 1 to n + 1
      invariant forall v :: Holds(model.rows, v) <==>
                  old(Holds(model.rows, v)) && forall i', j :: 1 <= i' < i && 1 <= j <= n ==> FlowDomain(n, v, i', j)
    {
      for j := 1 to n + 1
        invariant forall v :: Holds(model.rows, v) <==>
                    && old(Holds(model.rows, v))
                    && (forall i', j' :: 1 <= i' < i && 1 <= j' <= n ==> FlowDomain(n, v, i', j'))
                    && (forall j' :: 1 <= j' < j ==> FlowDomain(n, v, i, j'))
      {
        model.AddCons((v: SingleFlow) => FlowDomain(n, v, i, j));
      }
    }
  }

  /** The rows `FlowUB`: for every target, first the arc from node 1, then those from the others. */
  method AddFlowCapacities(model: Model<SingleFlow>, n: nat)
    requires 1 <= n
    modifies model
    ensures forall v :: Holds(model.rows, v) <==>
              old(Holds(model.rows, v)) && forall i, j :: 1 <= i <= n && 2 <= j <= n ==> FlowUB(n, v, i, j)
  {
    for j := 2 to n + 1
      invariant forall v :: Holds(model.rows, v) <==>
                  old(Holds(model.rows, v)) && forall i, j' :: 1 <= i <= n && 2 <= j' < j ==> FlowUB(n, v, i, j')
    {
      model.AddCons((v: SingleFlow) => FlowUB(n, v, 1, j));
      for i := 2 to n + 1
        invariant forall v :: Holds(model.rows, v) <==>
                    && old(Holds(model.rows, v))
                    && (forall i', j' :: 1 <= i' <= n && 2 <= j' < j ==> FlowUB(n, v, i', j'))
                    && (forall i' :: 1 <= i' < i ==> FlowUB(n, v, i', j))
      {
        if i != j {
          model.AddCons((v: SingleFlow) => FlowUB(n, v, i, j));
        }
      }
    }
  }

  method BuildScf(n: nat, c: Arcs) returns (model: Model<SingleFlow>)
    requires 1 <= n
    ensures fresh(model)
    ensures forall v :: Holds(model.rows, v) <==> Scf(n, v)
    ensures forall v :: model.objective(v) == TourCost(n, c, v.x)
  {
    var consumed := (v: SingleFlow, i: int) => FlowConsumed(n, v, i);
    model := new Model();
    AddArcs(model, n, (v: SingleFlow) => v.x);
    AddFlowBounds(model, n);
    AddDegreeRows(model, n, (v: SingleFlow) => v.x);
    model.AddCons((v: SingleFlow) => Sum(FlowFrom1(v), 2, n + 1) == (n - 1) as real);
    AddForNodes(model, 2, n, consumed);
    AddFlowCapacities(model, n);
    model.SetObjective((v: SingleFlow) => TourCost(n, c, v.x));
    assert forall v, i :: consumed(v, i) <==> FlowConsumed(n, v, i);
  }

  // ---------- one commodity per node ----------

  predicate CommodityDomain(n: nat, v: MultiFlow, i: int, j: int, k: int) {
    HasFlow(n, i, j, k) ==> 0.0 <= v.f(i, j, k) <= 1.0
  }

  predicate CommodityCapacity(n: nat, v: MultiFlow, i: int, j: int, k: int) {
    HasFlow(n, i, j, k) ==> v.f(i, j, k) <= v.x(i, j)
  }

  /** A row for every arc and commodity that may have a flow variable. */
  method AddForFlows(model: Model<MultiFlow>, n: nat, row: (MultiFlow, int, int, int) -> bool)
    requires 1 <= n
    modifies model
    ensures forall v :: Holds(model.rows, v) <==>
              old(Holds(model.rows, v)) && forall i, j, k :: 1 <= i <= n && 2 <= j <= n && 2 <= k <= n ==>
                row(v, i, j, k)
  {
    for k := 2 to n + 1
      invariant forall v :: Holds(model.rows, v) <==>
                  && old(Holds(model.rows, v))
                  && forall i, j, k' :: 1 <= i <= n && 2 <= j <= n && 2 <= k' < k ==> row(v, i, j, k')
    {
      var ofCommodity := (v: MultiFlow, i: int, j: int) => row(v, i, j, k);
      AddForArcs(model, n, ofCommodity);
      assert forall v, i, j :: ofCommodity(v, i, j) <==> row(v, i, j, k);
    }
  }

  predicate CommodityOut(n: nat, v: MultiFlow, k: int) { Sum(FlowOutTerms(n, v, 1, k), 2, n + 1) == 1.0 }

  predicate CommodityIn(n: nat, v: MultiFlow, k: int) { Sum(FlowInTerms(n, v, k, k), 1, n + 1) == 1.0 }

  /** Out of node 1, into its sink, and kept everywhere else. */
  ghost predicate CommodityRows(n: nat, v: MultiFlow, k: int) {
    CommodityOut(n, v, k) && CommodityIn(n, v, k) && forall i :: 2 <= i <= n ==> CommodityKept(n, v, i, k)
  }

  /** The body of the loop over commodities. */
  method AddCommodity(model: Model<MultiFlow>, n: nat, k: int)
    requires 1 <= n
    modifies model
    ensures forall v :: Holds(model.rows, v) <==> old(Holds(model.rows, v)) && CommodityRows(n, v, k)
  {
    model.AddCons((v: MultiFlow) => CommodityOut(n, v, k));
    model.AddCons((v: MultiFlow) => CommodityIn(n, v, k));
    for i := 2 to n + 1
      invariant forall v :: Holds(model.rows, v) <==>
                  && old(Holds(model.rows, v)) && CommodityOut(n, v, k) && CommodityIn(n, v, k)
                  && forall i' :: 2 <= i' < i ==> CommodityKept(n, v, i', k)
    {
      if i != k {
        model.AddCons((v: MultiFlow) => CommodityKept(n, v, i, k));
      }
    }
  }

  method AddCommodities(model: Model<MultiFlow>, n: nat)
    requires 1 <= n
    modifies model
    ensures forall v :: Holds(model.rows, v) <==>
              old(Holds(model.rows, v)) && forall k :: 2 <= k <= n ==> CommodityRows(n, v, k)
  {
    for k := 2 to n + 1
      invariant forall v :: Holds(model.rows, v) <==>
                  old(Holds(model.rows, v)) && forall k' :: 2 <= k' < k ==> CommodityRows(n, v, k')
    {
      AddCommodity(model, n, k);
    }
  }

  method BuildMcf(n: nat, c: Arcs) returns (model: Model<MultiFlow>)
    requires 1 <= n
    ensures fresh(model)
    ensures forall v :: Holds(model.rows, v) <==> Mcf(n, v)
    ensures forall v :: model.objective(v) == TourCost(n, c, v.x)
  {
    var domain := (v: MultiFlow, i: int, j: int, k: int) => CommodityDomain(n, v, i, j, k);
    var capacity := (v: MultiFlow, i: int, j: int, k: int) => CommodityCapacity(n, v, i, j, k);
    model := new Model();
    AddArcs(model, n, (v: MultiFlow) => v.x);
    AddForFlows(model, n, domain);
    AddDegreeRows(model, n, (v: MultiFlow) => v.x);
    AddCommodities(model, n);
    AddForFlows(model, n, capacity);
    model.SetObjective((v: MultiFlow) => TourCost(n, c, v.x));
    assert forall v, i, j, k :: domain(v, i, j, k) <==> CommodityDomain(n, v, i, j, k);
    assert forall v, i, j, k :: capacity(v, i, j, k) <==> CommodityCapacity(n, v, i, j, k);
    assert forall v :: Holds(model.rows, v) <==> McfByLoops(n, v);
    forall v ensures Mcf(n, v) <==> McfByLoops(n, v) { LoopsMakeMcf(n, v); }
  }

  ghost predicate McfByLoops(n: nat, v: MultiFlow) {
    && AllArcs(n, v.x) && (forall i :: 1 <= i <= n ==> DegreeRows(n, v.x, i))
    && (forall i, j, k :: 1 <= i <= n && 2 <= j <= n && 2 <= k <= n ==> CommodityDomain(n, v, i, j, k))
    && (forall k :: 2 <= k <= n ==> CommodityRows(n, v, k))
    && (forall i, j, k :: 1 <= i <= n && 2 <= j <= n && 2 <= k <= n ==> CommodityCapacity(n, v, i, j, k))
  }

  lemma LoopsMakeMcf(n: nat, v: MultiFlow)
    ensures Mcf(n, v) <==> McfByLoops(n, v)
  {
    if McfByLoops(n, v) {
      forall k | 2 <= k <= n ensures CommodityEnds(n, v, k) { assert CommodityRows(n, v, k); }
      forall i, k | 2 <= i <= n && 2 <= k <= n ensures CommodityKept(n, v, i, k) { assert CommodityRows(n, v, k); }
      forall i, j, k ensures CommodityUB(n, v, i, j, k) {
        if HasFlow(n, i, j, k) { assert CommodityDomain(n, v, i, j, k) && CommodityCapacity(n, v, i, j, k); }
      }
    }
    if Mcf(n, v) {
      forall i, j, k ensures CommodityDomain(n, v, i, j, k) && CommodityCapacity(n, v, i, j, k) {
        assert CommodityUB(n, v, i, j, k);
      }
      forall k | 2 <= k <= n ensures CommodityRows(n, v, k) { assert CommodityEnds(n, v, k); }
    }
  }
}
