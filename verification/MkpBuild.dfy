/** The methods that write the multiple knapsack program, proved against the predicates of `MultipleKnapsack`. */
module KnapsackBuild {
  import opened Sums
  import opened Scip
  import opened MultipleKnapsack

  /** The objective term of x[i, j]. */
  function ProfitTerm(items: seq<Item>, a: Assignment, i: int, j: int): real {
    if 0 <= i < |items| then ProfitTerms(items[i], a.packing, i)(j) else 0.0
  }

  ghost predicate Domains(p: Packing, m: nat, n: int) {
    forall i, j :: 0 <= i < n && 0 <= j < m ==> Domain(p, i, j)
  }

  class MultipleKnapsackModel {
    const inst: Instance
    var scip: Model<Assignment>

    constructor (inst: Instance)
      ensures this.inst == inst && fresh(scip)
    {
      this.inst := inst;
      scip := new Model();
    }

    /** The generator of items with multiplicity. */
    method ItemList() returns (items: seq<Item>)
      ensures items == Items(inst.uniqueItems)
    {
      items := [];
      for g := 0 to |inst.uniqueItems|
        invariant items == Items(inst.uniqueItems[..g])
      {
        var item, before := inst.uniqueItems[g], items;
        for j := 0 to item.multiplicity
          invariant items == before + seq(j, _ => item)
        {
          items := items + [item];
        }
        assert inst.uniqueItems[..g + 1][..g] == inst.uniqueItems[..g];
      }
      assert inst.uniqueItems[..|inst.uniqueItems|] == inst.uniqueItems;
    }

    /** The pairs of knapsacks that the sub-symmetry rows are written for. */
    method KnapsackPairs(consecutive: bool) returns (pairs: seq<(int, int)>)
      ensures forall j1, j2 :: (j1, j2) in pairs <==> IsPair(consecutive, |inst.capacities|, j1, j2)
    {
      var m := |inst.capacities|;
      pairs := [];
      for a := 0 to m
        invariant forall j1, j2 :: (j1, j2) in pairs <==> IsPair(consecutive, m, j1, j2) && j1 < a
      {
        for b := a + 1 to if consecutive && a + 2 < m then a + 2 else m
          invariant forall j1, j2 :: (j1, j2) in pairs <==>
                      IsPair(consecutive, m, j1, j2) && (j1 < a || (j1 == a && j2 < b))
        {
          pairs := pairs + [(a, b)];
        }
      }
    }

    method AddItemVariables(model: Model<Assignment>, items: seq<Item>, i: nat)
      requires i < |items|
      modifies model
      ensures forall a :: Holds(model.rows, a) <==>
                old(Holds(model.rows, a)) && forall j :: 0 <= j < |inst.capacities| ==> Domain(a.packing, i, j)
      ensures forall a :: model.objective(a) == old(model.objective(a))
                + Sum(ProfitTerms(items[i], a.packing, i), 0, |inst.capacities|)
    {
      for j := 0 to |inst.capacities|
        invariant forall a :: Holds(model.rows, a) <==>
                    old(Holds(model.rows, a)) && forall k :: 0 <= k < j ==> Domain(a.packing, i, k)
        invariant forall a :: model.objective(a) == old(model.objective(a))
                    + Sum(ProfitTerms(items[i], a.packing, i), 0, j)
      {
        model.AddVar((a: Assignment) => Domain(a.packing, i, j), (a: Assignment) => ProfitTerm(items, a, i, j));
      }
    }

    method AddVariables(model: Model<Assignment>, items: seq<Item>)
      modifies model
      ensures forall a :: Holds(model.rows, a) <==>
              old(Holds(model.rows, a)) && Domains(a.packing, |inst.capacities|, |items|)
      ensures forall a :: model.objective(a) == old(model.objective(a))
                + Sum(ItemProfits(items, |inst.capacities|, a.packing), 0, |items|)
    {
      var m := |inst.capacities|;
      for i := 0 to |items|
        invariant forall a :: Holds(model.rows, a) <==> old(Holds(model.rows, a)) && Domains(a.packing, m, i)
        invariant forall a ::
                    model.objective(a) == old(model.objective(a)) + Sum(ItemProfits(items, m, a.packing), 0, i)
      {
        AddItemVariables(model, items, i);
      }
    }

    /** The rows say exactly that a packing is feasible, and the objective is its profit. */
    method Build()
      modifies this
      ensures fresh(scip)
      ensures forall a :: Holds(scip.rows, a) <==> Feasible(inst, a.packing)
      ensures forall a :: scip.objective(a) == Profit(inst, a.packing)
    {
      var model := new Model<Assignment>();
      var items := ItemList();
      AddVariables(model, items);
      AddItemRows(model, |items|);
      AddCapacityRows(model, items);
      scip := model;
    }

    method AddItemRows(model: Model<Assignment>, n: nat)
      modifies model
      ensures forall a :: Holds(model.rows, a) <==>
                old(Holds(model.rows, a)) && forall i :: 0 <= i < n ==> ItemRow(|inst.capacities|, a.packing, i)
      ensures model.objective == old(model.objective)
    {
      var m := |inst.capacities|;
      for i := 0 to n
        invariant model.objective == old(model.objective)
        invariant forall a :: Holds(model.rows, a) <==>
                    old(Holds(model.rows, a)) && forall k :: 0 <= k < i ==> ItemRow(m, a.packing, k)
      {
        model.AddCons((a: Assignment) => ItemRow(m, a.packing, i));
      }
    }

    method AddCapacityRows(model: Model<Assignment>, items: seq<Item>)
      modifies model
      ensures forall a :: Holds(model.rows, a) <==>
                old(Holds(model.rows, a))
                && forall j :: 0 <= j < |inst.capacities| ==>
                   CapacityRow(items, inst.capacities[j], a.packing.knapsack(j).x)
      ensures model.objective == old(model.objective)
    {
      var capacities := inst.capacities;
      for j := 0 to |capacities|
        invariant model.objective == old(model.objective)
        invariant forall a :: Holds(model.rows, a) <==>
                    old(Holds(model.rows, a))
                    && forall k :: 0 <= k < j ==> CapacityRow(items, capacities[k], a.packing.knapsack(k).x)
      {
        var capacity := capacities[j];
        model.AddCons((a: Assignment) => CapacityRow(items, capacity, a.packing.knapsack(j).x));
      }
    }

    method AddAuxVariables(i: nat, j1: int, j2: int)
      modifies scip
      ensures forall a :: Holds(scip.rows, a) <==> old(Holds(scip.rows, a)) && AuxDomain(a.aux(i, j1, j2))
      ensures scip.objective == old(scip.objective)
    {
      scip.AddCons((a: Assignment) => 0.0 <= a.aux(i, j1, j2).alphaPlus);
      scip.AddCons((a: Assignment) => 0.0 <= a.aux(i, j1, j2).alphaMin);
      scip.AddCons((a: Assignment) => Binary(a.aux(i, j1, j2).zPlus));
      scip.AddCons((a: Assignment) => Binary(a.aux(i, j1, j2).zMin));
    }

    method AddSizeRows(W: int, i: nat, j1: int, j2: int)
      modifies scip
      ensures forall a :: Holds(scip.rows, a) <==> old(Holds(scip.rows, a)) && SizeRows(W, a.aux(i, j1, j2))
      ensures scip.objective == old(scip.objective)
    {
      scip.AddCons((a: Assignment) => a.aux(i, j1, j2).alphaPlus <= W as real * a.aux(i, j1, j2).zPlus);
      scip.AddCons((a: Assignment) => a.aux(i, j1, j2).alphaMin <= W as real * a.aux(i, j1, j2).zMin);
      scip.AddCons((a: Assignment) => a.aux(i, j1, j2).alphaPlus + a.aux(i, j1, j2).alphaMin
                                      >= a.aux(i, j1, j2).zPlus + a.aux(i, j1, j2).zMin);
    }

    method AddLinkRows(items: seq<Item>, i: nat, j1: int, j2: int)
      modifies scip
      ensures forall a :: Holds(scip.rows, a) <==>
                && old(Holds(scip.rows, a))
                && LinkRows(items, a.packing.knapsack(j1).x, a.packing.knapsack(j2).x, i, a.aux(i, j1, j2))
      ensures scip.objective == old(scip.objective)
    {
      scip.AddCons((a: Assignment) =>
                     Sum(DifferenceTerms(items, a.packing.knapsack(j1).x, a.packing.knapsack(j2).x), 0, i)
                     == a.aux(i, j1, j2).alphaPlus - a.aux(i, j1, j2).alphaMin);
      scip.AddCons((a: Assignment) => a.aux(i, j1, j2).zPlus + a.aux(i, j1, j2).zMin <= 1.0);
      scip.AddCons((a: Assignment) => a.packing.knapsack(j2).x(i)
                                      <= a.aux(i, j1, j2).zPlus + a.aux(i, j1, j2).zMin + a.packing.knapsack(j1).x(i));
    }

    /** Four auxiliary variables and six rows; `W` has to be the weight of all earlier items. */
    method AddPairRows(items: seq<Item>, W: int, i: nat, j1: int, j2: int)
      requires i < |items| && W == PrefixWeight(items, i)
      modifies scip
      ensures forall a :: Holds(scip.rows, a) <==> old(Holds(scip.rows, a)) && AuxRowsAt(items, a, i, j1, j2)
      ensures scip.objective == old(scip.objective)
    {
      AddAuxVariables(i, j1, j2);
      AddSizeRows(W, i, j1, j2);
      AddLinkRows(items, i, j1, j2);
    }

    method AddSubsymIneqs(consecutive: bool)
      modifies scip
      ensures forall a :: Holds(scip.rows, a) <==> old(Holds(scip.rows, a)) && AllAuxRows(inst, a, consecutive)
      ensures scip.objective == old(scip.objective)
    {
      var items := ItemList();
      var pairs := KnapsackPairs(consecutive);
      var W := 0;
      for i := 0 to |items|
        invariant W == PrefixWeight(items, i) && scip.objective == old(scip.objective)
        invariant forall a :: Holds(scip.rows, a) <==>
                    old(Holds(scip.rows, a))
                    && forall k, j1, j2 :: 0 <= k < i && (j1, j2) in pairs ==> AuxRowsAt(items, a, k, j1, j2)
      {
        for q := 0 to |pairs|
          invariant scip.objective == old(scip.objective)
          invariant forall a :: Holds(scip.rows, a) <==>
                      && old(Holds(scip.rows, a))
                      && (forall k, j1, j2 :: 0 <= k < i && (j1, j2) in pairs ==> AuxRowsAt(items, a, k, j1, j2))
                      && (forall j1, j2 :: (j1, j2) in pairs[..q] ==> AuxRowsAt(items, a, i, j1, j2))
        {
          AddPairRows(items, W, i, pairs[q].0, pairs[q].1);
          assert pairs[..q + 1] == pairs[..q] + [pairs[q]];
        }
        assert pairs[..|pairs|] == pairs;
        W := W + items[i].weight;
      }
    }

    /** The same inequalities after a global orbitope on the knapsack columns. */
    method AddSubsymIneqsGlobOrbitope(consecutive: bool)
      modifies scip
      ensures forall a :: Holds(scip.rows, a) <==>
                old(Holds(scip.rows, a)) && OrbitopeRow(inst, a.packing) && AllAuxRows(inst, a, consecutive)
      ensures scip.objective == old(scip.objective)
    {
      var instance := inst;
      scip.AddCons((a: Assignment) => OrbitopeRow(instance, a.packing));
      AddSubsymIneqs(consecutive);
    }
  }
}
