/** The builder of the single-item lot-sizing model, proved against the predicate of `LotSizingCut`. */
module LotSizingCutBuild {
  import opened Sums
  import opened Scip
  import opened LotSizingCut

  predicate Bounds(v: Point, M: real, t: int) {
    0.0 <= v.y(t) <= 1.0 && Binary(v.y(t)) && 0.0 <= v.x(t) <= M && 0.0 <= v.I(t)
  }

  predicate SetupRow(v: Point, M: real, t: int) { v.x(t) <= M * v.y(t) }

  predicate FlowRow(inst: Instance, v: Point, t: int) { Stock(v, t - 1) + v.x(t) == v.I(t) + inst.d(t) }

  ghost predicate RowsUpTo(inst: Instance, v: Point, M: real, n: int) {
    forall t :: 1 <= t < n ==> SetupRow(v, M, t) && FlowRow(inst, v, t)
  }

  ghost predicate BoundsUpTo(v: Point, M: real, n: int) { forall t :: 1 <= t < n ==> Bounds(v, M, t) }

  lemma IntegralByLoops(inst: Instance, v: Point)
    ensures var M := Demand(inst, 1, inst.T);
            BoundsUpTo(v, M, inst.T + 1) && RowsUpTo(inst, v, M, inst.T + 1) <==> Integral(inst, v)
  {
    var M := Demand(inst, 1, inst.T);
    if BoundsUpTo(v, M, inst.T + 1) && RowsUpTo(inst, v, M, inst.T + 1) {
      forall t | 1 <= t <= inst.T ensures PeriodRows(inst, v, t) {
        assert Bounds(v, M, t) && SetupRow(v, M, t);
      }
      forall t | 1 <= t <= inst.T ensures Binary(v.y(t)) { assert Bounds(v, M, t); }
    }
    if Integral(inst, v) {
      forall t | 1 <= t <= inst.T ensures Bounds(v, M, t) && SetupRow(v, M, t) && FlowRow(inst, v, t) {
        assert PeriodRows(inst, v, t);
      }
    }
  }

  method Sils(inst: Instance) returns (model: Model<Point>)
    ensures fresh(model)
    ensures forall v :: Holds(model.rows, v) <==> Integral(inst, v)
    ensures forall v :: model.objective(v) == Cost(inst, v)
  {
    model := new Model();
    var M := 0.0;
    for t := 1 to inst.T + 1
      invariant M == Sum(inst.d, 1, t) && forall v :: Holds(model.rows, v)
    {
      M := M + inst.d(t);
    }
    for t := 1 to inst.T + 1
      invariant forall v :: Holds(model.rows, v) <==> BoundsUpTo(v, M, t)
    {
      model.AddCons((v: Point) => Bounds(v, M, t));
    }
    for t := 1 to inst.T + 1
      invariant forall v :: Holds(model.rows, v) <==> BoundsUpTo(v, M, inst.T + 1) && RowsUpTo(inst, v, M, t)
    {
      model.AddCons((v: Point) => SetupRow(v, M, t));
      model.AddCons((v: Point) => FlowRow(inst, v, t));
    }
    model.SetObjective((v: Point) => Cost(inst, v));
    forall v ensures Holds(model.rows, v) <==> Integral(inst, v) { IntegralByLoops(inst, v); }
  }
}
