/** The starting model of the subtour loop, proved against the predicate of `Tsp`. */
module TspBuild {
  import opened Sums
  import opened Scip
  import opened Tsp
  import opened TspEdges

  method DegreeModel(n: nat, c: (int, int) -> real) returns (model: Model<Edges>)
    ensures fresh(model)
    ensures forall v :: Holds(model.rows, v) <==> Relaxed(n, v)
    ensures forall v :: model.objective(v) == Cost(n, c, v)
  {
    model := new Model();
    for i := 1 to n + 1
      invariant forall v :: Holds(model.rows, v) <==>
                forall i', j :: 1 <= i' < i && i' < j <= n ==> EdgeDomain(v, i', j)
    {
      for j := i + 1 to n + 1
        invariant forall v :: Holds(model.rows, v) <==>
                    && (forall i', j' :: 1 <= i' < i && i' < j' <= n ==> EdgeDomain(v, i', j'))
                    && (forall j' :: i < j' < j ==> EdgeDomain(v, i, j'))
      {
        model.AddCons((v: Edges) => EdgeDomain(v, i, j));
      }
    }
    for i := 1 to n + 1
      invariant forall v :: Holds(model.rows, v) <==>
                  && (forall i', j :: 1 <= i' < j <= n ==> EdgeDomain(v, i', j))
                  && (forall i' :: 1 <= i' < i ==> DegreeRow(n, v, i'))
    {
      model.AddCons((v: Edges) => DegreeRow(n, v, i));
    }
    model.SetObjective((v: Edges) => Cost(n, c, v));
  }
}
