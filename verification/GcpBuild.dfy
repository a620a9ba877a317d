/** The builder of the fixed-k colouring model, proved against the predicate of `GraphColoring`. */
module GraphColoringBuild {
  import opened Sums
  import opened Scip
  import opened GraphColoring

  predicate ColourDomain(v: Assignment, i: int, k: int) { Binary(v.x(i, k)) }

  /** A row for every item of a list and every colour. */
  method AddForColours(model: Model<Assignment>, count: nat, K: nat, row: (Assignment, int, int) -> bool)
    modifies model
    ensures forall v :: Holds(model.rows, v) <==>
              old(Holds(model.rows, v)) && forall a, k :: 0 <= a < count && 0 <= k < K ==> row(v, a, k)
  {
    for a := 0 to count
      invariant forall v :: Holds(model.rows, v) <==>
                  old(Holds(model.rows, v)) && forall b, k :: 0 <= b < a && 0 <= k < K ==> row(v, b, k)
    {
      for k := 0 to K
        invariant forall v :: Holds(model.rows, v) <==>
                    && old(Holds(model.rows, v))
                    && (forall b, l :: 0 <= b < a && 0 <= l < K ==> row(v, b, l))
                    && (forall l :: 0 <= l < k ==> row(v, a, l))
      {
        model.AddCons((v: Assignment) => row(v, a, k));
      }
    }
  }

  method AddForEach(model: Model<Assignment>, count: nat, row: (Assignment, int) -> bool)
    modifies model
    ensures forall v :: Holds(model.rows, v) <==> old(Holds(model.rows, v)) && forall a :: 0 <= a < count ==> row(v, a)
  {
    for a := 0 to count
      invariant forall v :: Holds(model.rows, v) <==> old(Holds(model.rows, v)) && forall b :: 0 <= b < a ==> row(v, b)
    {
      model.AddCons((v: Assignment) => row(v, a));
    }
  }

  predicate ColourDomainAt(G: Graph, v: Assignment, a: int, k: int) { 0 <= a < |G.V| ==> ColourDomain(v, G.V[a], k) }

  predicate EdgeDomainAt(G: Graph, v: Assignment, e: int) { 0 <= e < |G.E| ==> EdgeDomain(v, G.E[e].0, G.E[e].1) }

  predicate VertexRowAt(G: Graph, K: nat, v: Assignment, a: int) { 0 <= a < |G.V| ==> VertexRow(K, v, G.V[a]) }

  predicate EdgeRowAt(G: Graph, v: Assignment, e: int, k: int) {
    0 <= e < |G.E| ==> EdgeRow(v, G.E[e].0, G.E[e].1, k)
  }

  ghost predicate AllRows(G: Graph, K: nat, v: Assignment) {
    && (forall a, k :: 0 <= a < |G.V| && 0 <= k < K ==> ColourDomainAt(G, v, a, k))
    && (forall e :: 0 <= e < |G.E| ==> EdgeDomainAt(G, v, e))
    && (forall a :: 0 <= a < |G.V| ==> VertexRowAt(G, K, v, a))
    && (forall e, k :: 0 <= e < |G.E| && 0 <= k < K ==> EdgeRowAt(G, v, e, k))
  }

  lemma RowsByLoops(G: Graph, K: nat, v: Assignment)
    ensures AllRows(G, K, v) <==> Feasible(G, K, v)
  {
    if AllRows(G, K, v) {
      forall i, k | i in G.V && 0 <= k < K ensures Binary(v.x(i, k)) {
        var a :| 0 <= a < |G.V| && G.V[a] == i;
        assert ColourDomainAt(G, v, a, k);
      }
      forall i | i in G.V ensures VertexRow(K, v, i) {
        var a :| 0 <= a < |G.V| && G.V[a] == i;
        assert VertexRowAt(G, K, v, a);
      }
      forall e | 0 <= e < |G.E| ensures EdgeDomain(v, G.E[e].0, G.E[e].1) { assert EdgeDomainAt(G, v, e); }
      forall e, k | 0 <= e < |G.E| && 0 <= k < K ensures EdgeRow(v, G.E[e].0, G.E[e].1, k) {
        assert EdgeRowAt(G, v, e, k);
      }
    }
  }

  method GcpFixedK(G: Graph, K: nat) returns (model: Model<Assignment>)
    ensures fresh(model)
    ensures forall v :: Holds(model.rows, v) <==> Feasible(G, K, v)
    ensures forall v :: model.objective(v) == Objective(G, v)
  {
    var colours := (v: Assignment, a: int, k: int) => ColourDomainAt(G, v, a, k);
    var edges := (v: Assignment, e: int) => EdgeDomainAt(G, v, e);
    var vertices := (v: Assignment, a: int) => VertexRowAt(G, K, v, a);
    var bad := (v: Assignment, e: int, k: int) => EdgeRowAt(G, v, e, k);
    model := new Model();
    AddForColours(model, |G.V|, K, colours);
    AddForEach(model, |G.E|, edges);
    AddForEach(model, |G.V|, vertices);
    AddForColours(model, |G.E|, K, bad);
    model.SetObjective((v: Assignment) => Objective(G, v));
    assert forall v, a, k :: colours(v, a, k) <==> ColourDomainAt(G, v, a, k);
    assert forall v, e :: edges(v, e) <==> EdgeDomainAt(G, v, e);
    assert forall v, a :: vertices(v, a) <==> VertexRowAt(G, K, v, a);
    assert forall v, e, k :: bad(v, e, k) <==> EdgeRowAt(G, v, e, k);
    forall v ensures AllRows(G, K, v) <==> Feasible(G, K, v) { RowsByLoops(G, K, v); }
  }
}
