/** The fixed-k colouring model and the bisection on the number of colours. */
module GraphColoring {
  import opened Sums
  import opened Lists
  import opened Options

  /** Vertices without repetition, and edges between them. */
  datatype Graph = Graph(V: seq<int>, E: seq<(int, int)>)

  ghost predicate WellFormed(G: Graph) {
    && (forall a, b :: 0 <= a < b < |G.V| ==> G.V[a] != G.V[b])
    && (forall e :: 0 <= e < |G.E| ==> G.E[e].0 in G.V && G.E[e].1 in G.V)
  }

  ghost predicate LoopFree(G: Graph) {
    forall e :: 0 <= e < |G.E| ==> G.E[e].0 != G.E[e].1
  }

  // ---------- the model for k colours ----------

  datatype Assignment = Assignment(x: (int, int) -> real, z: (int, int) -> real)

  predicate VertexRow(K: nat, v: Assignment, i: int) { Sum(RowOf(v.x, i), 0, K) == 1.0 }

  predicate EdgeRow(v: Assignment, i: int, j: int, k: int) { v.x(i, k) + v.x(j, k) <= 1.0 + v.z(i, j) }

  predicate EdgeDomain(v: Assignment, i: int, j: int) { Binary(v.z(i, j)) }

  ghost predicate Feasible(G: Graph, K: nat, v: Assignment) {
    && (forall i, k :: i in G.V && 0 <= k < K ==> Binary(v.x(i, k)))
    && (forall i :: i in G.V ==> VertexRow(K, v, i))
    && (forall e :: 0 <= e < |G.E| ==> EdgeDomain(v, G.E[e].0, G.E[e].1))
    && (forall e, k :: 0 <= e < |G.E| && 0 <= k < K ==> EdgeRow(v, G.E[e].0, G.E[e].1, k))
  }

  function BadEdge(G: Graph, v: Assignment, e: int): real {
    if 0 <= e < |G.E| then v.z(G.E[e].0, G.E[e].1) else 0.0
  }

  function BadEdges(G: Graph, v: Assignment): int -> real { e => BadEdge(G, v, e) }

  function Objective(G: Graph, v: Assignment): real { Sum(BadEdges(G, v), 0, |G.E|) }

  // ---------- what it decides ----------

  ghost predicate Proper(G: Graph, K: nat, color: int -> int) {
    && (forall i :: i in G.V ==> 0 <= color(i) < K)
    && (forall e :: 0 <= e < |G.E| ==> color(G.E[e].0) != color(G.E[e].1))
  }

  ghost predicate Colourable(G: Graph, K: nat) { exists color :: Proper(G, K, color) }

  ghost predicate Chromatic(G: Graph, n: nat) {
    Colourable(G, n) && forall K: nat :: K < n ==> !Colourable(G, K)
  }

  function Indicator(color: int -> int): (int, int) -> real { (i, k) => if color(i) == k then 1.0 else 0.0 }

  lemma ColouringIsFeasible(G: Graph, K: nat, color: int -> int)
    requires WellFormed(G) && Proper(G, K, color)
    ensures var v := Assignment(Indicator(color), (i, j) => 0.0); Feasible(G, K, v) && Objective(G, v) == 0.0
  {
    var v := Assignment(Indicator(color), (i, j) => 0.0);
    forall i | i in G.V ensures VertexRow(K, v, i) { SumSingle(RowOf(v.x, i), 0, K, color(i)); }
    SumZero(BadEdges(G, v), 0, |G.E|);
  }

  // ---------- what the objective counts ----------

  /** Edge `e` joins two vertices of one colour. */
  function Clash(G: Graph, color: int -> int, e: int): real {
    if 0 <= e < |G.E| && color(G.E[e].0) == color(G.E[e].1) then 1.0 else 0.0
  }

  function Clashes(G: Graph, color: int -> int): int -> real { e => Clash(G, color, e) }

  ghost predicate Coloured(G: Graph, K: nat, v: Assignment, color: int -> int) {
    forall i, k :: i in G.V && 0 <= k < K ==> v.x(i, k) == Indicator(color)(i, k)
  }

  /** The colours, and 1 for the edges that clash. */
  function ClashesMarked(color: int -> int): Assignment {
    Assignment(Indicator(color), (i, j) => if color(i) == color(j) then 1.0 else 0.0)
  }

  /** For given colours the least objective is the number of edges whose ends share a colour. */
  lemma {:induction false} LeastIsClashes(G: Graph, K: nat, color: int -> int)
    requires WellFormed(G) && forall i :: i in G.V ==> 0 <= color(i) < K
    ensures forall v :: Feasible(G, K, v) && Coloured(G, K, v, color) ==>
              Objective(G, v) >= Sum(Clashes(G, color), 0, |G.E|)
    ensures var v := ClashesMarked(color);
            Feasible(G, K, v) && Coloured(G, K, v, color) && Objective(G, v) == Sum(Clashes(G, color), 0, |G.E|)
  {
    var clashes, marked := Clashes(G, color), ClashesMarked(color);
    forall v | Feasible(G, K, v) && Coloured(G, K, v, color) ensures Objective(G, v) >= Sum(clashes, 0, |G.E|) {
      forall e | 0 <= e < |G.E| ensures clashes(e) <= BadEdges(G, v)(e) {
        var (i, j) := G.E[e];
        assert EdgeDomain(v, i, j) && EdgeRow(v, i, j, color(i));
      }
      SumMonotone(clashes, BadEdges(G, v), 0, |G.E|);
    }
    forall i | i in G.V ensures VertexRow(K, marked, i) { SumSingle(RowOf(marked.x, i), 0, K, color(i)); }
    SumCongruent(clashes, BadEdges(G, marked), 0, |G.E|);
  }

  function Marked(G: Graph, v: Assignment, e: int): real {
    if 0 <= e < |G.E| && v.z(G.E[e].0, G.E[e].1) == 1.0 then 1.0 else 0.0
  }

  function MarkedEdges(G: Graph, v: Assignment): int -> real { e => Marked(G, v, e) }

  /** The objective counts the edges that are marked as bad. */
  lemma {:induction false} ObjectiveCountsMarked(G: Graph, K: nat, v: Assignment)
    requires Feasible(G, K, v)
    ensures Objective(G, v) == Sum(MarkedEdges(G, v), 0, |G.E|)
  {
    forall e | 0 <= e < |G.E| ensures MarkedEdges(G, v)(e) == BadEdges(G, v)(e) {
      assert EdgeDomain(v, G.E[e].0, G.E[e].1);
    }
    SumCongruent(MarkedEdges(G, v), BadEdges(G, v), 0, |G.E|);
  }

  lemma ColourExists(G: Graph, K: nat, v: Assignment, i: int) returns (k: int)
    requires Feasible(G, K, v) && i in G.V
    ensures 0 <= k < K && v.x(i, k) == 1.0
  {
    assert VertexRow(K, v, i);
    k := OneHot(RowOf(v.x, i), K);
  }

  /** Below the objective limit no edge is bad, so any choice of set variables is a proper colouring. */
  lemma SetVariablesAreProper(G: Graph, K: nat, v: Assignment, color: int -> int)
    requires WellFormed(G) && Feasible(G, K, v) && Objective(G, v) <= 0.1
    requires forall i :: i in G.V ==> 0 <= color(i) < K && v.x(i, color(i)) > 0.5
    ensures Proper(G, K, color)
  {
    forall e | 0 <= e < |G.E| ensures color(G.E[e].0) != color(G.E[e].1) {
      var (i, j) := G.E[e];
      forall e' | 0 <= e' < |G.E| ensures 0.0 <= BadEdge(G, v, e') { assert EdgeDomain(v, G.E[e'].0, G.E[e'].1); }
      TermAtMostSum(BadEdges(G, v), 0, |G.E|, e);
      assert EdgeDomain(v, i, j) && EdgeRow(v, i, j, color(i));
      assert Binary(v.x(i, color(i))) && Binary(v.x(j, color(j)));
    }
  }

  /** With a limit of 0.1 on the objective, the model for K colours has a solution exactly when K colours suffice. */
  lemma LimitDecidesColourable(G: Graph, K: nat)
    requires WellFormed(G)
    ensures (exists v :: Feasible(G, K, v) && Objective(G, v) <= 0.1) <==> Colourable(G, K)
  {
    forall color | Proper(G, K, color) ensures exists v :: Feasible(G, K, v) && Objective(G, v) <= 0.1 {
      ColouringIsFeasible(G, K, color);
    }
    forall v | Feasible(G, K, v) && Objective(G, v) <= 0.1 ensures Colourable(G, K) {
      var color := ColoursOf(G, K, v);
      SetVariablesAreProper(G, K, v, color);
    }
  }

  ghost function ColoursOf(G: Graph, K: nat, v: Assignment): (color: int -> int)
    requires Feasible(G, K, v)
    ensures forall i :: i in G.V ==> 0 <= color(i) < K && v.x(i, color(i)) > 0.5
  {
    i => if i in G.V then ColourOf(G, K, v, i) else 0
  }

  ghost function ColourOf(G: Graph, K: nat, v: Assignment, i: int): (k: int)
    requires Feasible(G, K, v) && i in G.V
    ensures 0 <= k < K && v.x(i, k) > 0.5
  {
    SomeColour(G, K, v, i);
    var k :| 0 <= k < K && v.x(i, k) > 0.5;
    k
  }

  lemma SomeColour(G: Graph, K: nat, v: Assignment, i: int)
    requires Feasible(G, K, v) && i in G.V
    ensures exists k :: 0 <= k < K && v.x(i, k) > 0.5
  {
    var k := ColourExists(G, K, v, i);
  }

  lemma MoreColours(G: Graph, K: nat, K': nat)
    requires Colourable(G, K) && K <= K'
    ensures Colourable(G, K')
  {
    var color :| Proper(G, K, color);
    assert Proper(G, K', color);
  }

  /** A colour of its own for every vertex. */
  lemma AllDifferent(G: Graph)
    requires WellFormed(G) && LoopFree(G)
    ensures Colourable(G, |G.V|)
  {
    var color := (i: int) => Position(G.V, i);
    forall i | i in G.V ensures 0 <= color(i) < |G.V| && G.V[color(i)] == i { }
    assert Proper(G, |G.V|, color);
  }

  // ---------- the bisection ----------

  /** The solver's answer for K colours under the objective limit: some solution within it, or there is none. */
  ghost predicate SolvesExactly(G: Graph, optimize: nat -> Option<Assignment>) {
    forall K: nat ::
      match optimize(K)
      case Some(v) => Feasible(G, K, v) && Objective(G, v) <= 0.1
      case None => forall v :: Feasible(G, K, v) ==> Objective(G, v) > 0.1
  }

  ghost predicate ProperMap(G: Graph, K: nat, color: map<int, int>) {
    && (forall i :: i in G.V ==> i in color && 0 <= color[i] < K)
    && (forall e :: 0 <= e < |G.E| && G.E[e].0 in color && G.E[e].1 in color ==> color[G.E[e].0] != color[G.E[e].1])
  }

  method ReadColours(G: Graph, K: nat, v: Assignment, color: map<int, int>) returns (color': map<int, int>)
    requires WellFormed(G) && Feasible(G, K, v) && Objective(G, v) <= 0.1
    ensures ProperMap(G, K, color')
  {
    color' := color;
    for n := 0 to |G.V|
      invariant forall a :: 0 <= a < n ==>
                G.V[a] in color' && 0 <= color'[G.V[a]] < K && v.x(G.V[a], color'[G.V[a]]) > 0.5
    {
      var i := G.V[n];
      ghost var some := ColourExists(G, K, v, i);
      var k := 0;
      while k < K && v.x(i, k) <= 0.5
        invariant 0 <= k <= some
        decreases K - k
      {
        k := k + 1;
      }
      color' := color'[i := k];
    }
    var final := color';
    ghost var total := (i: int) => if i in final then final[i] else 0;
    SetVariablesAreProper(G, K, v, total);
    forall e | 0 <= e < |G.E| ensures color'[G.E[e].0] != color'[G.E[e].1] {
      assert total(G.E[e].0) != total(G.E[e].1);
    }
  }

  /** Returns the chromatic number, and below |V| also a proper colouring with that many colours. */
  method SolveGcp(G: Graph, optimize: nat -> Option<Assignment>) returns (UB: nat, color: map<int, int>)
    requires WellFormed(G) && SolvesExactly(G, optimize)
    ensures LoopFree(G) ==> Chromatic(G, UB)
    ensures !LoopFree(G) ==> UB == |G.V|
    ensures UB < |G.V| ==> ProperMap(G, UB, color)
  {
    var LB := 0;
    UB := |G.V|;
    color := map[];
    if LoopFree(G) { AllDifferent(G); }
    if G.V != [] { NoColours(G); }
    while UB - LB > 1
      invariant 0 <= LB <= UB <= |G.V| && (LB == UB ==> G.V == [])
      invariant LoopFree(G) ==> Colourable(G, UB)
      invariant !LoopFree(G) ==> UB == |G.V|
      invariant LB < UB ==> !Colourable(G, LB)
      invariant UB < |G.V| ==> ProperMap(G, UB, color)
      decreases UB - LB
    {
      var K := (UB + LB) / 2;
      LimitDecidesColourable(G, K);
      if !LoopFree(G) { LoopsForbid(G, K); }
      match optimize(K)
      case Some(v) =>
        assert Feasible(G, K, v) && Objective(G, v) <= 0.1;
        color := ReadColours(G, K, v, color);
        UB := K;
      case None =>
        LB := K;
    }
    if LoopFree(G) {
      forall K: nat | K < UB ensures !Colourable(G, K) {
        if Colourable(G, K) { MoreColours(G, K, LB); }
      }
    }
  }

  lemma NoColours(G: Graph)
    requires G.V != []
    ensures !Colourable(G, 0)
  {
    var i := G.V[0];
    forall color ensures !Proper(G, 0, color) { assert i in G.V; }
  }

  lemma LoopsForbid(G: Graph, K: nat)
    requires !LoopFree(G)
    ensures !Colourable(G, K)
  {
  }
}
