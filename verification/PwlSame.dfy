/** Each encoding projects to the graph, in both directions. */
module PiecewiseMeaning {
  import opened Sums
  import opened Products
  import opened Gray
  import opened Piecewise
  import opened PiecewiseWeights

  lemma MultSelectionMeansGraph(a: seq<real>, b: seq<real>, X: real, Y: real)
    requires Breakpoints(a, b)
    ensures (exists w, z :: MultSelection(a, b, Aggregated(w, z, X, Y))) <==> OnGraph(a, b, X, Y)
  {
    forall w, z | MultSelection(a, b, Aggregated(w, z, X, Y)) ensures OnGraph(a, b, X, Y) {
      var s := SelectionOnSegment(a, b, Aggregated(w, z, X, Y));
    }
    if OnGraph(a, b, X, Y) {
      var s, r :| 0 <= s < |a| - 1 && AtFraction(a, b, s, r, X, Y);
      SegmentSelected(a, b, s, r, X, Y);
    }
  }

  lemma ConvexCombSosMeansGraph(a: seq<real>, b: seq<real>, X: real, Y: real)
    requires Breakpoints(a, b)
    ensures (exists w, z :: ConvexCombSos(a, b, Aggregated(w, z, X, Y))) <==> OnGraph(a, b, X, Y)
  {
    forall w, z | ConvexCombSos(a, b, Aggregated(w, z, X, Y)) ensures OnGraph(a, b, X, Y) {
      var s := SupportIsPair(w, |a|);
      PairOnSegment(a, b, Aggregated(w, z, X, Y), s);
    }
    if OnGraph(a, b, X, Y) {
      var s, r :| 0 <= s < |a| - 1 && AtFraction(a, b, s, r, X, Y);
      PairCombination(a, b, s, r, One(s), X, Y);
      assert ConvexCombSos(a, b, Aggregated(PairWeights(s, r), One(s), X, Y));
    }
  }

  lemma ConvexCombAggMeansGraph(a: seq<real>, b: seq<real>, X: real, Y: real)
    requires Breakpoints(a, b)
    ensures (exists w, z :: ConvexCombAgg(a, b, Aggregated(w, z, X, Y))) <==> OnGraph(a, b, X, Y)
  {
    forall w, z | ConvexCombAgg(a, b, Aggregated(w, z, X, Y)) ensures OnGraph(a, b, X, Y) {
      var s := AggregatedSupport(a, b, Aggregated(w, z, X, Y));
      PairOnSegment(a, b, Aggregated(w, z, X, Y), s);
    }
    if OnGraph(a, b, X, Y) {
      var s, r :| 0 <= s < |a| - 1 && AtFraction(a, b, s, r, X, Y);
      PairCombination(a, b, s, r, One(s), X, Y);
      SumSingle(One(s), 0, |a| - 1, s);
      var v := Aggregated(PairWeights(s, r), One(s), X, Y);
      var K := |a| - 1;
      forall k | 0 <= k < K + 1 ensures SegmentRow(K, v, k) { }
      assert ConvexCombAgg(a, b, v);
    }
  }

  /** For every digit vector the allowed breakpoints lie in one adjacent pair. */
  lemma AllowedLieInOnePair(G: nat, K: nat, z: int -> real) returns (s: int)
    requires 1 <= K <= Pow2(G) && forall j: nat :: j < G ==> Binary(z(j))
    ensures 0 <= s < K && forall k :: 0 <= k <= K && Allowed(G, z, k) ==> k == s || k == s + 1
  {
    forall k, k' | 0 <= k < k' <= K && Allowed(G, z, k) && Allowed(G, z, k') ensures k' == k + 1 {
      AllowedMeansNeighbour(G, z, k);
      AllowedMeansNeighbour(G, z, k');
      var c := if Spells(G, z, k) then k else k - 1;
      var c' := if Spells(G, z, k') then k' else k' - 1;
      SpellingIsUnique(G, z, c, c');
    }
    if k :| 0 <= k < K && Allowed(G, z, k) {
      s := if k > 0 && Allowed(G, z, k - 1) then k - 1 else k;
    } else {
      s := K - 1;
    }
  }

  /** And every adjacent pair is allowed by the code of its segment. */
  lemma PairIsAllowed(G: nat, s: nat)
    requires s < Pow2(G)
    ensures Allowed(G, GrayDigits(s), s) && Allowed(G, GrayDigits(s), s + 1)
  {
    AllowedMeansNeighbour(G, GrayDigits(s), s);
    AllowedMeansNeighbour(G, GrayDigits(s), s + 1);
    assert Spells(G, GrayDigits(s), s);
  }

  lemma GrayRowsHold(a: seq<real>, b: seq<real>, G: nat, s: nat, r: real, X: real, Y: real)
    requires Breakpoints(a, b) && s < |a| - 1 <= Pow2(G) && AtFraction(a, b, s, r, X, Y)
    ensures ConvexCombAggLog(a, b, G, Aggregated(PairWeights(s, r), GrayDigits(s), X, Y))
  {
    var v, K := Aggregated(PairWeights(s, r), GrayDigits(s), X, Y), |a| - 1;
    PairCombination(a, b, s, r, GrayDigits(s), X, Y);
    PairIsAllowed(G, s);
    forall j | 0 <= j < G ensures Digit(v.z, j) && GrayRows(K, v, j) {
      MaskedRowHolds(v.w, Ones(j), K + 1, v.z(j));
      MaskedRowHolds(v.w, Zeros(j), K + 1, 1.0 - v.z(j));
    }
  }

  lemma ConvexCombAggLogMeansGraph(a: seq<real>, b: seq<real>, G: nat, X: real, Y: real)
    requires Breakpoints(a, b) && |a| - 1 <= Pow2(G)
    ensures (exists w, z :: ConvexCombAggLog(a, b, G, Aggregated(w, z, X, Y))) <==> OnGraph(a, b, X, Y)
  {
    var K := |a| - 1;
    forall w, z | ConvexCombAggLog(a, b, G, Aggregated(w, z, X, Y)) ensures OnGraph(a, b, X, Y) {
      var v := Aggregated(w, z, X, Y);
      forall j: nat | j < G ensures Binary(z(j)) { assert Digit(v.z, j); }
      var s := AllowedLieInOnePair(G, K, z);
      forall k | 0 <= k < |a| && k != s && k != s + 1 ensures w(k) == 0.0 {
        if w(k) != 0.0 { PositiveWeightIsAllowed(a, b, G, v, k); }
      }
      PairOnSegment(a, b, v, s);
    }
    if OnGraph(a, b, X, Y) {
      var s, r :| 0 <= s < |a| - 1 && AtFraction(a, b, s, r, X, Y);
      GrayRowsHold(a, b, G, s, r, X, Y);
    }
  }

  lemma ConvexCombDisMeansGraph(a: seq<real>, b: seq<real>, X: real, Y: real)
    requires Breakpoints(a, b)
    ensures (exists wL, wR, z :: ConvexCombDis(a, b, Disaggregated(wL, wR, z, X, Y))) <==> OnGraph(a, b, X, Y)
  {
    var K := |a| - 1;
    forall wL, wR, z | ConvexCombDis(a, b, Disaggregated(wL, wR, z, X, Y)) ensures OnGraph(a, b, X, Y) {
      var v := Disaggregated(wL, wR, z, X, Y);
      forall k | 0 <= k < K ensures Binary(z(k)) { assert Digit(v.z, k); }
      var s := OneHot(z, K);
      forall k | 0 <= k < K && k != s ensures wL(k) == 0.0 && wR(k) == 0.0 {
        assert EndWeights(v, k) && EndsRow(v, k);
      }
      assert EndsRow(v, s);
      EndsOnSegment(a, b, K, v, s);
    }
    if OnGraph(a, b, X, Y) {
      var s, r :| 0 <= s < K && AtFraction(a, b, s, r, X, Y);
      SegmentEnds(a, b, K, s, r, One(s), X, Y);
      SumSingle(One(s), 0, K, s);
      var v := Disaggregated(At(s, 1.0 - r), At(s, r), One(s), X, Y);
      forall k | 0 <= k < K ensures EndsRow(v, k) { }
      assert ConvexCombDis(a, b, v);
    }
  }

  lemma DigitsPickOneSegment(a: seq<real>, b: seq<real>, G: nat, v: Disaggregated) returns (s: int)
    requires Breakpoints(a, b) && |a| - 1 <= Pow2(G) && ConvexCombDisLog(a, b, G, v)
    ensures 0 <= s < |a| - 1 && EndSum(v, s) == 1.0
    ensures forall k :: 0 <= k < |a| - 1 && k != s ==> v.wL(k) == 0.0 && v.wR(k) == 0.0
  {
    var K := |a| - 1;
    s := PositiveTerm(EndSums(v), 0, K);
    PositiveEndsSpell(a, b, G, v, s);
    forall k | 0 <= k < K && k != s ensures v.wL(k) == 0.0 && v.wR(k) == 0.0 {
      assert EndWeights(v, k);
      if EndSum(v, k) > 0.0 {
        PositiveEndsSpell(a, b, G, v, k);
        BitsDetermine(k, s, G);
      }
    }
    SumSingle(EndSums(v), 0, K, s);
  }

  lemma ConvexCombDisLogMeansGraph(a: seq<real>, b: seq<real>, G: nat, X: real, Y: real)
    requires Breakpoints(a, b) && |a| - 1 <= Pow2(G)
    ensures (exists wL, wR, z :: ConvexCombDisLog(a, b, G, Disaggregated(wL, wR, z, X, Y))) <==> OnGraph(a, b, X, Y)
  {
    forall wL, wR, z | ConvexCombDisLog(a, b, G, Disaggregated(wL, wR, z, X, Y)) ensures OnGraph(a, b, X, Y) {
      var v := Disaggregated(wL, wR, z, X, Y);
      var s := DigitsPickOneSegment(a, b, G, v);
      EndsOnSegment(a, b, Pow2(G), v, s);
    }
    if OnGraph(a, b, X, Y) {
      var s, r :| 0 <= s < |a| - 1 && AtFraction(a, b, s, r, X, Y);
      DigitRowsHold(a, b, G, s, r, X, Y);
    }
  }

  /** All six encodings allow the same pairs (X, Y). */
  lemma AllEncodingsAgree(a: seq<real>, b: seq<real>, G: nat, X: real, Y: real)
    requires Breakpoints(a, b) && |a| - 1 <= Pow2(G)
    ensures var selected := exists w, z :: MultSelection(a, b, Aggregated(w, z, X, Y));
            && (selected <==> exists w, z :: ConvexCombSos(a, b, Aggregated(w, z, X, Y)))
            && (selected <==> exists w, z :: ConvexCombAgg(a, b, Aggregated(w, z, X, Y)))
            && (selected <==> exists w, z :: ConvexCombAggLog(a, b, G, Aggregated(w, z, X, Y)))
            && (selected <==> exists wL, wR, z :: ConvexCombDis(a, b, Disaggregated(wL, wR, z, X, Y)))
            && (selected <==> exists wL, wR, z :: ConvexCombDisLog(a, b, G, Disaggregated(wL, wR, z, X, Y)))
  {
    MultSelectionMeansGraph(a, b, X, Y);
    ConvexCombSosMeansGraph(a, b, X, Y);
    ConvexCombAggMeansGraph(a, b, X, Y);
    ConvexCombAggLogMeansGraph(a, b, G, X, Y);
    ConvexCombDisMeansGraph(a, b, X, Y);
    ConvexCombDisLogMeansGraph(a, b, G, X, Y);
  }
}

/** Weights on breakpoints and segments, and the digits that select them. */
module PiecewiseWeights {
  import opened Sums
  import opened Products
  import opened Gray
  import opened Piecewise

  // ---------- points on a segment ----------

  lemma SegmentWithin(a: seq<real>, b: seq<real>, s: int, r: real, X: real, Y: real)
    requires Breakpoints(a, b) && 0 <= s < |a| - 1 && AtFraction(a, b, s, r, X, Y)
    ensures a[s] <= X <= a[s + 1] && Within(a, X)
  {
    FractionBetween(a[s], a[s + 1], r, X);
    assert a[0] <= a[s] && a[s + 1] <= a[|a| - 1];
  }

  lemma {:induction false} FractionBetween(left: real, right: real, r: real, X: real)
    requires left <= right && 0.0 <= r <= 1.0 && X == (1.0 - r) * left + r * right
    ensures left <= X <= right
  {
    var part := r * (right - left);
    PartOf(right - left, r, part);
    FractionIsPart(left, right, r, part);
    assert X == left + part;
  }

  lemma {:induction false} FractionIsPart(left: real, right: real, r: real, part: real)
    requires part == r * (right - left)
    ensures (1.0 - r) * left + r * right == left + part
  {
  }

  lemma {:induction false} PartOf(width: real, r: real, part: real)
    requires 0.0 <= width && 0.0 <= r <= 1.0 && part == r * width
    ensures 0.0 <= part <= width
  {
    ProductNonneg(r, width);
    ProductNonneg(1.0 - r, width);
    assert (1.0 - r) * width == width - part;
  }

  lemma ScaledOnPair(c: seq<real>, w: int -> real, n: nat, s: int)
    requires n <= |c| && 0 <= s < s + 1 < n
    requires forall k :: 0 <= k < n && k != s && k != s + 1 ==> w(k) == 0.0
    ensures Sum(Scaled(c, w), 0, n) == c[s] * w(s) + c[s + 1] * w(s + 1)
  {
    forall k | 0 <= k < n && k != s && k != s + 1 ensures ScaledTerm(c, w, k) == 0.0 {
      assert c[k] * w(k) == 0.0;
    }
    SumPair(Scaled(c, w), 0, n, s);
  }

  lemma PairSums(c: seq<real>, w: int -> real, n: nat, s: int, r: real)
    requires n <= |c| && 0 <= s < s + 1 < n && w(s) == 1.0 - r && w(s + 1) == r
    requires forall k :: 0 <= k < n && k != s && k != s + 1 ==> w(k) == 0.0
    ensures Sum(Scaled(c, w), 0, n) == (1.0 - r) * c[s] + r * c[s + 1]
  {
    ScaledOnPair(c, w, n, s);
  }

  /** Weights on one adjacent pair put the combination on that segment. */
  lemma PairOnSegment(a: seq<real>, b: seq<real>, v: Aggregated, s: int)
    requires Breakpoints(a, b) && ConvexCombination(a, b, v) && 0 <= s < |a| - 1
    requires forall k :: 0 <= k < |a| && k != s && k != s + 1 ==> v.w(k) == 0.0
    ensures OnSegment(a, b, s, v.X, v.Y)
  {
    var r := v.w(s + 1);
    assert ConvexWeight(v.w, s + 1) && ConvexWeight(v.w, s);
    SumPair(v.w, 0, |a|, s);
    PairSums(a, v.w, |a|, s, r);
    PairSums(b, v.w, |a|, s, r);
    assert AtFraction(a, b, s, r, v.X, v.Y);
  }

  /** The weights of a point on segment `s`. */
  function PairWeights(s: int, r: real): int -> real {
    k => if k == s then 1.0 - r else if k == s + 1 then r else 0.0
  }

  function One(s: int): int -> real {
    k => if k == s then 1.0 else 0.0
  }

  lemma PairCombination(a: seq<real>, b: seq<real>, s: int, r: real, z: int -> real, X: real, Y: real)
    requires Breakpoints(a, b) && 0 <= s < |a| - 1 && AtFraction(a, b, s, r, X, Y)
    ensures ConvexCombination(a, b, Aggregated(PairWeights(s, r), z, X, Y))
  {
    var w := PairWeights(s, r);
    SegmentWithin(a, b, s, r, X, Y);
    SumPair(w, 0, |a|, s);
    PairSums(a, w, |a|, s, r);
    PairSums(b, w, |a|, s, r);
    forall k | 0 <= k < |a| ensures ConvexWeight(w, k) { }
  }

  // ---------- multiple selection ----------

  /** The chosen segment's line, through its two ends. */
  lemma LineThroughEnds(a: seq<real>, b: seq<real>, s: int, X: real)
    requires Breakpoints(a, b) && 0 <= s < |a| - 1 && a[s] <= X <= a[s + 1]
    ensures AtFraction(a, b, s, (X - a[s]) / (a[s + 1] - a[s]), X, Intercept(a, b, s) + Slope(a, b, s) * X)
  {
    var width, rise := a[s + 1] - a[s], b[s + 1] - b[s];
    var r := (X - a[s]) / width;
    assert r * width == X - a[s];
    assert 0.0 <= r <= 1.0;
    assert Slope(a, b, s) * (X - a[s]) == (rise / width) * (r * width) == rise * r;
    assert (1.0 - r) * a[s] + r * a[s + 1] == a[s] + r * width;
    assert (1.0 - r) * b[s] + r * b[s + 1] == b[s] + r * rise;
    assert Intercept(a, b, s) + Slope(a, b, s) * X == b[s] + Slope(a, b, s) * (X - a[s]);
  }

  /** Segments that are not selected contribute nothing. */
  lemma UnselectedVanishes(a: seq<real>, b: seq<real>, v: Aggregated, k: int)
    requires 0 <= k < |a| - 1 && SelectionRow(a, v, k) && v.z(k) == 0.0
    ensures v.w(k) == 0.0 && SelectedHeight(a, b, v, k) == 0.0
  {
    assert a[k] * v.z(k) == 0.0 && a[k + 1] * v.z(k) == 0.0;
  }

  lemma {:induction false} OnlySelectedRemains(a: seq<real>, b: seq<real>, v: Aggregated, K: nat, s: int)
    requires 0 <= s < K == |a| - 1
    requires forall k :: 0 <= k < K ==> SelectionRow(a, v, k)
    requires forall k :: 0 <= k < K && k != s ==> v.z(k) == 0.0
    ensures forall k :: 0 <= k < K && k != s ==> v.w(k) == 0.0 && SelectedHeights(a, b, v)(k) == 0.0
  {
    var heights := SelectedHeights(a, b, v);
    forall k | 0 <= k < K && k != s ensures v.w(k) == 0.0 && heights(k) == 0.0 {
      UnselectedVanishes(a, b, v, k);
    }
  }

  lemma {:induction false} SumsOfSelection(a: seq<real>, b: seq<real>, v: Aggregated, K: nat, s: int)
    requires 0 <= s < K == |a| - 1 && v.z(s) == 1.0
    requires forall k :: 0 <= k < K ==> SelectionRow(a, v, k)
    requires forall k :: 0 <= k < K && k != s ==> v.z(k) == 0.0
    ensures Sum(v.z, 0, K) == 1.0 && Sum(v.w, 0, K) == v.w(s)
    ensures Sum(SelectedHeights(a, b, v), 0, K) == SelectedHeights(a, b, v)(s)
  {
    OnlySelectedRemains(a, b, v, K, s);
    SumSingle(v.z, 0, K, s);
    SumSingle(v.w, 0, K, s);
    SumSingle(SelectedHeights(a, b, v), 0, K, s);
  }

  lemma SelectedSegment(a: seq<real>, b: seq<real>, v: Aggregated) returns (s: int)
    requires Breakpoints(a, b) && MultSelection(a, b, v)
    ensures 0 <= s < |a| - 1 && v.z(s) == 1.0 && forall k :: 0 <= k < |a| - 1 && k != s ==> v.z(k) == 0.0
  {
    forall k | 0 <= k < |a| - 1 ensures Binary(v.z(k)) { assert SelectionRow(a, v, k); }
    s := OneHot(v.z, |a| - 1);
  }

  lemma {:induction false} SelectionOnSegment(a: seq<real>, b: seq<real>, v: Aggregated) returns (s: int)
    requires Breakpoints(a, b) && MultSelection(a, b, v)
    ensures 0 <= s < |a| - 1 && OnSegment(a, b, s, v.X, v.Y)
  {
    s := SelectedSegment(a, b, v);
    SumsOfSelection(a, b, v, |a| - 1, s);
    SelectedPoint(a, b, v, s, v.X, v.Y);
  }

  lemma {:induction false} SelectedPoint(a: seq<real>, b: seq<real>, v: Aggregated, s: int, X: real, Y: real)
    requires Breakpoints(a, b) && 0 <= s < |a| - 1 && SelectionRow(a, v, s) && v.z(s) == 1.0
    requires X == v.w(s) && Y == SelectedHeights(a, b, v)(s)
    ensures OnSegment(a, b, s, X, Y)
  {
    LineOnSegment(a, b, s, X, Y);
  }

  lemma LineOnSegment(a: seq<real>, b: seq<real>, s: int, X: real, Y: real)
    requires Breakpoints(a, b) && 0 <= s < |a| - 1 && a[s] <= X <= a[s + 1]
    requires Y == Intercept(a, b, s) + Slope(a, b, s) * X
    ensures OnSegment(a, b, s, X, Y)
  {
    LineThroughEnds(a, b, s, X);
  }

  lemma {:induction false} SelectionRowHolds(a: seq<real>, v: Aggregated, k: int, s: int, X: real)
    requires 0 <= k < |a| - 1 && 0 <= s < |a| - 1 && a[s] <= X <= a[s + 1]
    requires v.z(k) == (if k == s then 1.0 else 0.0) && v.w(k) == (if k == s then X else 0.0)
    ensures SelectionRow(a, v, k)
  {
  }

  lemma {:induction false} SegmentSelected(a: seq<real>, b: seq<real>, s: int, r: real, X: real, Y: real)
    requires Breakpoints(a, b) && 0 <= s < |a| - 1 && AtFraction(a, b, s, r, X, Y)
    ensures MultSelection(a, b, Aggregated(k => if k == s then X else 0.0, One(s), X, Y))
  {
    var v, K := Aggregated(k => if k == s then X else 0.0, One(s), X, Y), |a| - 1;
    SegmentWithin(a, b, s, r, X, Y);
    forall k | 0 <= k < K ensures SelectionRow(a, v, k) { SelectionRowHolds(a, v, k, s, X); }
    SumsOfSelection(a, b, v, K, s);
    HeightOfPoint(a, b, v, s, r, X, Y);
  }

  lemma {:induction false} HeightOfPoint(a: seq<real>, b: seq<real>, v: Aggregated, s: int, r: real, X: real, Y: real)
    requires Breakpoints(a, b) && 0 <= s < |a| - 1 && AtFraction(a, b, s, r, X, Y) && a[s] <= X <= a[s + 1]
    requires SelectionRow(a, v, s) && v.z(s) == 1.0 && v.w(s) == X
    ensures SelectedHeights(a, b, v)(s) == Y
  {
  }

  // ---------- SOS2 and the aggregated encoding ----------

  /** Weights that sum to one and sit on neighbours only, sit on one adjacent pair. */
  lemma SupportIsPair(w: int -> real, n: nat) returns (s: int)
    requires 2 <= n && Sum(w, 0, n) == 1.0
    requires forall k, k' :: 0 <= k < k' < n && w(k) != 0.0 && w(k') != 0.0 ==> k' == k + 1
    ensures 0 <= s < n - 1 && forall k :: 0 <= k < n && k != s && k != s + 1 ==> w(k) == 0.0
  {
    var i := PositiveTerm(w, 0, n);
    s := if i == n - 1 || (i > 0 && w(i - 1) != 0.0) then i - 1 else i;
  }

  lemma AggregatedSupport(a: seq<real>, b: seq<real>, v: Aggregated) returns (s: int)
    requires Breakpoints(a, b) && ConvexCombAgg(a, b, v)
    ensures 0 <= s < |a| - 1 && forall k :: 0 <= k < |a| && k != s && k != s + 1 ==> v.w(k) == 0.0
  {
    var K := |a| - 1;
    forall k | 0 <= k < K ensures Binary(v.z(k)) { assert Digit(v.z, k); }
    s := OneHot(v.z, K);
    forall k | 0 <= k < |a| && k != s && k != s + 1 ensures v.w(k) == 0.0 {
      assert ConvexWeight(v.w, k) && SegmentRow(K, v, k);
    }
  }

  // ---------- rows over a masked sum ----------

  /** A positive term that a row keeps forces its digit to 1. */
  lemma KeptTermSetsDigit(f: int -> real, keep: int -> bool, n: nat, digit: real, k: int)
    requires forall i :: 0 <= i < n ==> 0.0 <= f(i)
    requires Sum(Masked(f, keep), 0, n) <= digit && Binary(digit) && 0 <= k < n && f(k) > 0.0 && keep(k)
    ensures digit == 1.0
  {
    TermAtMostSum(Masked(f, keep), 0, n, k);
  }

  lemma MaskedRowHolds(f: int -> real, keep: int -> bool, n: nat, digit: real)
    requires forall i :: 0 <= i < n ==> 0.0 <= f(i)
    requires Sum(f, 0, n) == 1.0 && Binary(digit)
    requires forall k :: 0 <= k < n && f(k) > 0.0 && keep(k) ==> digit == 1.0
    ensures Sum(Masked(f, keep), 0, n) <= digit
  {
    if digit == 1.0 {
      SumMonotone(Masked(f, keep), f, 0, n);
    } else {
      SumZero(Masked(f, keep), 0, n);
    }
  }

  // ---------- the Gray code encoding ----------

  /** The rows let breakpoint `k` have positive weight. */
  ghost predicate Allowed(G: nat, z: int -> real, k: int) {
    forall j: nat :: j < G ==> (InOnes(j, k) ==> z(j) == 1.0) && (InZeros(j, k) ==> z(j) == 0.0)
  }

  /** The digits spell the Gray code of `c`. */
  ghost predicate Spells(G: nat, z: int -> real, c: int) {
    0 <= c < Pow2(G) && forall j: nat :: j < G ==> (z(j) == 1.0 <==> Bit(GrayCode(c), j))
  }

  /** Breakpoint `k` is allowed exactly by the code of a segment that it belongs to. */
  lemma AllowedMeansNeighbour(G: nat, z: int -> real, k: nat)
    requires k <= Pow2(G) && forall j: nat :: j < G ==> Binary(z(j))
    ensures Allowed(G, z, k) <==> Spells(G, z, k - 1) || Spells(G, z, k)
  {
    if k == 0 {
      forall j: nat ensures !Bit(GrayCode(0), j) { BitOfZero(j); }
      assert forall j: nat :: InZeros(j, 0);
    } else {
      var f := FlipBit(k - 1);
      forall j: nat ensures Bit(GrayCode(k - 1), j) != Bit(GrayCode(k), j) <==> j == f {
        ConsecutiveCodesDifferOnce(k - 1, j);
      }
      if k == Pow2(G) { FlipBitBelowPower(G); }
      if Allowed(G, z, k) {
        forall j: nat | j < G && j != f ensures z(j) == 1.0 <==> Bit(GrayCode(k), j) {
          assert InOnes(j, k) || InZeros(j, k);
        }
        if f < G && (z(f) == 1.0 <==> Bit(GrayCode(k), f)) {
          assert Spells(G, z, k);
        } else {
          assert Spells(G, z, k - 1);
        }
      }
      if Spells(G, z, k - 1) || Spells(G, z, k) {
        forall j: nat | j < G ensures (InOnes(j, k) ==> z(j) == 1.0) && (InZeros(j, k) ==> z(j) == 0.0) { }
      }
    }
  }

  lemma SpellingIsUnique(G: nat, z: int -> real, c: int, c': int)
    requires Spells(G, z, c) && Spells(G, z, c')
    ensures c == c'
  {
    forall j: nat | j < G ensures Bit(GrayCode(c), j) == Bit(GrayCode(c'), j) {
      assert z(j) == 1.0 <==> Bit(GrayCode(c), j);
      assert z(j) == 1.0 <==> Bit(GrayCode(c'), j);
    }
    GrayDetermines(c, c', G);
  }

  function GrayDigits(s: nat): int -> real {
    j => if 0 <= j && Bit(GrayCode(s), j) then 1.0 else 0.0
  }

  lemma PositiveWeightIsAllowed(a: seq<real>, b: seq<real>, G: nat, v: Aggregated, k: int)
    requires Breakpoints(a, b) && ConvexCombAggLog(a, b, G, v) && 0 <= k < |a| && v.w(k) != 0.0
    ensures Allowed(G, v.z, k)
  {
    var K := |a| - 1;
    forall i | 0 <= i < K + 1 ensures 0.0 <= v.w(i) { assert ConvexWeight(v.w, i); }
    forall j: nat | j < G ensures (InOnes(j, k) ==> v.z(j) == 1.0) && (InZeros(j, k) ==> v.z(j) == 0.0) {
      assert Digit(v.z, j) && GrayRows(K, v, j);
      if InOnes(j, k) { KeptTermSetsDigit(v.w, Ones(j), K + 1, v.z(j), k); }
      if InZeros(j, k) { KeptTermSetsDigit(v.w, Zeros(j), K + 1, 1.0 - v.z(j), k); }
    }
  }

  // ---------- the disaggregated encodings ----------

  lemma EndsOnSegment(a: seq<real>, b: seq<real>, n: int, v: Disaggregated, s: int)
    requires Breakpoints(a, b) && EndCombination(a, b, n, v) && 0 <= s < |a| - 1 <= n && EndSum(v, s) == 1.0
    requires forall k :: 0 <= k < |a| - 1 && k != s ==> v.wL(k) == 0.0 && v.wR(k) == 0.0
    ensures OnSegment(a, b, s, v.X, v.Y)
  {
    var r, K := v.wR(s), |a| - 1;
    assert 0.0 <= r <= 1.0 && v.wL(s) == 1.0 - r by { assert EndWeights(v, s); }
    assert v.X == (1.0 - r) * a[s] + r * a[s + 1] by { EndsAt(a, v, K, s, r); }
    assert v.Y == (1.0 - r) * b[s] + r * b[s + 1] by { EndsAt(b, v, K, s, r); }
    assert AtFraction(a, b, s, r, v.X, v.Y);
  }

  lemma EndsAt(c: seq<real>, v: Disaggregated, K: nat, s: int, r: real)
    requires 0 <= s < K < |c| && v.wL(s) == 1.0 - r && v.wR(s) == r
    requires forall k :: 0 <= k < K && k != s ==> v.wL(k) == 0.0 && v.wR(k) == 0.0
    ensures Sum(Ends(c, v), 0, K) == (1.0 - r) * c[s] + r * c[s + 1]
  {
    forall k | 0 <= k < K && k != s ensures EndsTerm(c, v, k) == 0.0 {
      assert c[k] * v.wL(k) == 0.0 && c[k + 1] * v.wR(k) == 0.0;
    }
    SumSingle(Ends(c, v), 0, K, s);
  }

  function At(s: int, value: real): int -> real {
    k => if k == s then value else 0.0
  }

  lemma SegmentEnds(a: seq<real>, b: seq<real>, n: int, s: int, r: real, z: int -> real, X: real, Y: real)
    requires Breakpoints(a, b) && 0 <= s < |a| - 1 && AtFraction(a, b, s, r, X, Y)
    ensures EndCombination(a, b, n, Disaggregated(At(s, 1.0 - r), At(s, r), z, X, Y))
  {
    var v := Disaggregated(At(s, 1.0 - r), At(s, r), z, X, Y);
    SegmentWithin(a, b, s, r, X, Y);
    EndsAt(a, v, |a| - 1, s, r);
    EndsAt(b, v, |a| - 1, s, r);
    forall k | 0 <= k < n ensures EndWeights(v, k) { }
  }

  /** All digits of a segment with positive weight are the digits of the vector. */
  lemma PositiveEndsSpell(a: seq<real>, b: seq<real>, G: nat, v: Disaggregated, k: nat)
    requires Breakpoints(a, b) && ConvexCombDisLog(a, b, G, v) && k < |a| - 1 <= Pow2(G) && EndSum(v, k) > 0.0
    ensures forall j: nat :: j < G ==> (v.z(j) == 1.0 <==> Bit(k, j))
  {
    var K := |a| - 1;
    forall i | 0 <= i < K ensures 0.0 <= EndSum(v, i) { assert EndWeights(v, i); }
    forall j: nat | j < G ensures v.z(j) == 1.0 <==> Bit(k, j) {
      assert Digit(v.z, j) && DigitRows(K, v, j);
      if Bit(k, j) {
        KeptTermSetsDigit(EndSums(v), WithDigit(j), K, v.z(j), k);
      } else {
        KeptTermSetsDigit(EndSums(v), WithoutDigit(j), K, 1.0 - v.z(j), k);
      }
    }
  }

  function Digits(s: nat): int -> real {
    j => if 0 <= j && Bit(s, j) then 1.0 else 0.0
  }

  lemma DigitRowsHold(a: seq<real>, b: seq<real>, G: nat, s: nat, r: real, X: real, Y: real)
    requires Breakpoints(a, b) && s < |a| - 1 && AtFraction(a, b, s, r, X, Y)
    ensures ConvexCombDisLog(a, b, G, Disaggregated(At(s, 1.0 - r), At(s, r), Digits(s), X, Y))
  {
    var v, K := Disaggregated(At(s, 1.0 - r), At(s, r), Digits(s), X, Y), |a| - 1;
    SegmentEnds(a, b, Pow2(G), s, r, Digits(s), X, Y);
    SumSingle(EndSums(v), 0, K, s);
    forall j | 0 <= j < G ensures Digit(v.z, j) && DigitRows(K, v, j) {
      MaskedRowHolds(EndSums(v), WithDigit(j), K, v.z(j));
      MaskedRowHolds(EndSums(v), WithoutDigit(j), K, 1.0 - v.z(j));
    }
  }
}
