/** Six encodings of one piecewise linear relation between X and Y, all with the same meaning. */
module Piecewise {
  import opened Sums
  import opened Gray

  /** At least one segment, breakpoints strictly increasing, and a height for each of them. */
  predicate Breakpoints(a: seq<real>, b: seq<real>) {
    2 <= |a| <= |b| && forall k, k' :: 0 <= k < k' < |a| ==> a[k] < a[k']
  }

  /** The point lies on segment `s`, at the fraction `r` of the way. */
  predicate AtFraction(a: seq<real>, b: seq<real>, s: int, r: real, X: real, Y: real)
    requires 0 <= s < |a| - 1 && |a| <= |b|
  {
    0.0 <= r <= 1.0 && X == (1.0 - r) * a[s] + r * a[s + 1] && Y == (1.0 - r) * b[s] + r * b[s + 1]
  }

  ghost predicate OnSegment(a: seq<real>, b: seq<real>, s: int, X: real, Y: real)
    requires 0 <= s < |a| - 1 && |a| <= |b|
  {
    exists r :: AtFraction(a, b, s, r, X, Y)
  }

  /** The reference meaning: the union of the segments between neighbouring breakpoints. */
  ghost predicate OnGraph(a: seq<real>, b: seq<real>, X: real, Y: real)
    requires Breakpoints(a, b)
  {
    exists s :: 0 <= s < |a| - 1 && OnSegment(a, b, s, X, Y)
  }

  // ---------- sums that the rows use ----------

  function ScaledTerm(c: seq<real>, w: int -> real, k: int): real {
    if 0 <= k < |c| then c[k] * w(k) else 0.0
  }

  /** `c[k] * w[k]`, term by term. */
  function Scaled(c: seq<real>, w: int -> real): int -> real {
    k => ScaledTerm(c, w, k)
  }

  /** Both ends of segment `k`, weighted. */
  function EndsTerm(c: seq<real>, v: Disaggregated, k: int): real {
    if 0 <= k < |c| - 1 then c[k] * v.wL(k) + c[k + 1] * v.wR(k) else 0.0
  }

  function Ends(c: seq<real>, v: Disaggregated): int -> real {
    k => EndsTerm(c, v, k)
  }

  function EndSum(v: Disaggregated, k: int): real {
    v.wL(k) + v.wR(k)
  }

  function EndSums(v: Disaggregated): int -> real {
    k => EndSum(v, k)
  }

  function Masked(f: int -> real, keep: int -> bool): int -> real {
    k => if keep(k) then f(k) else 0.0
  }

  predicate Within(a: seq<real>, X: real)
    requires |a| > 0
  {
    a[0] <= X <= a[|a| - 1]
  }

  predicate UnitInterval(v: real) { 0.0 <= v <= 1.0 }

  // ---------- the rows of the six encodings ----------

  /** Weights per breakpoint; `z` are segment indicators or Gray code digits where the encoding has them. */
  datatype Aggregated = Aggregated(w: int -> real, z: int -> real, X: real, Y: real)

  /** Weights for the left and the right end of each segment. */
  datatype Disaggregated = Disaggregated(wL: int -> real, wR: int -> real, z: int -> real, X: real, Y: real)

  function Slope(a: seq<real>, b: seq<real>, k: int): real {
    if 0 <= k < |a| - 1 && k + 1 < |b| && a[k] < a[k + 1] then (b[k + 1] - b[k]) / (a[k + 1] - a[k]) else 0.0
  }

  function Intercept(a: seq<real>, b: seq<real>, k: int): real {
    if 0 <= k < |a| && k < |b| then b[k] - Slope(a, b, k) * a[k] else 0.0
  }

  function SelectedHeight(a: seq<real>, b: seq<real>, v: Aggregated, k: int): real {
    Intercept(a, b, k) * v.z(k) + Slope(a, b, k) * v.w(k)
  }

  function SelectedHeights(a: seq<real>, b: seq<real>, v: Aggregated): int -> real {
    k => SelectedHeight(a, b, v, k)
  }

  predicate SelectionRow(a: seq<real>, v: Aggregated, k: int)
    requires 0 <= k < |a| - 1
  {
    Binary(v.z(k)) && a[k] * v.z(k) <= v.w(k) <= a[k + 1] * v.z(k)
  }

  ghost predicate MultSelection(a: seq<real>, b: seq<real>, v: Aggregated)
    requires Breakpoints(a, b)
  {
    var K := |a| - 1;
    && (forall k :: 0 <= k < K ==> SelectionRow(a, v, k))
    && Within(a, v.X)
    && Sum(v.z, 0, K) == 1.0
    && v.X == Sum(v.w, 0, K)
    && v.Y == Sum(SelectedHeights(a, b, v), 0, K)
  }

  predicate ConvexWeight(w: int -> real, k: int) { UnitInterval(w(k)) }

  /** X and Y are one convex combination of all breakpoints. */
  ghost predicate ConvexCombination(a: seq<real>, b: seq<real>, v: Aggregated)
    requires Breakpoints(a, b)
  {
    var K := |a| - 1;
    && (forall k :: 0 <= k < K + 1 ==> ConvexWeight(v.w, k))
    && Within(a, v.X)
    && v.X == Sum(Scaled(a, v.w), 0, K + 1)
    && v.Y == Sum(Scaled(b, v.w), 0, K + 1)
    && Sum(v.w, 0, K + 1) == 1.0
  }

  /** At most two weights are non-zero, and then they are neighbours. */
  predicate Sos2(w: int -> real, n: int) {
    forall i, j | 0 <= i < n && 0 <= j < n :: i < j && w(i) != 0.0 && w(j) != 0.0 ==> j == i + 1
  }

  ghost predicate ConvexCombSos(a: seq<real>, b: seq<real>, v: Aggregated)
    requires Breakpoints(a, b)
  {
    ConvexCombination(a, b, v) && Sos2(v.w, |a|)
  }

  /** The weight of breakpoint `k` needs one of its segments. */
  predicate SegmentRow(K: int, v: Aggregated, k: int) {
    v.w(k) <= (if k == 0 then v.z(0) else if k == K then v.z(K - 1) else v.z(k - 1) + v.z(k))
  }

  predicate Digit(z: int -> real, j: int) { Binary(z(j)) }

  ghost predicate ConvexCombAgg(a: seq<real>, b: seq<real>, v: Aggregated)
    requires Breakpoints(a, b)
  {
    var K := |a| - 1;
    && ConvexCombination(a, b, v)
    && (forall k :: 0 <= k < K ==> Digit(v.z, k))
    && (forall k :: 0 <= k < K + 1 ==> SegmentRow(K, v, k))
    && Sum(v.z, 0, K) == 1.0
  }

  /** Breakpoint `k` lies between two codes that both have digit `j` set. */
  predicate InOnes(j: nat, k: int) {
    1 <= k && Bit(GrayCode(k), j) && Bit(GrayCode(k - 1), j)
  }

  predicate InZeros(j: nat, k: int) {
    k == 0 || (1 <= k && !Bit(GrayCode(k), j) && !Bit(GrayCode(k - 1), j))
  }

  function Ones(j: nat): int -> bool { k => InOnes(j, k) }

  function Zeros(j: nat): int -> bool { k => InZeros(j, k) }

  predicate GrayRows(K: int, v: Aggregated, j: nat) {
    && Sum(Masked(v.w, Ones(j)), 0, K + 1) <= v.z(j)
    && Sum(Masked(v.w, Zeros(j)), 0, K + 1) <= 1.0 - v.z(j)
  }

  /** `G` is the number of digits, enough to number the segments. */
  ghost predicate ConvexCombAggLog(a: seq<real>, b: seq<real>, G: nat, v: Aggregated)
    requires Breakpoints(a, b)
  {
    var K := |a| - 1;
    && ConvexCombination(a, b, v)
    && (forall j :: 0 <= j < G ==> Digit(v.z, j))
    && (forall j :: 0 <= j < G ==> GrayRows(K, v, j))
  }

  predicate EndWeights(v: Disaggregated, k: int) { UnitInterval(v.wL(k)) && UnitInterval(v.wR(k)) }

  /** X and Y are one convex combination of segment ends; `n` pairs of weights are created. */
  ghost predicate EndCombination(a: seq<real>, b: seq<real>, n: int, v: Disaggregated)
    requires Breakpoints(a, b)
  {
    var K := |a| - 1;
    && (forall k :: 0 <= k < n ==> EndWeights(v, k))
    && Within(a, v.X)
    && v.X == Sum(Ends(a, v), 0, K)
    && v.Y == Sum(Ends(b, v), 0, K)
  }

  predicate EndsRow(v: Disaggregated, k: int) { EndSum(v, k) == v.z(k) }

  ghost predicate ConvexCombDis(a: seq<real>, b: seq<real>, v: Disaggregated)
    requires Breakpoints(a, b)
  {
    var K := |a| - 1;
    && EndCombination(a, b, K, v)
    && (forall k :: 0 <= k < K ==> Digit(v.z, k))
    && (forall k :: 0 <= k < K ==> EndsRow(v, k))
    && Sum(v.z, 0, K) == 1.0
  }

  function WithDigit(j: nat): int -> bool { k => 0 <= k && Bit(k, j) }

  function WithoutDigit(j: nat): int -> bool { k => 0 <= k && !Bit(k, j) }

  predicate DigitRows(K: int, v: Disaggregated, j: nat) {
    && Sum(Masked(EndSums(v), WithDigit(j)), 0, K) <= v.z(j)
    && Sum(Masked(EndSums(v), WithoutDigit(j)), 0, K) <= 1.0 - v.z(j)
  }

  /** With a vector of `G` digits there are `2^G` pairs of weights, of which the sums use the first K. */
  ghost predicate ConvexCombDisLog(a: seq<real>, b: seq<real>, G: nat, v: Disaggregated)
    requires Breakpoints(a, b)
  {
    var K := |a| - 1;
    && EndCombination(a, b, Pow2(G), v)
    && Sum(EndSums(v), 0, K) == 1.0
    && (forall j :: 0 <= j < G ==> Digit(v.z, j))
    && (forall j :: 0 <= j < G ==> DigitRows(K, v, j))
  }
}
