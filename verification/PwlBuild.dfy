/** The functions that add a piecewise relation to a model, proved against the predicates of `Piecewise`. */
module PiecewiseBuild {
  import opened Sums
  import opened Gray
  import opened Scip
  import opened Piecewise

  predicate AtLeastLeft(a: seq<real>, v: Aggregated, k: int) { 0 <= k < |a| - 1 ==> v.w(k) >= a[k] * v.z(k) }

  predicate AtMostRight(a: seq<real>, v: Aggregated, k: int) { 0 <= k < |a| - 1 ==> v.w(k) <= a[k + 1] * v.z(k) }

  method AddMultSelection(model: Model<Aggregated>, a: seq<real>, b: seq<real>)
    requires Breakpoints(a, b)
    modifies model
    ensures forall v :: Holds(model.rows, v) <==> old(Holds(model.rows, v)) && MultSelection(a, b, v)
  {
    var K := |a| - 1;
    for k := 0 to K
      invariant forall v :: Holds(model.rows, v) <==>
                  old(Holds(model.rows, v)) && forall i :: 0 <= i < k ==> SelectionRow(a, v, i)
    {
      model.AddCons((v: Aggregated) => Binary(v.z(k)));
      model.AddCons((v: Aggregated) => AtLeastLeft(a, v, k));
      model.AddCons((v: Aggregated) => AtMostRight(a, v, k));
      assert forall v: Aggregated :: SelectionRow(a, v, k) <==>
             Binary(v.z(k)) && AtLeastLeft(a, v, k) && AtMostRight(a, v, k);
    }
    model.AddCons((v: Aggregated) => Within(a, v.X));
    model.AddCons((v: Aggregated) => Sum(v.z, 0, K) == 1.0);
    model.AddCons((v: Aggregated) => v.X == Sum(v.w, 0, K));
    model.AddCons((v: Aggregated) => v.Y == Sum(SelectedHeights(a, b, v), 0, K));
  }

  /** The variables and rows that the three aggregated encodings have in common. */
  method AddConvexCombination(model: Model<Aggregated>, a: seq<real>, b: seq<real>)
    requires Breakpoints(a, b)
    modifies model
    ensures forall v :: Holds(model.rows, v) <==> old(Holds(model.rows, v)) && ConvexCombination(a, b, v)
  {
    var K := |a| - 1;
    for k := 0 to K + 1
      invariant forall v: Aggregated :: Holds(model.rows, v) <==>
                  old(Holds(model.rows, v)) && forall i :: 0 <= i < k ==> ConvexWeight(v.w, i)
    {
      model.AddCons((v: Aggregated) => ConvexWeight(v.w, k));
    }
    model.AddCons((v: Aggregated) => Within(a, v.X));
    model.AddCons((v: Aggregated) => v.X == Sum(Scaled(a, v.w), 0, K + 1));
    model.AddCons((v: Aggregated) => v.Y == Sum(Scaled(b, v.w), 0, K + 1));
    model.AddCons((v: Aggregated) => Sum(v.w, 0, K + 1) == 1.0);
  }

  method AddConvexCombSos(model: Model<Aggregated>, a: seq<real>, b: seq<real>)
    requires Breakpoints(a, b)
    modifies model
    ensures forall v :: Holds(model.rows, v) <==> old(Holds(model.rows, v)) && ConvexCombSos(a, b, v)
  {
    AddConvexCombination(model, a, b);
    model.AddCons((v: Aggregated) => Sos2(v.w, |a|));
  }

  /** The 0/1 variables of the encoding. */
  method AddAggDigits(model: Model<Aggregated>, n: nat)
    modifies model
    ensures forall v: Aggregated :: Holds(model.rows, v) <==>
              old(Holds(model.rows, v)) && forall i :: 0 <= i < n ==> Digit(v.z, i)
  {
    for k := 0 to n
      invariant forall v: Aggregated :: Holds(model.rows, v) <==>
                  old(Holds(model.rows, v)) && forall i :: 0 <= i < k ==> Digit(v.z, i)
    {
      model.AddCons((v: Aggregated) => Digit(v.z, k));
    }
  }

  method AddConvexCombAgg(model: Model<Aggregated>, a: seq<real>, b: seq<real>)
    requires Breakpoints(a, b)
    modifies model
    ensures forall v :: Holds(model.rows, v) <==> old(Holds(model.rows, v)) && ConvexCombAgg(a, b, v)
  {
    var K := |a| - 1;
    AddConvexCombination(model, a, b);
    AddAggDigits(model, K);
    label Indicators:
    model.AddCons((v: Aggregated) => v.w(0) <= v.z(0));
    model.AddCons((v: Aggregated) => v.w(K) <= v.z(K - 1));
    for k := 1 to K
      invariant forall v :: Holds(model.rows, v) <==> old@Indicators(Holds(model.rows, v)) && SegmentsUpTo(K, v, k)
    {
      model.AddCons((v: Aggregated) => v.w(k) <= v.z(k - 1) + v.z(k));
      forall v ensures SegmentsUpTo(K, v, k + 1) <==> SegmentsUpTo(K, v, k) && v.w(k) <= v.z(k - 1) + v.z(k) {
        NextSegment(K, v, k);
      }
    }
    model.AddCons((v: Aggregated) => Sum(v.z, 0, K) == 1.0);
    forall v { AllSegments(K, v); }
  }

  /** The rows of both ends, and of the breakpoints before `n`. */
  ghost predicate SegmentsUpTo(K: int, v: Aggregated, n: int) {
    SegmentRow(K, v, 0) && SegmentRow(K, v, K) && forall k :: 1 <= k < n ==> SegmentRow(K, v, k)
  }

  lemma NextSegment(K: int, v: Aggregated, k: int)
    requires 1 <= k < K
    ensures SegmentsUpTo(K, v, k + 1) <==> SegmentsUpTo(K, v, k) && v.w(k) <= v.z(k - 1) + v.z(k)
  {
    assert SegmentRow(K, v, k) <==> v.w(k) <= v.z(k - 1) + v.z(k);
  }

  lemma AllSegments(K: int, v: Aggregated)
    requires 1 <= K
    ensures SegmentsUpTo(K, v, K) <==> forall k :: 0 <= k < K + 1 ==> SegmentRow(K, v, k)
  {
  }

  /** The breakpoints between codes that agree on digit `j`, split by its value. */
  method SplitByGrayDigit(K: nat, j: nat) returns (zeros: seq<int>, ones: seq<int>)
    ensures forall f :: SumOver(ones, f) == Sum(Masked(f, Ones(j)), 0, K + 1)
    ensures forall f :: SumOver(zeros, f) == Sum(Masked(f, Zeros(j)), 0, K + 1)
  {
    zeros, ones := [0], [];
    forall f ensures SumOver(zeros, f) == Sum(Masked(f, Zeros(j)), 0, 1) {
      SumSingle(Masked(f, Zeros(j)), 0, 1, 0);
    }
    forall f ensures SumOver(ones, f) == Sum(Masked(f, Ones(j)), 0, 1) {
      SumZero(Masked(f, Ones(j)), 0, 1);
    }
    for k := 1 to K + 1
      invariant forall f :: SumOver(ones, f) == Sum(Masked(f, Ones(j)), 0, k)
      invariant forall f :: SumOver(zeros, f) == Sum(Masked(f, Zeros(j)), 0, k)
    {
      ones := AppendIf(ones, Bit(GrayCode(k), j) && Bit(GrayCode(k - 1), j), k, Ones(j));
      zeros := AppendIf(zeros, !Bit(GrayCode(k), j) && !Bit(GrayCode(k - 1), j), k, Zeros(j));
    }
  }

  /** One step of a split: the list keeps summing what the mask keeps. */
  method AppendIf(list: seq<int>, keep: bool, k: nat, ghost mask: int -> bool) returns (list': seq<int>)
    requires keep == mask(k)
    requires forall f :: SumOver(list, f) == Sum(Masked(f, mask), 0, k)
    ensures forall f :: SumOver(list', f) == Sum(Masked(f, mask), 0, k + 1)
  {
    list' := if keep then list + [k] else list;
    forall f ensures SumOver(list', f) == Sum(Masked(f, mask), 0, k + 1) {
      SumOverAppend(list, k, f);
    }
  }

  method AddGrayRows(model: Model<Aggregated>, K: nat, j: nat)
    modifies model
    ensures forall v :: Holds(model.rows, v) <==> old(Holds(model.rows, v)) && GrayRows(K, v, j)
  {
    var zeros, ones := SplitByGrayDigit(K, j);
    model.AddCons((v: Aggregated) => SumOver(ones, v.w) <= v.z(j));
    model.AddCons((v: Aggregated) => SumOver(zeros, v.w) <= 1.0 - v.z(j));
  }

  method AddConvexCombAggLog(model: Model<Aggregated>, a: seq<real>, b: seq<real>, G: nat)
    requires Breakpoints(a, b)
    modifies model
    ensures forall v :: Holds(model.rows, v) <==> old(Holds(model.rows, v)) && ConvexCombAggLog(a, b, G, v)
  {
    var K := |a| - 1;
    AddConvexCombination(model, a, b);
    AddAggDigits(model, G);
    AddAllGrayRows(model, K, G);
  }

  method AddAllGrayRows(model: Model<Aggregated>, K: nat, G: nat)
    modifies model
    ensures forall v :: Holds(model.rows, v) <==>
            old(Holds(model.rows, v)) && forall j :: 0 <= j < G ==> GrayRows(K, v, j)
  {
    for j := 0 to G
      invariant forall v :: Holds(model.rows, v) <==>
                  old(Holds(model.rows, v)) && forall i :: 0 <= i < j ==> GrayRows(K, v, i)
    {
      AddGrayRows(model, K, j);
    }
  }

  /** The variables and rows that the two disaggregated encodings have in common. */
  method AddEndCombination(model: Model<Disaggregated>, a: seq<real>, b: seq<real>, n: nat)
    requires Breakpoints(a, b)
    modifies model
    ensures forall v :: Holds(model.rows, v) <==> old(Holds(model.rows, v)) && EndCombination(a, b, n, v)
  {
    var K := |a| - 1;
    for k := 0 to n
      invariant forall v :: Holds(model.rows, v) <==>
                  old(Holds(model.rows, v)) && forall i :: 0 <= i < k ==> EndWeights(v, i)
    {
      model.AddCons((v: Disaggregated) => EndWeights(v, k));
    }
    model.AddCons((v: Disaggregated) => Within(a, v.X));
    model.AddCons((v: Disaggregated) => v.X == Sum(Ends(a, v), 0, K));
    model.AddCons((v: Disaggregated) => v.Y == Sum(Ends(b, v), 0, K));
  }

  /** The 0/1 variables of the encoding. */
  method AddDisDigits(model: Model<Disaggregated>, n: nat)
    modifies model
    ensures forall v: Disaggregated :: Holds(model.rows, v) <==>
              old(Holds(model.rows, v)) && forall i :: 0 <= i < n ==> Digit(v.z, i)
  {
    for k := 0 to n
      invariant forall v: Disaggregated :: Holds(model.rows, v) <==>
                  old(Holds(model.rows, v)) && forall i :: 0 <= i < k ==> Digit(v.z, i)
    {
      model.AddCons((v: Disaggregated) => Digit(v.z, k));
    }
  }

  method AddConvexCombDis(model: Model<Disaggregated>, a: seq<real>, b: seq<real>)
    requires Breakpoints(a, b)
    modifies model
    ensures forall v :: Holds(model.rows, v) <==> old(Holds(model.rows, v)) && ConvexCombDis(a, b, v)
  {
    var K := |a| - 1;
    AddEndCombination(model, a, b, K);
    AddDisDigits(model, K);
    label Indicators:
    for k := 0 to K
      invariant forall v :: Holds(model.rows, v) <==>
                  old@Indicators(Holds(model.rows, v)) && forall i :: 0 <= i < k ==> EndsRow(v, i)
    {
      model.AddCons((v: Disaggregated) => EndsRow(v, k));
    }
    model.AddCons((v: Disaggregated) => Sum(v.z, 0, K) == 1.0);
  }

  /** The segments split by digit `j` of their number. */
  method SplitByDigit(K: nat, j: nat) returns (zeros: seq<int>, ones: seq<int>)
    ensures forall f :: SumOver(ones, f) == Sum(Masked(f, WithDigit(j)), 0, K)
    ensures forall f :: SumOver(zeros, f) == Sum(Masked(f, WithoutDigit(j)), 0, K)
  {
    zeros, ones := [], [];
    for k := 0 to K
      invariant forall f :: SumOver(ones, f) == Sum(Masked(f, WithDigit(j)), 0, k)
      invariant forall f :: SumOver(zeros, f) == Sum(Masked(f, WithoutDigit(j)), 0, k)
    {
      ones := AppendIf(ones, Bit(k, j), k, WithDigit(j));
      zeros := AppendIf(zeros, !Bit(k, j), k, WithoutDigit(j));
    }
  }

  method AddDigitRows(model: Model<Disaggregated>, K: nat, j: nat)
    modifies model
    ensures forall v :: Holds(model.rows, v) <==> old(Holds(model.rows, v)) && DigitRows(K, v, j)
  {
    var zeros, ones := SplitByDigit(K, j);
    model.AddCons((v: Disaggregated) => SumOver(ones, EndSums(v)) <= v.z(j));
    model.AddCons((v: Disaggregated) => SumOver(zeros, EndSums(v)) <= 1.0 - v.z(j));
  }

  method AddConvexCombDisLog(model: Model<Disaggregated>, a: seq<real>, b: seq<real>, G: nat)
    requires Breakpoints(a, b)
    modifies model
    ensures forall v :: Holds(model.rows, v) <==> old(Holds(model.rows, v)) && ConvexCombDisLog(a, b, G, v)
  {
    var K := |a| - 1;
    AddEndCombination(model, a, b, Pow2(G));
    AddDisDigits(model, G);
    model.AddCons((v: Disaggregated) => Sum(EndSums(v), 0, K) == 1.0);
    label Indicators:
    for j := 0 to G
      invariant forall v :: Holds(model.rows, v) <==>
                  old@Indicators(Holds(model.rows, v)) && forall i :: 0 <= i < j ==> DigitRows(K, v, i)
    {
      AddDigitRows(model, K, j);
    }
  }
}
