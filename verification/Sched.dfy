/** One-machine weighted completion time: the cutting planes of the heuristic and its schedule evaluation. */
module Scheduling {
  import opened Sums
  import opened Lists
  import opened ListSums

  /** Jobs 1..n with processing times, release times and weights. */
  datatype Instance = Instance(n: nat, p: int -> real, r: int -> real, w: int -> real)

  function Square(p: int -> real): int -> real { j => SquareAt(p, j) }

  function SquareAt(p: int -> real, j: int): real { p(j) * p(j) }

  function Weighted(p: int -> real, C: int -> real): int -> real { j => WeightedAt(p, C, j) }

  function WeightedAt(p: int -> real, C: int -> real, j: int): real { p(j) * C(j) }

  /** Right-hand side of the cut of a list of jobs. */
  function Bound(p: int -> real, S: seq<int>): real {
    RightSide(SumOver(S, Square(p)), SumOver(S, p))
  }

  function RightSide(sumP2: real, sumP: real): real { sumP2 * 0.5 + sumP * sumP * 0.5 }

  predicate CutHolds(p: int -> real, S: seq<int>, C: int -> real) {
    SumOver(S, Weighted(p, C)) >= Bound(p, S)
  }

  /** By how much completion times `C` miss the cut. */
  function Violation(p: int -> real, S: seq<int>, C: int -> real): real {
    Bound(p, S) - SumOver(S, Weighted(p, C))
  }

  // ---------- validity for disjoint intervals ----------

  /** Jobs of S run one at a time, none before time 0; `C` are their completion times. */
  ghost predicate RunsOneAtATime(p: int -> real, S: seq<int>, C: int -> real) {
    && (forall k :: 0 <= k < |S| ==> 0.0 <= p(S[k]) && p(S[k]) <= C(S[k]))
    && (forall a, b :: 0 <= a < b < |S| ==> C(S[a]) <= C(S[b]) - p(S[b]) || C(S[b]) <= C(S[a]) - p(S[a]))
  }

  /** A job that every other one precedes. */
  lemma {:induction false} LastJob(p: int -> real, S: seq<int>, C: int -> real) returns (k: nat)
    requires S != [] && RunsOneAtATime(p, S, C)
    ensures k < |S| && forall a :: 0 <= a < |S| && a != k ==> C(S[a]) <= C(S[k]) - p(S[k])
  {
    if |S| == 1 {
      k := 0;
    } else {
      var m := |S| - 1;
      var front := S[..m];
      assert forall a, b :: 0 <= a < b < m ==> S[a] == front[a] && S[b] == front[b];
      k := LastJob(p, front, C);
      if C(S[k]) <= C(S[m]) - p(S[m]) { k := m; }
    }
  }

  /** `rest` lists the jobs of S other than the one at `k`. */
  ghost predicate Removed(S: seq<int>, k: nat, rest: seq<int>) {
    && k < |S| == |rest| + 1
    && forall a :: 0 <= a < |rest| ==> rest[a] == S[if a < k then a else a + 1]
  }

  /** Removing a job that completes no earlier than all the work could be done does not lower the violation. */
  lemma {:induction false} Remove(p: int -> real, S: seq<int>, C: int -> real, k: nat) returns (rest: seq<int>)
    requires k < |S|
    ensures Removed(S, k, rest)
    ensures SumOver(S, p) == SumOver(rest, p) + p(S[k])
    ensures 0.0 <= p(S[k]) && SumOver(S, p) <= C(S[k]) ==> Violation(p, S, C) <= Violation(p, rest, C)
  {
    rest := RemoveSums(p, S, C, k);
    Contribution(p, S, rest, C, S[k]);
  }

  lemma {:induction false} RemoveSums(p: int -> real, S: seq<int>, C: int -> real, k: nat) returns (rest: seq<int>)
    requires k < |S|
    ensures Removed(S, k, rest)
    ensures SumOver(S, p) == SumOver(rest, p) + p(S[k])
    ensures SumOver(S, Square(p)) == SumOver(rest, Square(p)) + SquareAt(p, S[k])
    ensures SumOver(S, Weighted(p, C)) == SumOver(rest, Weighted(p, C)) + WeightedAt(p, C, S[k])
  {
    rest := Without(S, k);
    SumWithout(S, k, p);
    SumWithout(S, k, Square(p));
    SumWithout(S, k, Weighted(p, C));
  }

  lemma {:induction false} Contribution(p: int -> real, S: seq<int>, rest: seq<int>, C: int -> real, j: int)
    requires SumOver(S, p) == SumOver(rest, p) + p(j)
    requires SumOver(S, Square(p)) == SumOver(rest, Square(p)) + SquareAt(p, j)
    requires SumOver(S, Weighted(p, C)) == SumOver(rest, Weighted(p, C)) + WeightedAt(p, C, j)
    ensures 0.0 <= p(j) && SumOver(S, p) <= C(j) ==> Violation(p, S, C) <= Violation(p, rest, C)
  {
    PointValues(p, C, j);
    LateJobDoesNotRaise(SumOver(rest, p), SumOver(rest, Square(p)), SumOver(rest, Weighted(p, C)), p(j), C(j),
                        SquareAt(p, j), WeightedAt(p, C, j), SumOver(S, p), SumOver(S, Square(p)),
                        SumOver(S, Weighted(p, C)), Violation(p, rest, C), Violation(p, S, C));
  }

  /** The sums of a list with a job that completes no earlier than all the work could be done, against those of the
      list without it. */
  lemma {:induction false} LateJobDoesNotRaise(P: real, Q: real, W: real, p: real, c: real, sq: real, wc: real,
                                               P': real, Q': real, W': real, V: real, V': real)
    requires P' == P + p && Q' == Q + sq && W' == W + wc && sq == p * p && wc == p * c
    requires V == RightSide(Q, P) - W && V' == RightSide(Q', P') - W'
    ensures 0.0 <= p && P' <= c ==> V' <= V
  {
    assert P' * P' == P * P + 2.0 * (p * P) + p * p;
    assert p * P' == p * P + p * p;
    if 0.0 <= p && P' <= c { TimesAtMost(p, P', c); }
  }

  lemma {:induction false} TimesAtMost(p: real, a: real, b: real)
    requires 0.0 <= p && a <= b
    ensures p * a <= p * b
  {
  }

  lemma {:induction false} PointValues(p: int -> real, C: int -> real, j: int)
    ensures SquareAt(p, j) == p(j) * p(j) && WeightedAt(p, C, j) == p(j) * C(j)
  {
  }

  /** Disjoint intervals within [0, T] are together no longer than T, and do not violate the cut of their jobs. */
  lemma {:induction false} DisjointJobsFit(p: int -> real, S: seq<int>, C: int -> real, T: real)
    requires RunsOneAtATime(p, S, C) && 0.0 <= T && forall k :: 0 <= k < |S| ==> C(S[k]) <= T
    ensures Violation(p, S, C) <= 0.0
    ensures SumOver(S, p) <= T
    decreases |S|
  {
    if S != [] {
      var k := LastJob(p, S, C);
      var pk, ck := p(S[k]), C(S[k]);
      var rest := Remove(p, S, C, k);
      DisjointJobsFit(p, rest, C, ck - pk);
    }
  }

  /** Every cut holds for jobs that run one at a time from time 0 on. */
  lemma CutIsValid(p: int -> real, S: seq<int>, C: int -> real)
    requires RunsOneAtATime(p, S, C)
    ensures CutHolds(p, S, C)
  {
    if S != [] {
      var k := LastJob(p, S, C);
      DisjointJobsFit(p, S, C, C(S[k]));
    }
  }

  // ---------- the prefixes of the sorted jobs decide ----------

  function Gain(p: int -> real, C: int -> real, P: real): int -> real { j => GainAt(p, C, P, j) }

  function GainAt(p: int -> real, C: int -> real, P: real, j: int): real {
    SquareAt(p, j) * 0.5 + Scaled(P, p, j) - WeightedAt(p, C, j)
  }

  lemma {:induction false} SumOverGains(list: seq<int>, sq: int -> real, scaled: int -> real, wc: int -> real,
                                        gain: int -> real)
    requires forall j :: gain(j) == sq(j) * 0.5 + scaled(j) - wc(j)
    ensures SumOver(list, gain) == SumOver(list, sq) * 0.5 + SumOver(list, scaled) - SumOver(list, wc)
  {
    if list != [] { SumOverGains(list[..|list| - 1], sq, scaled, wc, gain); }
  }

  lemma {:induction false} SumOfGains(p: int -> real, C: int -> real, P: real, S: seq<int>)
    ensures SumOver(S, Gain(p, C, P)) == SumOver(S, Square(p)) * 0.5 + P * SumOver(S, p) - SumOver(S, Weighted(p, C))
  {
    SumOverScaled(S, P, p);
    SumOverGains(S, Square(p), ScaledBy(P, p), Weighted(p, C), Gain(p, C, P));
  }

  /** The gains count the violation up to a constant, and exactly when their level is the total work. */
  lemma {:induction false} GainsAndViolation(p: int -> real, C: int -> real, P: real, S: seq<int>)
    ensures Violation(p, S, C) >= SumOver(S, Gain(p, C, P)) - P * P * 0.5
    ensures P == SumOver(S, p) ==> Violation(p, S, C) == SumOver(S, Gain(p, C, P)) - P * P * 0.5
  {
    SumOfGains(p, C, P, S);
  }

  /** Adding jobs completed by the total work P of S cannot lower the violation. */
  lemma {:induction false} AddingEarlyJobs(p: int -> real, S: seq<int>, K: seq<int>, C: int -> real)
    requires Distinct(S) && AllIn(S, K) && NonNegativeOn(K, p)
    requires forall k :: 0 <= k < |K| ==> C(K[k]) <= SumOver(S, p)
    ensures Violation(p, S, C) <= Violation(p, K, C)
  {
    var P := SumOver(S, p);
    forall k | 0 <= k < |K| ensures 0.0 <= Gain(p, C, P)(K[k]) {
    }
    SubListSum(S, K, Gain(p, C, P));
    GainsAndViolation(p, C, P, S);
    GainsAndViolation(p, C, P, K);
  }

  ghost predicate InOrder(sol: seq<int>, C: int -> real) {
    forall a, b :: 0 <= a < b < |sol| ==> C(sol[a]) <= C(sol[b])
  }

  /** Some prefix of the sorted list is at least as violated as any other list of its jobs. */
  lemma {:induction false} PrefixIsWorst(p: int -> real, sol: seq<int>, C: int -> real, S: seq<int>) returns (k: nat)
    requires InOrder(sol, C) && NonNegativeOn(sol, p) && Distinct(S) && AllIn(S, sol)
    ensures k <= |sol| && Violation(p, S, C) <= Violation(p, sol[..k], C)
    decreases |S|
  {
    var P := SumOver(S, p);
    if a :| 0 <= a < |S| && C(S[a]) > P {
      var rest := Remove(p, S, C, a);
      k := PrefixIsWorst(p, sol, C, rest);
    } else {
      k := 0;
      while k < |sol| && C(sol[k]) <= P
        invariant k <= |sol| && forall i :: 0 <= i < k ==> C(sol[i]) <= P
      {
        k := k + 1;
      }
      forall a | 0 <= a < |S| ensures S[a] in sol[..k] {
        var i :| 0 <= i < |sol| && sol[i] == S[a];
        assert i < k ==> sol[..k][i] == S[a];
      }
      AddingEarlyJobs(p, S, sol[..k], C);
    }
  }

  /** The scan breaks at `k`: the jobs before it miss their cut, and the next job does not make it worse. */
  predicate Breaks(p: int -> real, sol: seq<int>, C: int -> real, k: int) {
    0 <= k < |sol| && Violation(p, sol[..k], C) > 0.0 && Violation(p, sol[..k + 1], C) <= Violation(p, sol[..k], C)
  }

  lemma {:induction false} NoBreakKeepsGrowing(p: int -> real, sol: seq<int>, C: int -> real, k: nat)
    requires k <= |sol| && Violation(p, sol[..k], C) > 0.0
    requires forall i :: k <= i < |sol| ==> !Breaks(p, sol, C, i)
    ensures Violation(p, sol, C) > 0.0
    decreases |sol| - k
  {
    if k == |sol| {
      assert sol[..k] == sol;
    } else {
      assert !Breaks(p, sol, C, k);
      NoBreakKeepsGrowing(p, sol, C, k + 1);
    }
  }

  /**
   Once the cut of all jobs holds, the scan over the sorted jobs breaks exactly when the cut of
   some list of jobs is violated.
   */
  lemma {:induction false} ScanIsExact(p: int -> real, sol: seq<int>, C: int -> real)
    requires InOrder(sol, C) && NonNegativeOn(sol, p) && Distinct(sol) && CutHolds(p, sol, C)
    ensures (exists k :: Breaks(p, sol, C, k)) <==> (exists S :: Distinct(S) && AllIn(S, sol) && !CutHolds(p, S, C))
  {
    forall k | Breaks(p, sol, C, k) ensures exists S :: Distinct(S) && AllIn(S, sol) && !CutHolds(p, S, C) {
      var S := sol[..k];
      assert Distinct(S) && AllIn(S, sol) && !CutHolds(p, S, C);
    }
    forall S | Distinct(S) && AllIn(S, sol) && !CutHolds(p, S, C) ensures exists k :: Breaks(p, sol, C, k) {
      var k := PrefixIsWorst(p, sol, C, S);
      if forall i :: k <= i < |sol| ==> !Breaks(p, sol, C, i) {
        NoBreakKeepsGrowing(p, sol, C, k);
      }
    }
  }

  /** A scan that finds no break misses violated lists exactly when the cut of all jobs is violated. */
  lemma ScanMissesExactly(p: int -> real, sol: seq<int>, C: int -> real)
    requires InOrder(sol, C) && NonNegativeOn(sol, p) && Distinct(sol) && forall k :: !Breaks(p, sol, C, k)
    ensures (exists S :: Distinct(S) && AllIn(S, sol) && !CutHolds(p, S, C)) <==> !CutHolds(p, sol, C)
  {
    if CutHolds(p, sol, C) { ScanIsExact(p, sol, C); } else { assert AllIn(sol, sol); }
  }

  /** The separation scan: the first break, with the right-hand side of its cut. */
  method Scan(p: int -> real, sol: seq<int>, C: int -> real) returns (S: seq<int>, bound: real)
    ensures S == [] <==> forall k :: !Breaks(p, sol, C, k)
    ensures S != [] ==> |S| < |sol| && S == sol[..|S|] && Breaks(p, sol, C, |S|) && bound == Bound(p, S)
    ensures S != [] ==> forall k :: k < |S| ==> !Breaks(p, sol, C, k)
    ensures Grows(p, sol, C, if S == [] then |sol| else |S|)
    ensures S != [] ==> 0.0 < Violation(p, S, C) && Violation(p, sol[..|S| + 1], C) <= Violation(p, S, C)
    ensures S != [] ==> LargestSoFar(p, sol, C, S)
  {
    S, bound := [], 0.0;
    var done: seq<int> := [];
    var sumP, sumP2, f := 0.0, 0.0, 0.0;
    for k := 0 to |sol|
      invariant S == [] && done == sol[..k]
      invariant sumP == SumOver(done, p) && sumP2 == SumOver(done, Square(p)) && f == Violation(p, done, C)
      invariant forall i :: i < k ==> !Breaks(p, sol, C, i)
      invariant Grows(p, sol, C, k)
    {
      var j := sol[k];
      var pj, C_ := p(j), C(j);
      var delta := pj * pj + ((sumP + pj) * (sumP + pj) - sumP * sumP) - 2.0 * pj * C_;
      assert sol[..k + 1] == sol[..k] + [j];
      ScanStep(p, done, C, j, pj, C_, sumP, delta);
      if f > 0.0 && delta <= 0.0 {
        S, bound := done, RightSide(sumP2, sumP);
        assert Breaks(p, sol, C, k);
        break;
      }
      f := f + delta / 2.0;
      sumP2 := sumP2 + pj * pj;
      sumP := sumP + pj;
      done := done + [j];
    }
    if S != [] { MostViolatedSoFar(p, sol, C, S); }
  }

  lemma {:induction false} MostViolatedSoFar(p: int -> real, sol: seq<int>, C: int -> real, S: seq<int>)
    requires |S| <= |sol| && S == sol[..|S|] && Grows(p, sol, C, |S|) && Violation(p, S, C) > 0.0
    ensures LargestSoFar(p, sol, C, S)
  {
    forall k | 0 <= k < |S| ensures Violation(p, sol[..k], C) < Violation(p, S, C) {
      GrowsFrom(p, sol, C, k, |S|);
    }
  }

  /** No shorter prefix is violated as much. */
  ghost predicate LargestSoFar(p: int -> real, sol: seq<int>, C: int -> real, S: seq<int>) {
    forall k :: 0 <= k < |S| && k < |sol| ==> Violation(p, sol[..k], C) < Violation(p, S, C)
  }

  /** From the first violated prefix on, every job up to `n` makes the violation larger. */
  ghost predicate Grows(p: int -> real, sol: seq<int>, C: int -> real, n: nat) {
    forall k :: 0 <= k < n && k < |sol| && Violation(p, sol[..k], C) > 0.0 ==>
      Violation(p, sol[..k], C) < Violation(p, sol[..k + 1], C)
  }

  lemma {:induction false} GrowsFrom(p: int -> real, sol: seq<int>, C: int -> real, k: nat, n: nat)
    requires Grows(p, sol, C, n) && k < n <= |sol| && Violation(p, sol[..n], C) > 0.0
    ensures Violation(p, sol[..k], C) < Violation(p, sol[..n], C)
    decreases n - k
  {
    if k + 1 < n { GrowsFrom(p, sol, C, k + 1, n); }
  }

  lemma {:induction false} ScanStep(p: int -> real, S: seq<int>, C: int -> real, j: int, pj: real, cj: real,
                                    sumP: real, delta: real)
    requires pj == p(j) && cj == C(j) && sumP == SumOver(S, p)
    requires delta == pj * pj + ((sumP + pj) * (sumP + pj) - sumP * sumP) - 2.0 * pj * cj
    ensures SumOver(S + [j], p) == sumP + pj
    ensures SumOver(S + [j], Square(p)) == SumOver(S, Square(p)) + pj * pj
    ensures Violation(p, S + [j], C) == Violation(p, S, C) + delta / 2.0
  {
    PointValues(p, C, j);
    SumOverAppend(S, j, p);
    SumOverAppend(S, j, Square(p));
    SumOverAppend(S, j, Weighted(p, C));
  }

  // ---------- no cut could ask for more ----------

  /** Jobs that run back to back from time 0 complete when all the work so far is done. */
  ghost predicate BackToBack(p: int -> real, S: seq<int>, C: int -> real) {
    forall k :: 0 <= k < |S| ==> C(S[k]) == SumOver(S[..k + 1], p)
  }

  /** They meet their cut with equality. */
  lemma {:induction false} CutIsTight(p: int -> real, S: seq<int>, C: int -> real)
    requires BackToBack(p, S, C)
    ensures SumOver(S, Weighted(p, C)) == Bound(p, S)
  {
    if S != [] {
      var m := |S| - 1;
      var front, j := S[..m], S[m];
      forall k | 0 <= k < m ensures C(front[k]) == SumOver(front[..k + 1], p) {
        assert front[..k + 1] == S[..k + 1] && C(S[k]) == SumOver(S[..k + 1], p);
      }
      CutIsTight(p, front, C);
      assert S[..m + 1] == S;
      TightStep(SumOver(front, p), SumOver(front, Square(p)), p(j), C(j));
      PointValues(p, C, j);
      PointValues(p, p, j);
    }
  }

  lemma {:induction false} TightStep(P: real, Q: real, pj: real, Cj: real)
    requires Cj == P + pj
    ensures RightSide(Q + pj * pj, P + pj) == RightSide(Q, P) + pj * Cj
  {
    assert (P + pj) * (P + pj) == P * P + 2.0 * (P * pj) + pj * pj;
    assert pj * Cj == P * pj + pj * pj;
  }

  /** And there are such completion times, which run the jobs one at a time. */
  lemma {:induction false} BackToBackRuns(p: int -> real, S: seq<int>)
    requires Distinct(S) && NonNegativeOn(S, p)
    ensures var C := CompletionTimes(Instance(0, p, j => 0.0, j => 0.0), S);
            BackToBack(p, S, C) && RunsOneAtATime(p, S, C)
  {
    var inst := Instance(0, p, j => 0.0, j => 0.0);
    EvaluatedIsSchedule(inst, S);
    forall k | 0 <= k < |S| ensures CompletionTimes(inst, S)(S[k]) == SumOver(S[..k + 1], p) {
      TimesAt(inst, S, k);
      WorkSoFar(inst, S, k + 1);
    }
  }

  lemma {:induction false} WorkSoFar(inst: Instance, S: seq<int>, k: nat)
    requires k <= |S| && NonNegativeOn(S, inst.p) && forall j :: inst.r(j) == 0.0
    ensures Completion(inst, S[..k]) == SumOver(S[..k], inst.p) >= 0.0
  {
    if k > 0 {
      WorkSoFar(inst, S, k - 1);
      assert S[..k][..k - 1] == S[..k - 1];
    }
  }

  // ---------- evaluating an order ----------

  function Later(a: real, b: real): real { if a > b then a else b }

  /** When the machine is free after `order`, each job started as soon as possible. */
  function Completion(inst: Instance, order: seq<int>): real {
    if order == [] then 0.0
    else
      var j := order[|order| - 1];
      Later(inst.r(j), Completion(inst, order[..|order| - 1])) + inst.p(j)
  }

  function TotalCost(inst: Instance, order: seq<int>): real {
    if order == [] then 0.0
    else TotalCost(inst, order[..|order| - 1]) + inst.w(order[|order| - 1]) * Completion(inst, order)
  }

  method Evaluate(inst: Instance, order: seq<int>) returns (C: real, obj: real)
    ensures C == Completion(inst, order) && obj == TotalCost(inst, order)
  {
    C, obj := 0.0, 0.0;
    for k := 0 to |order|
      invariant C == Completion(inst, order[..k]) && obj == TotalCost(inst, order[..k])
    {
      assert order[..k + 1][..k] == order[..k];
      var j := order[k];
      C := Later(inst.r(j), C) + inst.p(j);
      obj := obj + inst.w(j) * C;
    }
    assert order[..|order|] == order;
  }

  /** Completion times of a one-machine schedule that keeps release times. */
  ghost predicate Schedule(inst: Instance, S: seq<int>, C: int -> real) {
    && RunsOneAtATime(inst.p, S, C)
    && forall k :: 0 <= k < |S| ==> inst.r(S[k]) + inst.p(S[k]) <= C(S[k])
  }

  /** The jobs run in the order of the list. */
  ghost predicate RunsInOrder(inst: Instance, order: seq<int>, C: int -> real) {
    && (forall k :: 0 <= k < |order| ==>
       inst.r(order[k]) + inst.p(order[k]) <= C(order[k]) && inst.p(order[k]) <= C(order[k]))
    && (forall a, b :: 0 <= a < b < |order| ==> C(order[a]) <= C(order[b]) - inst.p(order[b]))
  }

  function CostAt(w: int -> real, C: int -> real): int -> real { j => WeightedAt(w, C, j) }

  lemma {:induction false} EvaluatedIsEarliest(inst: Instance, order: seq<int>, C: int -> real, k: nat)
    requires RunsInOrder(inst, order, C) && k < |order|
    ensures Completion(inst, order[..k + 1]) <= C(order[k])
  {
    assert order[..k + 1][..k] == order[..k];
    if k > 0 { EvaluatedIsEarliest(inst, order, C, k - 1); }
  }

  lemma {:induction false} CostAtMost(w: int -> real, C: int -> real, j: int, c: real)
    requires 0.0 <= w(j) && c <= C(j)
    ensures w(j) * c <= WeightedAt(w, C, j)
  {
    PointValues(w, C, j);
  }

  function CompletionOf(inst: Instance, order: seq<int>, j: int): real {
    Completion(inst, order[..if Position(order, j) < |order| then Position(order, j) + 1 else 0])
  }

  function CompletionTimes(inst: Instance, order: seq<int>): int -> real { j => CompletionOf(inst, order, j) }

  lemma {:induction false} TimesAt(inst: Instance, order: seq<int>, k: nat)
    requires Distinct(order) && k < |order|
    ensures CompletionTimes(inst, order)(order[k]) == Completion(inst, order[..k + 1])
    ensures order[..k + 1][..k] == order[..k]
    ensures Completion(inst, order[..k + 1]) == Later(inst.r(order[k]), Completion(inst, order[..k])) + inst.p(order[k])
  {
    assert order[k] in order;
    assert Position(order, order[k]) == k;
  }

  lemma {:induction false} CompletionGrows(inst: Instance, order: seq<int>, a: nat, b: nat)
    requires a <= b <= |order| && NonNegativeOn(order, inst.p)
    ensures 0.0 <= Completion(inst, order[..a]) <= Completion(inst, order[..b])
    decreases b
  {
    if b > 0 {
      assert order[..b][..b - 1] == order[..b - 1];
      if a == b {
        CompletionGrows(inst, order, a - 1, a - 1);
      } else {
        CompletionGrows(inst, order, a, b - 1);
      }
    }
  }

  lemma {:induction false} CostOfNext(inst: Instance, order: seq<int>, k: nat)
    requires Distinct(order) && k < |order|
    ensures TotalCost(inst, order[..k + 1]) == TotalCost(inst, order[..k])
            + WeightedAt(inst.w, CompletionTimes(inst, order), order[k])
  {
    TimesAt(inst, order, k);
    PointValues(inst.w, CompletionTimes(inst, order), order[k]);
  }

  lemma {:induction false} TotalCostIsSum(inst: Instance, order: seq<int>, k: nat)
    requires Distinct(order) && k <= |order|
    ensures TotalCost(inst, order[..k]) == SumOver(order[..k], CostAt(inst.w, CompletionTimes(inst, order)))
  {
    if k > 0 {
      TotalCostIsSum(inst, order, k - 1);
      CostOfNext(inst, order, k - 1);
      assert order[..k][..k - 1] == order[..k - 1];
    }
  }

  /** The evaluated order is a schedule in that order, and the value is its weighted completion time. */
  lemma {:induction false} EvaluatedIsSchedule(inst: Instance, order: seq<int>)
    requires Distinct(order) && NonNegativeOn(order, inst.p)
    ensures RunsInOrder(inst, order, CompletionTimes(inst, order))
    ensures Schedule(inst, order, CompletionTimes(inst, order))
    ensures TotalCost(inst, order) == SumOver(order, CostAt(inst.w, CompletionTimes(inst, order)))
  {
    var C := CompletionTimes(inst, order);
    forall k | 0 <= k < |order|
      ensures inst.r(order[k]) + inst.p(order[k]) <= C(order[k]) && inst.p(order[k]) <= C(order[k])
    {
      TimesAt(inst, order, k);
      CompletionGrows(inst, order, k, k);
    }
    forall a, b | 0 <= a < b < |order| ensures C(order[a]) <= C(order[b]) - inst.p(order[b]) {
      TimesAt(inst, order, a);
      TimesAt(inst, order, b);
      CompletionGrows(inst, order, a + 1, b);
    }
    TotalCostIsSum(inst, order, |order|);
    assert order[..|order|] == order;
  }

  lemma {:induction false} CostsCompare(w: int -> real, E: int -> real, C: int -> real, order: seq<int>)
    requires NonNegativeOn(order, w) && forall k :: 0 <= k < |order| ==> E(order[k]) <= C(order[k])
    ensures SumOver(order, CostAt(w, E)) <= SumOver(order, CostAt(w, C))
  {
    var e, c := CostAt(w, E), CostAt(w, C);
    forall k | 0 <= k < |order| ensures e(order[k]) <= c(order[k]) {
      PointValues(w, E, order[k]);
      CostAtMost(w, C, order[k], E(order[k]));
    }
    SumOverMonotone(order, e, c);
  }

  /** No schedule in the same order finishes a job earlier, or costs less. */
  lemma {:induction false} EvaluatedIsCheapest(inst: Instance, order: seq<int>, C: int -> real)
    requires RunsInOrder(inst, order, C) && Distinct(order) && NonNegativeOn(order, inst.w)
    ensures forall k :: 0 <= k < |order| ==> CompletionTimes(inst, order)(order[k]) <= C(order[k])
    ensures TotalCost(inst, order) <= SumOver(order, CostAt(inst.w, C))
  {
    var E := CompletionTimes(inst, order);
    forall k | 0 <= k < |order| ensures E(order[k]) <= C(order[k]) {
      EvaluatedIsEarliest(inst, order, C, k);
      TimesAt(inst, order, k);
    }
    CostsCompare(inst.w, E, C, order);
    TotalCostIsSum(inst, order, |order|);
    assert order[..|order|] == order;
  }
}
