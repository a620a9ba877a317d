/** The cutting-plane heuristic for one-machine weighted completion time. */
module SchedulingCut {
  import opened Sums
  import opened Lists
  import opened ListSums
  import opened Scheduling

  function Jobs(n: nat): seq<int> { if n == 0 then [] else Jobs(n - 1) + [n] }

  ghost predicate AmongJobs(n: int, S: seq<int>) { forall k :: 0 <= k < |S| ==> 1 <= S[k] <= n }

  /** A list of every job, once. */
  ghost predicate IsOrder(n: nat, S: seq<int>) {
    |S| == n && Distinct(S) && AmongJobs(n, S) && forall j :: 1 <= j <= n ==> j in S
  }

  ghost predicate WellFormed(inst: Instance) {
    && inst.n >= 1 && inst.p(inst.n) > 0.0
    && forall j :: 1 <= j <= inst.n ==> 0.0 <= inst.p(j) && 0.0 <= inst.r(j) && 0.0 <= inst.w(j)
  }

  // ---------- the relaxation ----------

  /** The row of the model that is named after all jobs: its left-hand side has the last job only. */
  predicate AllJobsRow(inst: Instance, C: int -> real) {
    C(inst.n) * inst.p(inst.n) >= Bound(inst.p, Jobs(inst.n))
  }

  ghost predicate Relaxed(inst: Instance, pool: set<seq<int>>, C: int -> real) {
    && (forall j :: 1 <= j <= inst.n ==> C(j) >= inst.r(j) + inst.p(j))
    && AllJobsRow(inst, C)
    && forall S :: S in pool ==> CutHolds(inst.p, S, C)
  }

  function Cost(inst: Instance, C: int -> real): real { SumOver(Jobs(inst.n), CostAt(inst.w, C)) }

  ghost predicate Cheapest(inst: Instance, pool: set<seq<int>>, C: int -> real) {
    Relaxed(inst, pool, C) && forall D :: Relaxed(inst, pool, D) ==> Cost(inst, C) <= Cost(inst, D)
  }

  ghost predicate IsCut(inst: Instance, S: seq<int>) { Distinct(S) && AmongJobs(inst.n, S) }

  /** The solver returns a cheapest point of every relaxation that the loop can build. */
  ghost predicate SolvesExactly(inst: Instance, optimize: set<seq<int>> -> int -> real) {
    forall pool :: (forall S :: S in pool ==> IsCut(inst, S)) ==> Cheapest(inst, pool, optimize(pool))
  }

  lemma {:induction false} JobsAreAll(n: nat)
    ensures IsOrder(n, Jobs(n))
  {
    if n > 0 {
      JobsAreAll(n - 1);
      assert Jobs(n)[n - 1] == n;
      forall j | 1 <= j <= n ensures j in Jobs(n) {
        assert j < n ==> j in Jobs(n - 1);
      }
    }
  }

  lemma {:induction false} SquaresAtMost(p: int -> real, S: seq<int>)
    requires NonNegativeOn(S, p)
    ensures 0.0 <= SumOver(S, p) && SumOver(S, Square(p)) <= SumOver(S, p) * SumOver(S, p)
  {
    if S != [] {
      var front, j := S[..|S| - 1], S[|S| - 1];
      SquaresAtMost(p, front);
      PointValues(p, p, j);
    }
  }

  /** Completing every job late enough satisfies any cut. */
  lemma {:induction false} LateIsFeasible(p: int -> real, S: seq<int>, M: real)
    requires NonNegativeOn(S, p) && SumOver(S, p) <= M
    ensures CutHolds(p, S, j => M)
  {
    SumOverScaled(S, M, p);
    var C := (j: int) => M;
    var a, b := Weighted(p, C), ScaledBy(M, p);
    forall k | 0 <= k < |S| ensures b(S[k]) <= a(S[k]) { PointValues(p, C, S[k]); }
    SumOverMonotone(S, b, a);
    SquaresAtMost(p, S);
    BoundAtMost(SumOver(S, Square(p)), SumOver(S, p), M);
  }

  lemma {:induction false} BoundAtMost(Q: real, P: real, M: real)
    requires 0.0 <= P <= M && Q <= P * P
    ensures RightSide(Q, P) <= M * P
  {
    assert P * P <= M * P;
  }

  lemma {:induction false} BelowTotal(f: int -> real, n: nat, j: int)
    requires 1 <= j <= n && forall i :: 1 <= i <= n ==> 0.0 <= f(i)
    ensures f(j) <= SumOver(Jobs(n), f)
  {
    JobsAreAll(n);
    SubListSum([j], Jobs(n), f);
    assert [j][..0] == [];
  }

  lemma {:induction false} QuotientTimes(B: real, p: real, M: real)
    requires p > 0.0 && M >= B / p
    ensures M * p >= B
  {
  }

  /** No relaxation that the loop can build is empty, so there is always something for the solver to return. */
  lemma {:induction false} RelaxationsAreFeasible(inst: Instance, pool: set<seq<int>>)
    requires WellFormed(inst) && forall S :: S in pool ==> IsCut(inst, S)
    ensures exists C :: Relaxed(inst, pool, C)
  {
    var J, n := Jobs(inst.n), inst.n;
    JobsAreAll(n);
    SquaresAtMost(inst.p, J);
    var P, R, B := SumOver(J, inst.p), SumOver(J, inst.r), Bound(inst.p, J);
    var M := P + R + Positive(B / inst.p(n));
    BelowTotal(inst.r, n, n);
    QuotientTimes(B, inst.p(n), M);
    var C := (j: int) => M;
    forall j | 1 <= j <= n ensures C(j) >= inst.r(j) + inst.p(j) {
      BelowTotal(inst.r, n, j);
      BelowTotal(inst.p, n, j);
    }
    forall S | S in pool ensures CutHolds(inst.p, S, C) {
      SubListSum(S, J, inst.p);
      LateIsFeasible(inst.p, S, M);
    }
    assert Relaxed(inst, pool, C);
  }

  function Positive(a: real): real { if a > 0.0 then a else 0.0 }

  /** A schedule can miss the row of all jobs, which asks as much of the last job alone as of all together. */
  lemma AllJobsRowCutsOffSchedules()
    ensures exists inst, C :: WellFormed(inst) && Schedule(inst, Jobs(inst.n), C) && !AllJobsRow(inst, C)
  {
    var inst := Instance(2, j => 1.0, j => 0.0, j => 1.0);
    var C := (j: int) => if j == 1 then 1.0 else 2.0;
    TwoUnitJobs(inst, C);
  }

  lemma {:induction false} TwoUnitJobs(inst: Instance, C: int -> real)
    requires inst.n == 2 && inst.p(1) == 1.0 && inst.p(2) == 1.0 && inst.r(1) == 0.0 && inst.r(2) == 0.0
    requires C(1) == 1.0 && C(2) == 2.0
    ensures Schedule(inst, Jobs(inst.n), C) && !AllJobsRow(inst, C)
  {
    UnitBound(inst.p);
  }

  lemma {:induction false} UnitBound(p: int -> real)
    requires p(1) == 1.0 && p(2) == 1.0
    ensures Jobs(2) == [1, 2] && Bound(p, Jobs(2)) == 3.0
  {
    TwoJobs(p);
    TwoJobs(Square(p));
    assert RightSide(2.0, 2.0) == 3.0;
  }

  lemma {:induction false} TwoJobs(f: int -> real)
    ensures Jobs(2) == [1, 2] && SumOver(Jobs(2), f) == f(1) + f(2)
  {
    assert Jobs(1) == [1] && [1, 2][..1] == [1] && [1][..0] == [];
  }

  lemma {:induction false} SameSum(n: nat, sol: seq<int>, f: int -> real)
    requires IsOrder(n, sol) && forall j :: 1 <= j <= n ==> 0.0 <= f(j)
    ensures SumOver(sol, f) == SumOver(Jobs(n), f)
  {
    JobsAreAll(n);
    SubListSum(sol, Jobs(n), f);
    SubListSum(Jobs(n), sol, f);
  }

  /** With that row the cut of all jobs holds, in whatever order they are listed. */
  lemma {:induction false} AllJobsCutHolds(inst: Instance, pool: set<seq<int>>, C: int -> real, sol: seq<int>)
    requires WellFormed(inst) && Relaxed(inst, pool, C) && IsOrder(inst.n, sol)
    ensures CutHolds(inst.p, sol, C)
  {
    SameSum(inst.n, sol, Square(inst.p));
    SameSum(inst.n, sol, inst.p);
    SameSum(inst.n, sol, Weighted(inst.p, C));
    LastTermSuffices(inst, C);
  }

  lemma {:induction false} LastTermSuffices(inst: Instance, C: int -> real)
    requires WellFormed(inst) && AllJobsRow(inst, C) && forall j :: 1 <= j <= inst.n ==> 0.0 <= Weighted(inst.p, C)(j)
    ensures SumOver(Jobs(inst.n), Weighted(inst.p, C)) >= Bound(inst.p, Jobs(inst.n))
  {
    BelowTotal(Weighted(inst.p, C), inst.n, inst.n);
    PointValues(inst.p, C, inst.n);
  }

  /** Any distinct jobs out of a schedule are a schedule of their own. */
  lemma {:induction false} PartIsSchedule(inst: Instance, J: seq<int>, S: seq<int>, C: int -> real)
    requires Schedule(inst, J, C) && Distinct(S) && AllIn(S, J)
    ensures Schedule(inst, S, C)
  {
    forall a, b | 0 <= a < b < |S|
      ensures C(S[a]) <= C(S[b]) - inst.p(S[b]) || C(S[b]) <= C(S[a]) - inst.p(S[a])
    {
      assert S[a] in J && S[b] in J;
      var a' :| 0 <= a' < |J| && J[a'] == S[a];
      var b' :| 0 <= b' < |J| && J[b'] == S[b];
    }
    forall k | 0 <= k < |S| ensures inst.r(S[k]) + inst.p(S[k]) <= C(S[k]) && 0.0 <= inst.p(S[k]) <= C(S[k]) {
      assert S[k] in J;
    }
  }

  /** Every schedule that meets the row of all jobs stays in every relaxation. */
  lemma {:induction false} SchedulesAreRelaxed(inst: Instance, pool: set<seq<int>>, C: int -> real)
    requires Schedule(inst, Jobs(inst.n), C) && AllJobsRow(inst, C)
    requires forall S :: S in pool ==> IsCut(inst, S)
    ensures Relaxed(inst, pool, C)
  {
    JobsAreAll(inst.n);
    var J := Jobs(inst.n);
    forall j | 1 <= j <= inst.n ensures C(j) >= inst.r(j) + inst.p(j) {
      assert j in J;
    }
    forall S | S in pool ensures CutHolds(inst.p, S, C) {
      PartIsSchedule(inst, J, S, C);
      CutIsValid(inst.p, S, C);
    }
  }

  /** The last job first, started at its release time. */
  function LastFirst(n: nat): seq<int>
    requires n >= 1
  {
    [n] + Jobs(n - 1)
  }

  lemma {:induction false} LastFirstIsOrder(n: nat)
    requires n >= 1
    ensures IsOrder(n, LastFirst(n))
  {
    JobsAreAll(n - 1);
    forall j | 1 <= j <= n ensures j in LastFirst(n) {
      assert j < n ==> j in Jobs(n - 1);
      assert LastFirst(n)[0] == n;
    }
  }

  lemma {:induction false} LastFirstTime(inst: Instance)
    requires WellFormed(inst)
    ensures CompletionTimes(inst, LastFirst(inst.n))(inst.n) == inst.r(inst.n) + inst.p(inst.n)
  {
    var order := LastFirst(inst.n);
    LastFirstIsOrder(inst.n);
    TimesAt(inst, order, 0);
    assert order[..0] == [] && order[0] == inst.n;
  }

  lemma {:induction false} LastFirstIsSchedule(inst: Instance)
    requires WellFormed(inst)
    ensures Schedule(inst, Jobs(inst.n), CompletionTimes(inst, LastFirst(inst.n)))
  {
    LastFirstIsOrder(inst.n);
    OrderIsSchedule(inst, LastFirst(inst.n));
  }

  /** The last job, started at its release time, completes late enough for the row of all jobs. */
  predicate EarliestMeetsRow(inst: Instance) {
    (inst.r(inst.n) + inst.p(inst.n)) * inst.p(inst.n) >= Bound(inst.p, Jobs(inst.n))
  }

  lemma {:induction false} LateEnough(inst: Instance, C: int -> real)
    requires WellFormed(inst) && EarliestMeetsRow(inst) && Schedule(inst, Jobs(inst.n), C)
    ensures AllJobsRow(inst, C)
  {
    JobsAreAll(inst.n);
    assert inst.n in Jobs(inst.n);
    TimesAtLeast(inst.p(inst.n), inst.r(inst.n) + inst.p(inst.n), C(inst.n));
  }

  /** The row of all jobs holds for every schedule exactly when it holds for the last job at its earliest. */
  lemma {:induction false} RowHoldsExactly(inst: Instance)
    requires WellFormed(inst)
    ensures (forall C :: Schedule(inst, Jobs(inst.n), C) ==> AllJobsRow(inst, C)) <==> EarliestMeetsRow(inst)
  {
    if EarliestMeetsRow(inst) {
      forall C | Schedule(inst, Jobs(inst.n), C) ensures AllJobsRow(inst, C) { LateEnough(inst, C); }
    } else {
      LastFirstIsSchedule(inst);
      LastFirstMissesRow(inst);
    }
  }

  lemma {:induction false} LastFirstMissesRow(inst: Instance)
    requires WellFormed(inst) && !EarliestMeetsRow(inst)
    ensures !AllJobsRow(inst, CompletionTimes(inst, LastFirst(inst.n)))
  {
    LastFirstTime(inst);
  }

  lemma {:induction false} TimesAtLeast(p: real, a: real, b: real)
    requires 0.0 <= p && a <= b
    ensures a * p <= b * p
  {
  }

  /** So every schedule stays in every relaxation exactly under the same condition on the data. */
  lemma SchedulesStayExactly(inst: Instance, pool: set<seq<int>>)
    requires WellFormed(inst) && forall S :: S in pool ==> IsCut(inst, S)
    ensures (forall C :: Schedule(inst, Jobs(inst.n), C) ==> Relaxed(inst, pool, C)) <==> EarliestMeetsRow(inst)
  {
    RowHoldsExactly(inst);
    forall C | Schedule(inst, Jobs(inst.n), C) && AllJobsRow(inst, C) ensures Relaxed(inst, pool, C) {
      SchedulesAreRelaxed(inst, pool, C);
    }
  }

  // ---------- the relaxation bounds the cost of every order ----------

  /** The objective at the completion times of an order is the value the heuristic gives that order. */
  lemma {:induction false} CostOfOrder(inst: Instance, order: seq<int>)
    requires WellFormed(inst) && IsOrder(inst.n, order)
    ensures Cost(inst, CompletionTimes(inst, order)) == TotalCost(inst, order)
  {
    var costs := CostAt(inst.w, CompletionTimes(inst, order));
    EvaluatedIsSchedule(inst, order);
    JobsAreAll(inst.n);
    SumOverAll(inst.n, order, costs);
    SumOverAll(inst.n, Jobs(inst.n), costs);
  }

  lemma {:induction false} OrderIsSchedule(inst: Instance, order: seq<int>)
    requires WellFormed(inst) && IsOrder(inst.n, order)
    ensures Schedule(inst, Jobs(inst.n), CompletionTimes(inst, order))
  {
    JobsAreAll(inst.n);
    EvaluatedIsSchedule(inst, order);
    PartIsSchedule(inst, order, Jobs(inst.n), CompletionTimes(inst, order));
  }

  /** When the row of all jobs excludes no schedule, a cheapest relaxed point costs no more than any order. */
  lemma {:induction false} RelaxationBounds(inst: Instance, pool: set<seq<int>>, C: int -> real, order: seq<int>)
    requires WellFormed(inst) && EarliestMeetsRow(inst) && IsOrder(inst.n, order)
    requires (forall S :: S in pool ==> IsCut(inst, S)) && Cheapest(inst, pool, C)
    ensures Cost(inst, C) <= TotalCost(inst, order)
  {
    OrderIsSchedule(inst, order);
    LateEnough(inst, CompletionTimes(inst, order));
    SchedulesAreRelaxed(inst, pool, CompletionTimes(inst, order));
    CostOfOrder(inst, order);
  }

  // ---------- finitely many cuts ----------

  /** Lists of at most `l` of the jobs. */
  function JobLists(n: nat, l: nat): set<seq<int>> {
    if l == 0 then {[]} else JobLists(n, l - 1) + set S, j | S in JobLists(n, l - 1) && j in UpTo(n) :: S + [j]
  }

  lemma {:induction false} ListIn(n: nat, l: nat, S: seq<int>)
    requires |S| <= l && AmongJobs(n, S)
    ensures S in JobLists(n, l)
    decreases l
  {
    if l > 0 && |S| < l {
      ListIn(n, l - 1, S);
    } else if l > 0 {
      var front := S[..l - 1];
      ListIn(n, l - 1, front);
      assert S == front + [S[l - 1]];
    }
  }

  // ---------- the loop ----------

  ghost predicate Sorted(sol: seq<int>, C: int -> real) {
    forall a, b :: 0 <= a < b < |sol| ==> C(sol[a]) < C(sol[b]) || (C(sol[a]) == C(sol[b]) && sol[a] < sol[b])
  }

  ghost predicate Inserted(before: seq<int>, k: nat, j: int, sol: seq<int>) {
    && k <= |before| && |sol| == |before| + 1 && sol[k] == j
    && (forall a :: 0 <= a < k ==> sol[a] == before[a])
    && (forall a :: k < a < |sol| ==> sol[a] == before[a - 1])
  }

  lemma {:induction false} InsertedIsOrder(before: seq<int>, k: nat, j: int, sol: seq<int>)
    requires j >= 1 && IsOrder(j - 1, before) && Inserted(before, k, j, sol)
    ensures IsOrder(j, sol)
  {
    forall i | 1 <= i <= j ensures i in sol {
      if i == j {
        assert sol[k] == j;
      } else {
        assert i in before;
        var a :| 0 <= a < |before| && before[a] == i;
        assert sol[if a < k then a else a + 1] == i;
      }
    }
  }

  lemma {:induction false} InsertedIsSorted(C: int -> real, before: seq<int>, k: nat, j: int, sol: seq<int>)
    requires Sorted(before, C) && AmongJobs(j - 1, before) && Inserted(before, k, j, sol)
    requires k > 0 ==> C(before[k - 1]) <= C(j)
    requires forall a :: k <= a < |before| ==> C(before[a]) > C(j)
    ensures Sorted(sol, C)
  {
  }

  /** The jobs by completion time, and by number among equal ones. */
  method SortJobs(n: nat, C: int -> real) returns (sol: seq<int>)
    ensures IsOrder(n, sol) && Sorted(sol, C)
  {
    sol := [];
    for m := 0 to n
      invariant IsOrder(m, sol) && Sorted(sol, C)
    {
      var j := m + 1;
      var k := |sol|;
      while k > 0 && C(sol[k - 1]) > C(j)
        invariant 0 <= k <= |sol| && forall a :: k <= a < |sol| ==> C(sol[a]) > C(j)
      {
        k := k - 1;
      }
      ghost var before := sol;
      sol := sol[..k] + [j] + sol[k..];
      InsertedIsOrder(before, k, j, sol);
      InsertedIsSorted(C, before, k, j, sol);
    }
  }

  ghost predicate EveryCutHolds(inst: Instance, C: int -> real) {
    forall S :: IsCut(inst, S) ==> CutHolds(inst.p, S, C)
  }

  lemma {:induction false} NothingLeftToCut(inst: Instance, pool: set<seq<int>>, C: int -> real, sol: seq<int>)
    requires WellFormed(inst) && Relaxed(inst, pool, C) && IsOrder(inst.n, sol) && Sorted(sol, C)
    requires forall k :: !Breaks(inst.p, sol, C, k)
    ensures EveryCutHolds(inst, C)
  {
    AllJobsCutHolds(inst, pool, C, sol);
    ScanIsExact(inst.p, sol, C);
    forall S | IsCut(inst, S) ensures CutHolds(inst.p, S, C) {
      assert AllIn(S, sol);
    }
  }

  /** A value that no order of jobs by these completion times beats. */
  ghost predicate AsGoodAs(inst: Instance, value: real, C: int -> real) {
    exists sol :: IsOrder(inst.n, sol) && Sorted(sol, C) && value <= TotalCost(inst, sol)
  }

  /** Nor does the order of any of the first `n` rounds. */
  ghost predicate BestOf(inst: Instance, value: real, optimize: set<seq<int>> -> int -> real,
                         rounds: seq<set<seq<int>>>, n: nat)
    requires n <= |rounds|
  {
    forall i :: 0 <= i < n ==> AsGoodAs(inst, value, optimize(rounds[i]))
  }

  /** A value that the order of jobs by these completion times misses. */
  ghost predicate BetterThan(inst: Instance, value: real, C: int -> real) {
    exists sol :: IsOrder(inst.n, sol) && Sorted(sol, C) && value < TotalCost(inst, sol)
  }

  /** The order of round `i`, and the order of every earlier round costs more. */
  ghost predicate FirstAt(inst: Instance, order: seq<int>, value: real, optimize: set<seq<int>> -> int -> real,
                          rounds: seq<set<seq<int>>>, i: nat)
    requires i < |rounds|
  {
    Sorted(order, optimize(rounds[i])) && forall k :: 0 <= k < i ==> BetterThan(inst, value, optimize(rounds[k]))
  }

  /** The order of the first of the first `n` rounds that has this value. */
  ghost predicate OrderOfRound(inst: Instance, order: seq<int>, value: real, optimize: set<seq<int>> -> int -> real,
                               rounds: seq<set<seq<int>>>, n: nat)
    requires n <= |rounds|
  {
    exists i: nat :: i < n && FirstAt(inst, order, value, optimize, rounds, i)
  }

  /** The cuts present at each call of the solver: none at first, and then always more. */
  ghost predicate Rounds(inst: Instance, rounds: seq<set<seq<int>>>) {
    && rounds != [] && rounds[0] == {}
    && (forall i :: 0 <= i < |rounds| - 1 ==> rounds[i] < rounds[i + 1])
    && (forall i :: 0 <= i < |rounds| ==> AllCuts(inst, rounds[i]))
  }

  ghost predicate AllCuts(inst: Instance, pool: set<seq<int>>) { forall S :: S in pool ==> IsCut(inst, S) }

  /** `next` is `rounds` and one more, with the cut of S. */
  ghost predicate Extends(rounds: seq<set<seq<int>>>, S: seq<int>, next: seq<set<seq<int>>>) {
    && rounds != [] && |next| == |rounds| + 1 && next[|rounds|] == rounds[|rounds| - 1] + {S}
    && forall i :: 0 <= i < |rounds| ==> next[i] == rounds[i]
  }

  lemma {:induction false} RoundsGrow(inst: Instance, rounds: seq<set<seq<int>>>, S: seq<int>, next: seq<set<seq<int>>>)
    requires Rounds(inst, rounds) && IsCut(inst, S) && S !in rounds[|rounds| - 1] && Extends(rounds, S, next)
    ensures Rounds(inst, next)
  {
    var last := rounds[|rounds| - 1];
    assert last < last + {S} && AllCuts(inst, last);
  }

  lemma {:induction false} OrderStays(inst: Instance, order: seq<int>, value: real,
                                      optimize: set<seq<int>> -> int -> real,
                                      rounds: seq<set<seq<int>>>, S: seq<int>, next: seq<set<seq<int>>>)
    requires Extends(rounds, S, next) && OrderOfRound(inst, order, value, optimize, rounds, |rounds|)
    ensures OrderOfRound(inst, order, value, optimize, next, |rounds|)
  {
    var i: nat :| i < |rounds| && FirstAt(inst, order, value, optimize, rounds, i);
    assert FirstAt(inst, order, value, optimize, next, i);
  }

  lemma {:induction false} BetterIsBestOf(inst: Instance, value: real, better: real,
                                          optimize: set<seq<int>> -> int -> real,
                                          rounds: seq<set<seq<int>>>, n: nat, sol: seq<int>)
    requires n < |rounds| && BestOf(inst, value, optimize, rounds, n) && better <= value
    requires IsOrder(inst.n, sol) && Sorted(sol, optimize(rounds[n])) && better <= TotalCost(inst, sol)
    ensures BestOf(inst, better, optimize, rounds, n + 1)
  {
    forall i | 0 <= i < n + 1 ensures AsGoodAs(inst, better, optimize(rounds[i])) {
      if i < n { assert AsGoodAs(inst, value, optimize(rounds[i])); }
    }
  }

  /** An order that is strictly better than all before it. */
  lemma {:induction false} NewBest(inst: Instance, value: real, better: real, optimize: set<seq<int>> -> int -> real,
                                   rounds: seq<set<seq<int>>>, n: nat, sol: seq<int>)
    requires n < |rounds| && (n > 0 ==> BestOf(inst, value, optimize, rounds, n) && better < value)
    requires Sorted(sol, optimize(rounds[n]))
    ensures OrderOfRound(inst, sol, better, optimize, rounds, n + 1)
  {
    forall k | 0 <= k < n ensures BetterThan(inst, better, optimize(rounds[k])) {
      assert AsGoodAs(inst, value, optimize(rounds[k]));
    }
    assert FirstAt(inst, sol, better, optimize, rounds, n);
  }

  ghost predicate Evaluated(inst: Instance, order: seq<int>, C: real, obj: real) {
    IsOrder(inst.n, order) && C == Completion(inst, order) && obj == TotalCost(inst, order)
  }

  /** The order of this round replaces the one before it exactly when it is cheaper. */
  ghost predicate Kept(inst: Instance, incumbent: seq<int>, oldC: real, oldobj: real, sol: seq<int>,
                       best: seq<int>, bestC: real, bestobj: real)
  {
    if incumbent == [] || TotalCost(inst, sol) < oldobj then best == sol && Evaluated(inst, sol, bestC, bestobj)
    else best == incumbent && bestC == oldC && bestobj == oldobj
  }

  /** One round: the order of completion is evaluated, kept if it is the best so far, and scanned for a cut. */
  method Round(inst: Instance, C: int -> real, oldC: real, oldobj: real, incumbent: seq<int>)
      returns (bestC: real, bestobj: real, best: seq<int>, S: seq<int>, ghost sol: seq<int>)
    requires incumbent != [] ==> Evaluated(inst, incumbent, oldC, oldobj)
    ensures IsOrder(inst.n, sol) && Sorted(sol, C)
    ensures Kept(inst, incumbent, oldC, oldobj, sol, best, bestC, bestobj)
    ensures Evaluated(inst, best, bestC, bestobj) && (incumbent != [] ==> bestobj <= oldobj)
    ensures S == [] <==> forall k :: !Breaks(inst.p, sol, C, k)
    ensures S != [] ==> |S| < |sol| && S == sol[..|S|] && Breaks(inst.p, sol, C, |S|)
  {
    var order := SortJobs(inst.n, C);
    sol := order;
    var hC, hobj := Evaluate(inst, order);
    bestC, bestobj, best := oldC, oldobj, incumbent;
    if incumbent == [] || hobj < bestobj {
      bestC, bestobj, best := hC, hobj, order;
    }
    var bound;
    S, bound := Scan(inst.p, order, C);
  }

  /** The first `n` rounds are accounted for, and there is at most one more. */
  ghost predicate Progress(inst: Instance, optimize: set<seq<int>> -> int -> real, rounds: seq<set<seq<int>>>, n: nat,
                           best: seq<int>, bestC: real, bestobj: real)
  {
    && Rounds(inst, rounds) && n <= |rounds| <= n + 1 && BestOf(inst, bestobj, optimize, rounds, n)
    && (if n == 0 then best == []
        else Evaluated(inst, best, bestC, bestobj) && OrderOfRound(inst, best, bestobj, optimize, rounds, n))
  }

  lemma {:induction false} RoundDone(inst: Instance, optimize: set<seq<int>> -> int -> real,
                                     rounds: seq<set<seq<int>>>, n: nat, incumbent: seq<int>, oldC: real,
                                     oldobj: real, best: seq<int>, bestC: real, bestobj: real, sol: seq<int>)
    requires n < |rounds| && Progress(inst, optimize, rounds, n, incumbent, oldC, oldobj)
    requires inst.n >= 1 && IsOrder(inst.n, sol) && Sorted(sol, optimize(rounds[n]))
    requires Kept(inst, incumbent, oldC, oldobj, sol, best, bestC, bestobj)
    ensures Progress(inst, optimize, rounds, n + 1, best, bestC, bestobj)
  {
    BetterIsBestOf(inst, if n == 0 then bestobj else oldobj, bestobj, optimize, rounds, n, sol);
    if best == incumbent {
      OrderLasts(inst, best, bestobj, optimize, rounds, n);
    } else {
      NewBest(inst, oldobj, bestobj, optimize, rounds, n, sol);
    }
  }

  lemma {:induction false} OrderLasts(inst: Instance, order: seq<int>, value: real,
                                      optimize: set<seq<int>> -> int -> real, rounds: seq<set<seq<int>>>, n: nat)
    requires n < |rounds| && OrderOfRound(inst, order, value, optimize, rounds, n)
    ensures OrderOfRound(inst, order, value, optimize, rounds, n + 1)
  {
    var i: nat :| i < n && FirstAt(inst, order, value, optimize, rounds, i);
    assert FirstAt(inst, order, value, optimize, rounds, i);
  }

  lemma {:induction false} NextRound(inst: Instance, optimize: set<seq<int>> -> int -> real, rounds: seq<set<seq<int>>>,
                                     S: seq<int>, best: seq<int>, bestC: real, bestobj: real)
      returns (next: seq<set<seq<int>>>)
    requires Progress(inst, optimize, rounds, |rounds|, best, bestC, bestobj)
    requires IsCut(inst, S) && S !in rounds[|rounds| - 1]
    ensures Progress(inst, optimize, next, |rounds|, best, bestC, bestobj)
    ensures Extends(rounds, S, next)
  {
    next := rounds + [rounds[|rounds| - 1] + {S}];
    RoundsGrow(inst, rounds, S, next);
    OrderStays(inst, best, bestobj, optimize, rounds, S, next);
  }

  lemma {:induction false} SolverAnswers(inst: Instance, optimize: set<seq<int>> -> int -> real,
                                         rounds: seq<set<seq<int>>>)
    requires SolvesExactly(inst, optimize) && Rounds(inst, rounds)
    ensures var pool := rounds[|rounds| - 1];
            Cheapest(inst, pool, optimize(pool)) && Relaxed(inst, pool, optimize(pool))
  {
    assert AllCuts(inst, rounds[|rounds| - 1]);
  }

  lemma {:induction false} FoundCutIsNew(inst: Instance, pool: set<seq<int>>, C: int -> real, sol: seq<int>,
                                         S: seq<int>)
    requires Relaxed(inst, pool, C) && IsOrder(inst.n, sol)
    requires |S| < |sol| && S == sol[..|S|] && Breaks(inst.p, sol, C, |S|)
    ensures IsCut(inst, S) && S !in pool && S in JobLists(inst.n, inst.n)
  {
    ListIn(inst.n, inst.n, S);
  }

  /** Solves, evaluates the order of completion, and cuts until the scan finds nothing. */
  method CutLoop(inst: Instance, optimize: set<seq<int>> -> int -> real)
      returns (bestC: real, bestobj: real, best: seq<int>, pool: set<seq<int>>, ghost rounds: seq<set<seq<int>>>)
    requires WellFormed(inst) && SolvesExactly(inst, optimize)
    ensures Progress(inst, optimize, rounds, |rounds|, best, bestC, bestobj) && pool == rounds[|rounds| - 1]
    ensures EveryCutHolds(inst, optimize(pool))
  {
    pool, best, bestC, bestobj := {}, [], 0.0, 0.0;
    rounds := [{}];
    ghost var n := 0;
    while true
      invariant Progress(inst, optimize, rounds, n, best, bestC, bestobj)
      invariant n + 1 == |rounds| && pool == rounds[n]
      decreases JobLists(inst.n, inst.n) - pool
    {
      var C := optimize(pool);
      SolverAnswers(inst, optimize, rounds);
      ghost var before := (best, bestC, bestobj);
      var S;
      ghost var sol;
      bestC, bestobj, best, S, sol := Round(inst, C, bestC, bestobj, best);
      RoundDone(inst, optimize, rounds, n, before.0, before.1, before.2, best, bestC, bestobj, sol);
      if S == [] {
        NothingLeftToCut(inst, pool, C, sol);
        break;
      }
      FoundCutIsNew(inst, pool, C, sol, S);
      rounds := NextRound(inst, optimize, rounds, S, best, bestC, bestobj);
      pool := pool + {S};
      n := n + 1;
    }
  }

  /**
   The solver's last point satisfies the cut of every list of jobs. The returned order is that of the first
   round with the best value.
   */
  method CuttingPlane(inst: Instance, optimize: set<seq<int>> -> int -> real)
      returns (bestC: real, bestobj: real, best: seq<int>, pool: set<seq<int>>, ghost rounds: seq<set<seq<int>>>)
    requires WellFormed(inst) && SolvesExactly(inst, optimize)
    ensures Evaluated(inst, best, bestC, bestobj)
    ensures Rounds(inst, rounds) && pool == rounds[|rounds| - 1]
    ensures BestOf(inst, bestobj, optimize, rounds, |rounds|)
    ensures OrderOfRound(inst, best, bestobj, optimize, rounds, |rounds|)
    ensures Cheapest(inst, pool, optimize(pool))
    ensures EveryCutHolds(inst, optimize(pool))
    ensures EarliestMeetsRow(inst) ==>
              forall order :: IsOrder(inst.n, order) ==> Cost(inst, optimize(pool)) <= TotalCost(inst, order)
  {
    bestC, bestobj, best, pool, rounds := CutLoop(inst, optimize);
    SolverAnswers(inst, optimize, rounds);
    assert AllCuts(inst, pool);
    forall order | EarliestMeetsRow(inst) && IsOrder(inst.n, order)
      ensures Cost(inst, optimize(pool)) <= TotalCost(inst, order)
    {
      RelaxationBounds(inst, pool, optimize(pool), order);
    }
  }
}
