# Verified models for symmetry breaking and mixed-integer formulations

This project models, in Dafny 4.11, the formulations and algorithms of the repository that rest on an
argument, and proves that argument.

* **Symmetry breaking that keeps an optimum.** `Mucp*.dfy` model the min-up/min-down unit commitment program
  with its start-up-ready and shut-down-ready inequalities and its activated orbisacks. `Mkp*.dfy` model the
  multiple knapsack program with its sub-symmetry inequalities. Two columns in the same sub-state trade their
  tails: every row and the objective survive, the row-major reading of the 0/1 matrix strictly grows, so finitely
  many trades end in a solution that satisfies every added row. `MucpExact.dfy` and `MkpCaps.dfy` say for exactly
  which minimum times, and for exactly which capacities, the added rows lose nothing.
* **Encodings that mean the same.** `Gray.dfy` and `Pwl*.dfy`: six encodings of a piecewise linear graph.
  `Atsp*.dfy`: four encodings of a Hamiltonian cycle. `Lot.dfy`, `LotSame.dfy` and `LotBuild.dfy`: two encodings
  of a production plan.
* **Loops with a guarantee.** `Bpp.dfy`: first-fit decreasing. `Tsp*.dfy`: subtour elimination. `LotCut*.dfy`:
  separation of the (l,S) inequalities, and what the final relaxation costs. `Sched*.dfy`: the one-machine cutting-plane heuristic. `Pareto.dfy`: the
  incremental Pareto front. `Gcp*.dfy`: bisection on the number of colours.

`Shared.dfy` holds what these share: finite sums, products, spliced columns, the row-major number of a 0/1 matrix,
and the finitely many 0/1 vectors. `Scip.dfy` is the part of a solver model that the builders use. In each group the file
named `...Build` has the methods that write a model, and the others say what its rows mean. Where a file has two
modules, the results come first and what they rest on second.

## How a model is read

A program that the Python code builds is a predicate over the values of its variables: all rows hold
(`Scip.dfy`). The builder methods grow such a `Model` row by row, and each is proved to end with exactly the
predicate that the lemmas speak about, and with the objective they speak about. A dictionary of variables is a
total function of which only the declared keys matter.

`optimize()` is a parameter `optimize` with the contract `SolvesExactly`: for every program that the loop can
build it gives a feasible point of least cost, or says that there is none; for the colouring any point under the
objective limit will do. `LotSizingCut.RelaxationsAreFeasible`
and `SchedulingCut.RelaxationsAreFeasible` show that there is something to return, and
`Tsp.TourSatisfiesModel` does so for the subtour loop. Continuous values are exact reals, and the tolerance
`EPS` is 0.

What the code asks of its callers appears as a precondition: minimum times that fit the horizon, as the
constructor checks, a minimum up-time of at least 1, since otherwise a row reads a variable that does not exist
(a minimum down-time may be 0); strictly increasing breakpoints; non-negative demands; non-negative costs where the
two lot-sizing formulations are compared.

## Where the code does not give what it is for

* **Extreme minimum down-times.** The constructor (`experiments/src/problems/mucp.py:111`) accepts
  `min_downtime == max_time`. Then no down-time row reads `x`, and trading tails can break that row; with
  `min_downtime == 0` it can break a start-up row. `MucpSymmetry.TradesSafeExactlyWhenTradeable` gives the exact
  condition for single trades. The added rows can still be lossless by other trades: whole columns, the last period,
  or a redundant start-up moved to period 1. `MucpLossless.LosslessExactly` settles it for all data, for up-time L,
  down-time l and horizon T. With l at least 1, either family is lossless if and only if l < T or T <= 2L + 2. With
  l = 0, the ready-rows are lossless if and only if L = T, and the orbisacks if and only if L = 1 or T <= 2.
  `LongHorizonLoses`, `FivePeriodsLose`, `LongRunLoses` and `MeetingRunsLose` give inputs whose optimum is cut off.
* **Knapsacks of different capacity.** `add_subsym_ineqs` never looks at capacities.
  `KnapsackCapacities.LosslessExactly` shows that the inequalities are lossless for every list of items if and only
  if all positive capacities are equal and come before the zero ones, or some capacity is negative, when there is no
  packing at all.
* **The row `AllJobs`.** `pyscipopt/examples/unfinished/scheduling.py:161` uses the job index left over from the
  loop before it, so its left-hand side has the last job only. `SchedulingCut.RowHoldsExactly` shows that every
  schedule meets it if and only if the last job does when it starts at its release time, and
  `AllJobsRowCutsOffSchedules` gives an instance where not. The row does imply the cut of all jobs. That matters:
  by `Scheduling.ScanMissesExactly` a scan without a break misses a violated list if and only if the cut of all jobs
  is violated.
* **Fractional set-ups.** The text above `sils_cut` (`pyscipopt/examples/unfinished/lotsizing_cut.py:45-48`) says that
  cuts are added until no set-up is fractional; the loop stops when no inequality is violated. Its final point costs
  what the integer optimum costs, but ties can leave a fraction: `LotSizingTies.HalfASetUpRemains` is an example.
  `NeverFractionalExactly` shows that no cheapest point has a fractional set-up if and only if all cheapest integer
  points make the same set-ups.
* **Loops in a graph.** With an edge from a vertex to itself no number of colours suffices, and the bisection
  returns `|V|`; without one it returns the chromatic number.

## Model

| member | source | states |
|---|---|---|
| MucpBuild.MucpBasicModel.Create | experiments/src/problems/mucp.py:105-116 | A model is made exactly when no minimum up-time or down-time exceeds the horizon |
| MucpBuild.MucpBasicModel.NumberedUnits | experiments/src/problems/mucp.py:122-128 | The generator numbers the units from 1, group by group |
| MucpBuild.MucpBasicModel.Build | experiments/src/problems/mucp.py:130-206 | The rows hold exactly for feasible schedules, and the objective is their cost |
| MucpBuild.MucpBasicModel.AddFamilies | experiments/src/problems/mucp.py:137-156 | The three variable families bring their domains, and together the whole objective |
| MucpBuild.AddUnitRows | experiments/src/problems/mucp.py:158-193 | One pass of the loop over units adds the up-time, down-time, start-up and production rows of that unit and no others |
| MucpMeaning.CostUnitByUnit | experiments/src/problems/mucp.py:137-156 | The objective is, over all units, the fixed cost times periods up, the start-up cost times start-ups and the production cost times total production |
| MucpMeaning.ProductionExtends | experiments/src/problems/mucp.py:183-201 | On/off curves have productions that make them feasible if and only if in every period the units that are up have a range to produce in and their maxima together cover the demand |
| MucpBuild.MucpBasicModel.NextIndices | experiments/src/problems/mucp.py:247-248 | Slicing the shared generator yields the consecutive indices of each group in turn |
| MucpBuild.MucpBasicModel.AddStartUpShutDownIneqs | experiments/src/problems/mucp.py:241-270 | Exactly the inequalities asked for are added, for every period and every neighbouring pair of identical units |
| MucpBuild.MucpBasicModel.AddStartUpShutDownOrbisackActivation | experiments/src/problems/mucp.py:272-317 | Exactly the orbisacks on the tails are added, each active when its listed window is fixed |
| MucpColumn.NoStartNoRise | experiments/src/problems/mucp.py:175-181 | A unit that is down stays down until a start-up is signalled |
| MucpColumn.StartStaysUp | experiments/src/problems/mucp.py:159-165 | After a start-up the unit is up for the whole minimum up-time, or to the horizon |
| MucpColumn.CurveExtends | experiments/src/problems/mucp.py:158-181 | A 0/1 curve has start-ups that satisfy the rows if and only if its up-runs last long enough and its inner down-runs do |
| MucpColumn.SpliceStartReady | experiments/src/problems/mucp.py:158-181 | Two curves that were both down for the whole down-time window can trade tails within the rows |
| MucpColumn.SpliceShutReady | experiments/src/problems/mucp.py:158-181 | Likewise when both were up for the whole up-time window |
| MucpSymmetry.SwapKeepsFeasibilityAndCost | experiments/src/problems/mucp.py:158-201 | Identical units in the same sub-state can trade the tails of x, u and p: every row and the cost survive |
| MucpSymmetry.TradesSafeExactlyWhenTradeable | experiments/src/problems/mucp.py:108-112 | All tail trades between units in the same sub-state keep the rows if and only if the down-time is positive and shorter than the horizon, or the up-time fills the horizon and the down-time is positive, or there is one period |
| MucpSymmetry.StartUpViolation | experiments/src/problems/mucp.py:254-260 | A violated start-up-ready row means that both units were down throughout the window, and only the second one starts |
| MucpSymmetry.StartUpRowForbids | experiments/src/problems/mucp.py:254-260 | And the row forbids exactly that: it fails if and only if both units were down throughout the window, the first stays down and the second starts |
| MucpSymmetry.ShutDownViolation | experiments/src/problems/mucp.py:263-269 | A violated shut-down-ready row means that both units were up throughout the window, and only the first one stops |
| MucpSymmetry.ShutDownRowForbids | experiments/src/problems/mucp.py:262-269 | The shut-down-ready row fails if and only if the first unit stops while the second is up, without a start, from the beginning of the window through t |
| MucpSymmetry.ShutDownRowForbidsOneStop | experiments/src/problems/mucp.py:262-269 | Without redundant start-ups: if and only if both were up throughout the window, and only the first stops |
| MucpSymmetry.ReadyRowsForbid | experiments/src/problems/mucp.py:241-270 | A feasible schedule satisfies all rows of a kind if and only if no neighbours of one group start, or stop, out of turn in any period |
| MucpSymmetry.OrbisacksForbid | experiments/src/problems/mucp.py:272-315 | A feasible schedule satisfies all activated orbisacks if and only if no neighbours in a common sub-state first differ, from there on, in a period where only the first is up |
| MucpSymmetry.TradeKeeps | experiments/src/problems/mucp.py:247-253 | For a down-time shorter than the horizon, a trade between neighbours of one group in the same sub-state leads to a feasible schedule of equal cost |
| MucpSymmetry.ColumnTradeKeeps | experiments/src/problems/mucp.py:247-253 | Neighbours can always trade their whole columns |
| MucpSymmetry.StartFirstKeeps | experiments/src/problems/mucp.py:168-173 | When the down-time fills the horizon, a start-up signalled while the unit is up can be signalled in period 1 instead: every row and the cost survive |
| MucpSymmetry.WholeHorizonRepair | experiments/src/problems/mucp.py:168-173 | With such a down-time and a horizon of at most 2L + 2, the whole columns or their last periods can be traded so that the reading grows |
| MucpSymmetry.SortedRepair | experiments/src/problems/mucp.py:168-173 | Without a down-time, and with an up-time of 1 or two periods, a period where only the first of two neighbours is up allows a trade that makes the reading grow |
| MucpSymmetry.ReadyRowTrade | experiments/src/problems/mucp.py:254-269 | A violated ready-row allows a trade that keeps feasibility and cost, and strictly increases the bounded row-major number of x or keeps it with fewer redundant start-ups |
| MucpSymmetry.OrbisackTrade | experiments/src/problems/mucp.py:287-314 | A violated orbisack does the same for the number of x read with units reversed |
| MucpSymmetry.ReadyRowsLoseNothing | experiments/src/problems/mucp.py:241-270 | For minimum times that are lossless for ready-rows, finitely many admissible trades, each to a feasible schedule of equal cost, lead from every feasible schedule to one that satisfies all ready-rows of both kinds |
| MucpSymmetry.OrbisacksLoseNothing | experiments/src/problems/mucp.py:272-315 | The same for all activated orbisacks at once, for minimum times that are lossless for orbisacks |
| MucpSymmetry.OptimumSurvives | experiments/src/problems/mucp.py:241-315 | With such times, a schedule that is cheapest under either family of added rows is cheapest without them |
| MucpLossless.LosslessExactly | experiments/src/problems/mucp.py:108-112 | For every up-time from 1 and every down-time from 0 to the horizon, either family loses nothing, whatever the demand, costs and number of units, if and only if `LosslessTimes` holds of the three numbers |
| MucpLossless.LongHorizonLoses | experiments/src/problems/mucp.py:254-314 | When the down-time fills a horizon longer than 2L + 2, two units with one break each are cheaper than every schedule that meets the rows |
| MucpLossless.FivePeriodsLose | experiments/src/problems/mucp.py:254-314 | The smallest case: five periods, an up-time of 1, cost 8.0 without the rows and more with them |
| MucpLossless.LongRunLoses | experiments/src/problems/mucp.py:262-269 | Without a down-time and with an up-time below the horizon, the shut-down-ready rows forbid the cheapest schedules of two units that start at both ends of a run |
| MucpLossless.MeetingRunsLose | experiments/src/problems/mucp.py:286-299 | Without a down-time, with an up-time of at least 2 and three periods or more, the orbisacks forbid the cheapest schedules of two units whose runs meet in one period |
| RowMajor.FirstDifferenceDecides | experiments/src/problems/mucp.py:244-253 | The measure: turning the first differing cell from 0 to 1 increases the row-major number, whatever follows |
| KnapsackBuild.MultipleKnapsackModel.ItemList | experiments/src/problems/multipleknapsack.py:40-44 | The generator repeats every unique item as often as its multiplicity |
| KnapsackBuild.MultipleKnapsackModel.Build | experiments/src/problems/multipleknapsack.py:53-80 | The rows hold exactly for feasible packings, and the objective is their profit |
| MultipleKnapsack.ProfitIsOfPackedItems | experiments/src/problems/multipleknapsack.py:65-73 | The objective of a feasible packing is the sum of the profits of the items that lie in some knapsack, each counted once |
| KnapsackBuild.MultipleKnapsackModel.KnapsackPairs | experiments/src/problems/multipleknapsack.py:129-133 | The pairs are the consecutive ones, or all ordered ones |
| KnapsackBuild.MultipleKnapsackModel.AddSubsymIneqs | experiments/src/problems/multipleknapsack.py:128-160 | With W kept as the weight of all earlier items, exactly the big-M rows of every item and pair are added |
| KnapsackBuild.MultipleKnapsackModel.AddSubsymIneqsGlobOrbitope | experiments/src/problems/multipleknapsack.py:162-164 | The same, after the global orbitope |
| MultipleKnapsack.BigMRowsAreExact | experiments/src/problems/multipleknapsack.py:142-158 | The six rows and four variables of an item and pair are satisfiable if and only if equal prefix loads imply x[i,j2] <= x[i,j1] |
| MultipleKnapsack.AuxVariablesProject | experiments/src/problems/multipleknapsack.py:138-160 | Over all items and pairs, the extended model projects to exactly the packings that take items first wherever prefix loads agree |
| MultipleKnapsack.ColumnsAreSorted | experiments/src/problems/multipleknapsack.py:129-131 | The consecutive rows put the knapsack columns in non-increasing lexicographic order |
| MultipleKnapsack.OrbitopeForbids | experiments/src/problems/multipleknapsack.py:162-164 | The global orbitope forbids exactly that the first item which only one of two knapsacks holds lies in the later one |
| MultipleKnapsack.OrbitopeIsImplied | experiments/src/problems/multipleknapsack.py:162-164 | The global orbitope cuts off nothing that the inequalities leave |
| MultipleKnapsack.SwapKeepsFeasibilityAndProfit | experiments/src/problems/multipleknapsack.py:71-77 | Two knapsacks of equal capacity and equal prefix load can trade all later items: rows and profit survive |
| MultipleKnapsack.SubSymmetryRowsLoseNothing | experiments/src/problems/multipleknapsack.py:128-160 | With equal capacities, finitely many suffix trades between knapsacks of equal prefix load, each to a feasible packing of equal profit, reach one that satisfies the inequalities of all pairs |
| MultipleKnapsack.OptimumSurvives | experiments/src/problems/multipleknapsack.py:128-160 | With equal capacities a best packing under the inequalities is best without them |
| KnapsackCapacities.LosslessExactly | experiments/src/problems/multipleknapsack.py:75-77 | For any integer capacities, the inequalities lose no profit for any items if and only if all positive capacities are equal and precede the zero ones, or some capacity is negative |
| KnapsackCapacities.LosslessExactlyWhenEqual | experiments/src/problems/multipleknapsack.py:75-77 | For positive capacities, that means that all capacities are equal |
| KnapsackCapacities.OrderlyLosesNothing | experiments/src/problems/multipleknapsack.py:128-160 | When positive capacities are equal and precede the zero ones, every packing has one of equal profit that satisfies the inequalities of all pairs |
| KnapsackCapacities.SeatedIsFeasible | experiments/src/problems/multipleknapsack.py:71-77 | A list of items with one copy per largest knapsack can be packed completely |
| KnapsackCapacities.NoSeatLeft | experiments/src/problems/multipleknapsack.py:158-158 | If the first knapsack is a largest one, the inequalities leave some item of that list out |
| KnapsackCapacities.FirstKnapsackTooSmall | experiments/src/problems/multipleknapsack.py:158-158 | If it is not, they leave out a single item of the largest capacity |
| Gray.BitOfGray | pyscipopt/examples/finished/piecewise.py:100-102 | A bit of the code of i is the exclusive or of two neighbouring bits of i |
| Gray.GrayDetermines | pyscipopt/examples/finished/piecewise.py:100-102 | The code is injective below every power of two |
| Gray.ConsecutiveCodesDifferOnce | pyscipopt/examples/finished/piecewise.py:100-102 | Consecutive codes differ in exactly one bit |
| PiecewiseMeaning.MultSelectionMeansGraph | pyscipopt/examples/finished/piecewise.py:18-46 | (X,Y) extends to a feasible point of the multiple-selection encoding if and only if it is on the graph |
| PiecewiseMeaning.ConvexCombSosMeansGraph | pyscipopt/examples/finished/piecewise.py:49-70 | The same for the SOS2 encoding |
| PiecewiseMeaning.ConvexCombDisMeansGraph | pyscipopt/examples/finished/piecewise.py:73-97 | The same for the disaggregated encoding |
| PiecewiseMeaning.DigitsPickOneSegment | pyscipopt/examples/finished/piecewise.py:126-145 | The binary digits leave positive weight on the ends of one segment only |
| PiecewiseMeaning.ConvexCombDisLogMeansGraph | pyscipopt/examples/finished/piecewise.py:105-145 | The same for the disaggregated logarithmic encoding |
| PiecewiseMeaning.ConvexCombAggMeansGraph | pyscipopt/examples/finished/piecewise.py:149-174 | The same for the aggregated encoding |
| PiecewiseMeaning.AllowedLieInOnePair | pyscipopt/examples/finished/piecewise.py:202-217 | Whatever the 0/1 vector, the breakpoints that may carry weight lie in one adjacent pair |
| PiecewiseMeaning.PairIsAllowed | pyscipopt/examples/finished/piecewise.py:202-217 | With the Gray code of s as digits, breakpoints s and s+1 may carry weight |
| PiecewiseMeaning.ConvexCombAggLogMeansGraph | pyscipopt/examples/finished/piecewise.py:178-217 | (X,Y) extends to a feasible point of the Gray-code encoding if and only if it is on the graph |
| PiecewiseMeaning.AllEncodingsAgree | pyscipopt/examples/unfinished/flp_nonlinear.py:541-543 | All six encodings project to the same set of points (X,Y) |
| PiecewiseBuild.AddMultSelection | pyscipopt/examples/finished/piecewise.py:18-46 | The builder adds exactly the rows of the multiple-selection encoding |
| PiecewiseBuild.AddConvexCombSos | pyscipopt/examples/finished/piecewise.py:49-70 | The builder adds exactly the rows of the SOS2 encoding |
| PiecewiseBuild.AddConvexCombDis | pyscipopt/examples/finished/piecewise.py:73-97 | The builder adds exactly the rows of the disaggregated encoding |
| PiecewiseBuild.SplitByDigit | pyscipopt/examples/finished/piecewise.py:134-142 | The two lists collect exactly the segments whose number has, or has not, the digit |
| PiecewiseBuild.AddConvexCombDisLog | pyscipopt/examples/finished/piecewise.py:105-145 | The builder adds exactly the rows of the disaggregated logarithmic encoding |
| PiecewiseBuild.AddConvexCombAgg | pyscipopt/examples/finished/piecewise.py:149-174 | The builder adds exactly the rows of the aggregated encoding |
| PiecewiseBuild.SplitByGrayDigit | pyscipopt/examples/finished/piecewise.py:202-214 | The two lists collect exactly the breakpoints between codes that agree on the digit |
| PiecewiseBuild.AddConvexCombAggLog | pyscipopt/examples/finished/piecewise.py:178-217 | The builder adds exactly the rows of the Gray-code encoding |
| AtspBuild.BuildMtz | pyscipopt/examples/finished/atsp.py:16-46 | The builder's rows are the Miller-Tucker-Zemlin model, with the tour cost as objective |
| AtspBuild.BuildMtzStrong | pyscipopt/examples/finished/atsp.py:50-84 | The builder's rows are the lifted model, with the same objective |
| AtspBuild.BuildScf | pyscipopt/examples/finished/atsp.py:87-125 | The builder's rows are the single-commodity flow model, with the same objective |
| AtspBuild.BuildMcf | pyscipopt/examples/finished/atsp.py:129-168 | The builder's rows are the multi-commodity flow model, with the same objective |
| AtspMeaning.NoSubtourMeansCycle | pyscipopt/examples/finished/atsp.py:34-36 | Degree rows and the absence of a closed node set without node 1 make the arcs a Hamiltonian cycle |
| AtspMeaning.CostIsTourLength | pyscipopt/examples/finished/atsp.py:43-43 | The objective of the models at a tour is the sum of c over its steps, in their direction and with the step back to node 1 |
| AtspMeaning.PotentialsArePositions | pyscipopt/examples/finished/atsp.py:16-46 | At a tour the potentials of mtz are the positions of the nodes |
| AtspMeaning.LiftedPotentialsArePositions | pyscipopt/examples/finished/atsp.py:50-84 | And so are those of mtz_strong, from three nodes on |
| AtspMeaning.LiftedRowsAreTight | pyscipopt/examples/finished/atsp.py:50-84 | Along every step of a tour, and against it, the lifted rows hold without slack |
| AtspMeaning.LiftedBoundsAreTight | pyscipopt/examples/finished/atsp.py:50-84 | The lifted bounds fix the potentials of the first and the last node after node 1 from both sides |
| AtspMeaning.MtzDescribesCycles | pyscipopt/examples/finished/atsp.py:16-46 | Arcs extend to a feasible point of mtz if and only if they are a Hamiltonian cycle |
| AtspMeaning.MtzStrongDescribesCycles | pyscipopt/examples/finished/atsp.py:50-84 | The same for mtz_strong |
| AtspMeaning.ScfDescribesCycles | pyscipopt/examples/finished/atsp.py:87-125 | The same for scf |
| AtspMeaning.McfDescribesCycles | pyscipopt/examples/finished/atsp.py:129-168 | The same for mcf |
| AtspMeaning.FormulationsAgree | pyscipopt/examples/finished/atsp.py:16-168 | The four formulations allow the same arcs |
| LotSizingBuild.BuildStandard | pyscipopt/examples/unfinished/lotsizing.py:50-90 | The builder's rows are the standard formulation, with its objective |
| LotSizingBuild.UnitCosts | pyscipopt/examples/unfinished/lotsizing.py:138-144 | The running sum fills the table of variable plus holding costs |
| LotSizingBuild.BuildFacility | pyscipopt/examples/unfinished/lotsizing.py:111-153 | The builder's rows are the facility-location formulation, with its objective |
| LotSizingMeaning.FlowCostIsPlanCost | pyscipopt/examples/unfinished/lotsizing.py:138-151 | Shipping costs of a split equal the variable and holding costs of the plan it adds up to, by summation by parts |
| LotSizingMeaning.FifoMargins | pyscipopt/examples/unfinished/lotsizing.py:62-78 | The first-in-first-out split serves every demand and takes from each period what is useful of its production |
| LotSizingMeaning.SplitBecomesPlan | pyscipopt/examples/unfinished/lotsizing.py:116-153 | Every feasible facility-location point is a feasible standard point of the same cost |
| LotSizingMeaning.PlanBecomesSplit | pyscipopt/examples/unfinished/lotsizing.py:53-90 | Every feasible standard point splits, first in first out, into a feasible facility-location point at no greater cost |
| LotSizingMeaning.SameOptimum | pyscipopt/examples/unfinished/lotsizing.py:13-153 | The two formulations have the same optimum |
| LotSizingCutBuild.Sils | pyscipopt/examples/unfinished/lotsizing_cut.py:12-42 | The builder's rows are the single-item model with 0/1 set-ups, with its cost as objective |
| LotSizingCut.CutIsValid | pyscipopt/examples/unfinished/lotsizing_cut.py:92-96 | Every (l,S) inequality holds at every integer feasible point |
| LotSizingCut.Demands | pyscipopt/examples/unfinished/lotsizing_cut.py:67-73 | The running sum fills the table of cumulated demands |
| LotSizingCut.GreedyIsSmallest | pyscipopt/examples/unfinished/lotsizing_cut.py:83-91 | Taking the smaller term per period gives the smallest left-hand side of all choices of S |
| LotSizingCut.Separate | pyscipopt/examples/unfinished/lotsizing_cut.py:80-97 | For each l the cut found is the greedy one, no S has a smaller left-hand side, and it is violated exactly when the inequality of some S is |
| LotSizingCut.AddViolatedCuts | pyscipopt/examples/unfinished/lotsizing_cut.py:80-98 | One round adds exactly the greedy cut of every l for which some inequality is violated, and reports whether there was one |
| LotSizingCut.SilsCut | pyscipopt/examples/unfinished/lotsizing_cut.py:45-100 | The loop ends; the final point satisfies every (l,S) inequality, none that does costs less, and some integer feasible point has its cost, so that is the integer optimum |
| LotSizingCut.FractionsSaveNothing | pyscipopt/examples/unfinished/lotsizing_cut.py:45-48 | For costs of any sign, every point that satisfies all (l,S) inequalities costs at least as much as one integer feasible point |
| WagnerWhitin.FairPricesBound | pyscipopt/examples/unfinished/lotsizing_cut.py:92-96 | Weak duality: prices per unit of demand that never rise and leave no set-up a profit bound the cost of every plan that satisfies the inequalities |
| WagnerWhitin.PricesAreFair | pyscipopt/examples/unfinished/lotsizing_cut.py:45-48 | The increments of the least integer cost, per unit of demand, are such prices |
| LotSizingTies.NeverFractionalExactly | pyscipopt/examples/unfinished/lotsizing_cut.py:45-48 | No cheapest point under the inequalities has a fractional set-up if and only if all cheapest integer points make the same set-ups |
| LotSizingTies.HalfASetUpRemains | pyscipopt/examples/unfinished/lotsizing_cut.py:45-48 | An instance where a cheapest point makes half a set-up |
| LotSizingCut.RelaxationsAreFeasible | pyscipopt/examples/unfinished/lotsizing_cut.py:60-65 | No relaxation that the loop can build is empty |
| BinPacking.FirstFit | pyscipopt/examples/finished/bpp.py:26-30 | The inner loop finds the first bin with room, or that there is none |
| BinPacking.FFD | pyscipopt/examples/finished/bpp.py:16-34 | The items are kept; every item is in the first bin that had room for it when it came, with everything at least as large placed before; if each item fits a bin, no bin is overfilled, and k bins satisfy 2k <= 3m for every packing of the items into m bins |
| BinPacking.FirstFitIsDetermined | pyscipopt/examples/finished/bpp.py:23-34 | For given items and capacity only one list of bins has that first-fit property |
| BinPacking.ThreeHalves | pyscipopt/examples/finished/bpp.py:23-34 | Any result of the first-fit-decreasing shape uses at most three bins where any packing uses two |
| BinPacking.NoTailItemFits | pyscipopt/examples/finished/bpp.py:26-33 | No item of a later bin would have fitted into an earlier one |
| TspBuild.DegreeModel | pyscipopt/examples/finished/tsp.py:60-73 | The starting rows are the bounds and degree rows, with the tour cost as objective |
| Tsp.ClosedSetViolates | pyscipopt/examples/finished/tsp.py:36-37 | The cut of a node set without leaving edges is violated, so it is new |
| Tsp.CutIsValid | pyscipopt/examples/finished/tsp.py:36-37 | The cut of every proper node set holds at every connected integral point |
| Tsp.ConnectedIsTour | pyscipopt/examples/finished/tsp.py:84-86 | A connected integral point with degree two is a Hamiltonian cycle |
| Tsp.TourSatisfiesModel | pyscipopt/examples/finished/tsp.py:69-71 | Every Hamiltonian cycle satisfies the starting rows and all cuts the loop can add |
| Tsp.ConnectedComponents | pyscipopt/examples/finished/tsp.py:30-32 | Two nodes get the same label only if no node set separates them, and no used edge joins different labels |
| Tsp.AddCut | pyscipopt/examples/finished/tsp.py:29-39 | Several components are reported exactly when the point is not connected, and then the cuts added are exactly those of the connected components, each of them violated and hence new |
| Tsp.CutMeansTwoLeave | pyscipopt/examples/finished/tsp.py:36-53 | Under the degree rows the cut of a set holds if and only if edges of weight two leave it, which is the other way to write it |
| Tsp.CostIsLength | pyscipopt/examples/finished/tsp.py:73-73 | The objective at a tour is its length: the sum of c over its steps, each edge kept under its smaller node first |
| Tsp.SolveTsp | pyscipopt/examples/finished/tsp.py:59-92 | The loop ends with a Hamiltonian cycle, its length, which no order of all nodes undercuts, and the edges it uses |
| Scheduling.CutIsValid | pyscipopt/examples/unfinished/scheduling.py:198-198 | The cut of every list of jobs holds when they run one at a time from time 0 on |
| Scheduling.CutIsTight | pyscipopt/examples/unfinished/scheduling.py:198-198 | Jobs that run back to back from time 0 meet their cut with equality, so no larger right-hand side is valid |
| Scheduling.BackToBackRuns | pyscipopt/examples/unfinished/scheduling.py:198-198 | There are such completion times for every list of distinct jobs |
| Scheduling.PrefixIsWorst | pyscipopt/examples/unfinished/scheduling.py:169-183 | Some prefix of the jobs sorted by completion is at least as violated as any other list of distinct jobs |
| Scheduling.ScanIsExact | pyscipopt/examples/unfinished/scheduling.py:181-195 | When the cut of all jobs holds, the scan breaks if and only if the cut of some list of jobs is violated |
| Scheduling.ScanMissesExactly | pyscipopt/examples/unfinished/scheduling.py:181-195 | When the scan finds no break, some list of jobs is violated if and only if the cut of all jobs is |
| Scheduling.Scan | pyscipopt/examples/unfinished/scheduling.py:181-192 | f equals the violation throughout; from the first violated prefix on every further job makes it worse, until the scan stops at the first that does not, and returns the prefix, which no shorter one matches, with its right-hand side |
| Scheduling.Evaluate | pyscipopt/examples/unfinished/scheduling.py:204-211 | The loop computes when the machine is free and the weighted completion time of an order |
| Scheduling.EvaluatedIsSchedule | pyscipopt/examples/unfinished/scheduling.py:204-211 | The evaluated order runs one job at a time, keeps release times, and costs what is returned |
| Scheduling.EvaluatedIsCheapest | pyscipopt/examples/unfinished/scheduling.py:204-211 | No schedule in the same order finishes a job earlier or costs less |
| SchedulingCut.SortJobs | pyscipopt/examples/unfinished/scheduling.py:169-170 | Every job once, by completion time and then by number |
| SchedulingCut.AllJobsRowCutsOffSchedules | pyscipopt/examples/unfinished/scheduling.py:154-161 | A schedule that the row AllJobs excludes |
| SchedulingCut.RowHoldsExactly | pyscipopt/examples/unfinished/scheduling.py:154-161 | Every schedule meets the row AllJobs if and only if the last job does when it starts at its release time |
| SchedulingCut.SchedulesStayExactly | pyscipopt/examples/unfinished/scheduling.py:154-198 | Every schedule stays feasible in a relaxation of the loop, whatever cuts it has, if and only if the same holds |
| SchedulingCut.AllJobsCutHolds | pyscipopt/examples/unfinished/scheduling.py:159-161 | That row implies the cut of all jobs in any order |
| SchedulingCut.SchedulesAreRelaxed | pyscipopt/examples/unfinished/scheduling.py:154-198 | Every schedule that meets that row stays feasible whatever cuts are added |
| SchedulingCut.RelaxationsAreFeasible | pyscipopt/examples/unfinished/scheduling.py:154-163 | No relaxation that the loop can build is empty |
| SchedulingCut.Round | pyscipopt/examples/unfinished/scheduling.py:168-195 | One round sorts, evaluates, replaces the best order exactly when the new one is cheaper, and reports a cut exactly when the scan breaks |
| SchedulingCut.CuttingPlane | pyscipopt/examples/unfinished/scheduling.py:165-200 | The loop ends; the solver's last point satisfies the cut of every list of jobs; the returned order is the sorted order of the first round with the returned value, and the orders of all earlier rounds cost more, of later ones no less; where the row AllJobs excludes no schedule, the last objective is a lower bound for every order |
| SchedulingCut.CostOfOrder | pyscipopt/examples/unfinished/scheduling.py:163-163 | The objective at the completion times of an order is the value that the heuristic gives that order |
| SchedulingCut.RelaxationBounds | pyscipopt/examples/unfinished/scheduling.py:154-163 | When the row AllJobs excludes no schedule, a cheapest point of any relaxation of the loop costs no more than any order |
| ParetoFront.Dominates | pyscipopt/examples/unfinished/pareto_front.py:7-15 | The loop decides dominance |
| ParetoFront.DominanceIsTransitive | pyscipopt/examples/unfinished/pareto_front.py:7-15 | Dominance is transitive |
| ParetoFront.FrontDecides | pyscipopt/examples/unfinished/pareto_front.py:27-33 | A candidate is dominated by an earlier one if and only if a member of the front dominates it |
| ParetoFront.UpdateIsFront | pyscipopt/examples/unfinished/pareto_front.py:25-35 | After each candidate the front is again exactly the undominated candidates, and covers all others |
| ParetoFront.ParetoFront | pyscipopt/examples/unfinished/pareto_front.py:23-36 | The result is exactly the candidates that none dominates, in whatever order they come, each smaller than the next ones at the first coordinate where they differ |
| ParetoFront.LexMeans | pyscipopt/examples/unfinished/pareto_front.py:35-35 | The order used for sorting is that of the first differing coordinate |
| GraphColoringBuild.GcpFixedK | pyscipopt/examples/finished/gcp_fixed_k.py:9-36 | The builder's rows are the fixed-k model, with the number of bad edges as objective |
| GraphColoring.LimitDecidesColourable | pyscipopt/examples/finished/gcp_fixed_k.py:26-33 | Under the objective limit the model has a solution if and only if k colours suffice |
| GraphColoring.LeastIsClashes | pyscipopt/examples/finished/gcp_fixed_k.py:25-33 | For given colours the least objective is the number of edges whose ends share a colour |
| GraphColoring.ObjectiveCountsMarked | pyscipopt/examples/finished/gcp_fixed_k.py:22-33 | The objective of a feasible point is the number of edges marked as bad |
| GraphColoring.ReadColours | pyscipopt/examples/finished/gcp_fixed_k.py:57-63 | The colours read from a solution are a proper colouring |
| GraphColoring.SolveGcp | pyscipopt/examples/finished/gcp_fixed_k.py:39-70 | The bisection ends with the chromatic number, or with the number of vertices if some edge is a loop, and below that number with a proper colouring |

## Left out

- MucpBuild.MucpBasicModel.Build: asks for a minimum up-time of at least 1, because with 0 the row of period 0 reads a variable that does not exist.
- MultipleKnapsack.SubSymmetryRowsLoseNothing: asks for equal capacities; `KnapsackCapacities.LosslessExactly` says what holds for all others.
- SchedulingCut.CuttingPlane: claims a lower bound only when the row AllJobs excludes no schedule; `SchedulingCut.RowHoldsExactly` says when that is.
- LotSizingMeaning.PlanBecomesSplit: asks for non-negative unit and set-up times, variable and holding costs and demands; negative ones are not covered.
- Tsp.SolveTsp: takes V to be 1..n with n >= 3 and compares with 0 instead of `EPS`.
- PiecewiseMeaning.ConvexCombAggLogMeansGraph: takes G as any number with at least K codes, because the code computes it with floating-point logarithms.
- The solver itself: linear programming, branching, tolerances, time limits and status strings. It appears as a contract only.
- The activation handlers and the propagation of orbitopes and orbisacks, which are C code outside these files; an orbisack is what it says about a solution, and an activation is the condition that its listed variables have their values.
- `add_identical_units_orbitope_constraints` and `add_item_orbitopes`: plain orbitopes without a condition, and the knapsack's activation handler.
- Readers and writers of instances, conversion to JSON, LaTeX output, plots, random data and console output.
- The callback of `mils` (`pyscipopt/examples/unfinished/lotsizing.py:27-48`): it separates the inequalities of `lotsizing_cut.py`, which are modelled there.
- `addcut2` of `tsp.py`, which is not called (`Tsp.CutMeansTwoLeave` shows that its rows say the same), and `is_dominated` of `pareto_front.py`, which `pareto_front` does not use.
- `sequence` of `atsp.py`: its loop stops one city short, so it does not list a whole tour.
- `scheduling_linear_ordering`, `scheduling_time_index` and `scheduling_disjunctive`: rows only, without an argument of their own here.
- `lotsizing_echelon.py`, `lotsizing_lazy.py` and `kcenter_binary_search.py`.
- `bpp` and `solveBinPacking`: the exact model behind the heuristic bound.
- Memory limits, names of rows and the counters of added rows.
