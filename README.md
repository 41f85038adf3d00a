# Isotope grouper, modelled in Dafny

The isotope grouper works on a peak list that was measured on one data file. It
collapses every isotope pattern into a single row. It sorts the peaks by
descending height and walks over them. Each peak that is still available
becomes a seed. For every charge from 1 to the maximum charge, it fits a
pattern around the seed:

- It steps away from the seed in m/z by the isotope distance (1.0033 Da)
  divided by the charge.
- At each step it takes the tallest peak within the m/z tolerance
  (inclusive) and the RT tolerance (exclusive) of the expected position.
- It searches first downwards, which is skipped for a monotonic shape, and
  then upwards.

The charge whose pattern explains the most peaks wins, and the smaller charge
wins a tie.

- If the pattern holds only the seed, the seed's original row is kept.
- Otherwise a new row replaces it. The new row keeps the old row's ID and
  properties, and its copy of the seed carries the isotope pattern and the
  charge. Every peak of the pattern is then removed from the sorted array by
  nulling its slot.

The task counts the peaks it has handled, so that a completion share can be
reported. It can be cancelled from outside; the loop checks for a cancel at
its head.

The model is split into these modules:

- `Peaks` holds the values:
  - peaks, where the `id` field stands for object identity;
  - the pool, which is the sorted array as a sequence of optional peaks;
  - parameters, data points, isotope patterns and rows.
- `Tolerance` gives the expected isotope position and the tolerance test.
- `PatternFitter` covers `fitPattern` and `fitHalfPattern`:
  - the methods `CollectCandidates`, `SelectBest`, `FitHalfPattern` and
    `FitPattern` work on the array as the source does;
  - each is proved equal to a function: `Candidates`, `BestIndex`,
    `HalfFit` or `Fit`;
  - the lemmas state what those functions guarantee.
- `ChargeSelector` holds the loop over charges (`SelectCharge`) and its
  specification, `BestUpTo` and `BestFit`.
- `GroupAggregator` builds the grouped row and nulls the consumed slots.
- `IsotopeGrouper` holds:
  - the seed loop as a function, `Step` and `Processed`, with lemmas about
    the whole pass;
  - the loop body as a method, `GroupSeed`;
  - the class `IsotopeGrouperTask`, with the status, the counters, the
    deisotoped rows and a published flag. Its `Run` method is proved equal
    to `Processed` up to the first loop head at which a cancel is seen.
- `Scenarios` holds two worked examples:
  - a peak and two isotopes collapse into one row;
  - a lone seed keeps its row and is later taken into a shorter seed's group.

The pass is stated for an arbitrary per-seed fitter `fit`. `Run` and
`GroupSeed` take it as a ghost argument, together with the precondition
`SelectsBest(fit, params)`, which says `fit` equals `BestFit`.
`GrouperSelectsBest` shows that such a fitter always exists. This keeps the
arithmetic of the tolerance test out of the proofs about the loop.

## Model

| member | source | states |
|---|---|---|
| Tolerance.Abs | src/net/sf/mzmine/modules/peaklistmethods/isotopes/deisotoper/IsotopeGrouperTask.java:344-347 | The absolute value is non-negative and equals x or -x. |
| Tolerance.MultipleIsProduct | src/net/sf/mzmine/modules/peaklistmethods/isotopes/deisotoper/IsotopeGrouperTask.java:344-345 | Repeated addition of the per-step shift equals n times the shift. |
| Tolerance.ShiftFormula | src/net/sf/mzmine/modules/peaklistmethods/isotopes/deisotoper/IsotopeGrouperTask.java:344-345 | The expected offset of the n-th isotope is isotopeDistance * direction * n / charge. |
| Tolerance.Matches | src/net/sf/mzmine/modules/peaklistmethods/isotopes/deisotoper/IsotopeGrouperTask.java:344-347 | A candidate matches exactly when its m/z lies in the closed interval of the m/z tolerance around seed m/z plus the expected offset, and its RT lies strictly within the RT tolerance of the seed's RT. |
| Peaks.NonNullCount | src/net/sf/mzmine/modules/peaklistmethods/isotopes/deisotoper/IsotopeGrouperTask.java:178-181 | The number of non-null slots is at most the array length, and it is 0 exactly when every slot is null. |
| PatternFitter.Candidates | src/net/sf/mzmine/modules/peaklistmethods/isotopes/deisotoper/IsotopeGrouperTask.java:327-353 | There are never more good candidates than array slots. |
| PatternFitter.CandidateIn | src/net/sf/mzmine/modules/peaklistmethods/isotopes/deisotoper/IsotopeGrouperTask.java:327-353 | A peak is a good candidate exactly when it occupies a non-null slot, matches both tolerances and is not already fitted. |
| PatternFitter.CandidateUnfitted | src/net/sf/mzmine/modules/peaklistmethods/isotopes/deisotoper/IsotopeGrouperTask.java:332-348 | A good candidate comes from a non-null slot and is not yet fitted. |
| PatternFitter.BestIndex | src/net/sf/mzmine/modules/peaklistmethods/isotopes/deisotoper/IsotopeGrouperTask.java:361-371 | The selected candidate has maximal height, and every earlier candidate is strictly shorter, so the first of equally tall candidates wins. |
| PatternFitter.Unfitted | src/net/sf/mzmine/modules/peaklistmethods/isotopes/deisotoper/IsotopeGrouperTask.java:328-348 | The number of pool peaks not yet fitted is at most the number of non-null slots. |
| PatternFitter.UnfittedShrinks | src/net/sf/mzmine/modules/peaklistmethods/isotopes/deisotoper/IsotopeGrouperTask.java:375-382 | Adding a peak never increases the unfitted count, and adding an unfitted pool peak strictly decreases it. This is the termination measure of the do-while loop. |
| PatternFitter.UnfittedAroundSeed | src/net/sf/mzmine/modules/peaklistmethods/isotopes/deisotoper/IsotopeGrouperTask.java:187-191 | A seed taken from the pool is not counted among its own unfitted slots. |
| PatternFitter.HalfFit | src/net/sf/mzmine/modules/peaklistmethods/isotopes/deisotoper/IsotopeGrouperTask.java:319-386 | A search never loses fitted peaks (length bound); it terminates by the unfitted measure. |
| PatternFitter.HalfFitPrefix | src/net/sf/mzmine/modules/peaklistmethods/isotopes/deisotoper/IsotopeGrouperTask.java:375-378 | A search only appends: the peaks it started with are a prefix of its result. |
| PatternFitter.HalfFitStops | src/net/sf/mzmine/modules/peaklistmethods/isotopes/deisotoper/IsotopeGrouperTask.java:375-386 | The search ends only when the next isotope position has no good candidate. |
| PatternFitter.HalfFitFirst | src/net/sf/mzmine/modules/peaklistmethods/isotopes/deisotoper/IsotopeGrouperTask.java:361-382 | When the n-th isotope has candidates, the search keeps the earlier peaks and appends the selected candidate. |
| PatternFitter.HalfFitFirstAdded | src/net/sf/mzmine/modules/peaklistmethods/isotopes/deisotoper/IsotopeGrouperTask.java:344-382 | The first peak added is chosen: the selected candidate, at least as tall as every candidate, from a non-null slot, not fitted before, and within both tolerances of the expected position. |
| PatternFitter.HalfFitAdded | src/net/sf/mzmine/modules/peaklistmethods/isotopes/deisotoper/IsotopeGrouperTask.java:319-386 | Every added peak at position k is the peak chosen at step n + k - (initial size), with all the properties above. |
| PatternFitter.HalfFitDistinct | src/net/sf/mzmine/modules/peaklistmethods/isotopes/deisotoper/IsotopeGrouperTask.java:348 | A search keeps the fitted peaks free of duplicates. |
| PatternFitter.HalfFitBalance | src/net/sf/mzmine/modules/peaklistmethods/isotopes/deisotoper/IsotopeGrouperTask.java:319-386 | The fitted peaks grow by no more than the unfitted pool shrinks. |
| PatternFitter.HalfFitFromPool | src/net/sf/mzmine/modules/peaklistmethods/isotopes/deisotoper/IsotopeGrouperTask.java:328-349 | Every peak a search ends with was fitted before or sits in the pool. |
| PatternFitter.HalfFitKeepsShape | src/net/sf/mzmine/modules/peaklistmethods/isotopes/deisotoper/IsotopeGrouperTask.java:307-388 | A search from step 1 keeps the seed first, keeps the peaks distinct and pool-drawn, and stays within the size budget. |
| PatternFitter.FitProperties | src/net/sf/mzmine/modules/peaklistmethods/isotopes/deisotoper/IsotopeGrouperTask.java:277-292 | The fitted pattern starts with the seed and holds no duplicates. Its other members are pool peaks. It has at most one peak more than the pool's non-null slots, and no more than them when the seed is in the pool. At charge 0 it is the seed alone. |
| PatternFitter.CollectCandidates | src/net/sf/mzmine/modules/peaklistmethods/isotopes/deisotoper/IsotopeGrouperTask.java:327-353 | The scan over the array returns exactly the good candidates in array order, and membership is equivalent to the candidate test. |
| PatternFitter.SelectBest | src/net/sf/mzmine/modules/peaklistmethods/isotopes/deisotoper/IsotopeGrouperTask.java:361-371 | The selection returns none exactly when there are no candidates. Otherwise it returns the first candidate of greatest height. |
| PatternFitter.FitHalfPattern | src/net/sf/mzmine/modules/peaklistmethods/isotopes/deisotoper/IsotopeGrouperTask.java:307-388 | The do-while search returns the half-pattern search result, which extends the given fitted peaks. |
| PatternFitter.FitPattern | src/net/sf/mzmine/modules/peaklistmethods/isotopes/deisotoper/IsotopeGrouperTask.java:277-292 | At charge 0 the fitted peaks are returned unchanged. Otherwise the direction -1 search runs before the direction +1 search, and it is skipped when the shape is monotonic. |
| ChargeSelector.BestUpToProperties | src/net/sf/mzmine/modules/peaklistmethods/isotopes/deisotoper/IsotopeGrouperTask.java:184-201 | After charges 1..k the kept charge lies in 1..k and holds its own fitted set. No charge tried explains more peaks, and every smaller charge explains strictly fewer, so ties go to the smaller charge. |
| ChargeSelector.BestFitProperties | src/net/sf/mzmine/modules/peaklistmethods/isotopes/deisotoper/IsotopeGrouperTask.java:158-201 | The chosen charge lies in 1..maximumCharge and its set is the pattern fitted for it. The set is maximal over all charges, and smaller charges score strictly lower. The set starts with the seed, is distinct and is drawn from the pool. |
| ChargeSelector.SelectCharge | src/net/sf/mzmine/modules/peaklistmethods/isotopes/deisotoper/IsotopeGrouperTask.java:184-201 | The loop over charges ends with the charge and set that the specification picks. |
| GroupAggregator.IsotopePoints | src/net/sf/mzmine/modules/peaklistmethods/isotopes/deisotoper/IsotopeGrouperTask.java:213-218 | There is one data point per fitted peak. |
| GroupAggregator.IsotopePointAt | src/net/sf/mzmine/modules/peaklistmethods/isotopes/deisotoper/IsotopeGrouperTask.java:214-217 | The i-th point has the i-th fitted peak's m/z and height. |
| GroupAggregator.BuildGroupRow | src/net/sf/mzmine/modules/peaklistmethods/isotopes/deisotoper/IsotopeGrouperTask.java:213-233 | The new row keeps the old row's ID and properties. It holds the seed with charge bestFitCharge and a detected pattern named after the seed, whose points are the fitted peaks' (m/z, height) in fitted order. |
| GroupAggregator.Consume | src/net/sf/mzmine/modules/peaklistmethods/isotopes/deisotoper/IsotopeGrouperTask.java:235-239 | Nulling keeps the array length. |
| GroupAggregator.ConsumeSlot | src/net/sf/mzmine/modules/peaklistmethods/isotopes/deisotoper/IsotopeGrouperTask.java:236-238 | Exactly the slots holding a fitted peak are nulled, and every other slot keeps its content. |
| GroupAggregator.ConsumeAvailable | src/net/sf/mzmine/modules/peaklistmethods/isotopes/deisotoper/IsotopeGrouperTask.java:235-239 | After nulling, a peak is available exactly when it was before and is not in the fitted set. |
| GroupAggregator.ConsumeNothing | src/net/sf/mzmine/modules/peaklistmethods/isotopes/deisotoper/IsotopeGrouperTask.java:235-239 | Nulling with an empty set changes nothing. |
| GroupAggregator.RemoveAssigned | src/net/sf/mzmine/modules/peaklistmethods/isotopes/deisotoper/IsotopeGrouperTask.java:235-239 | The nulling loop leaves the array equal to its old content with the fitted peaks' slots nulled. |
| IsotopeGrouper.GrouperSelectsBest | src/net/sf/mzmine/modules/peaklistmethods/isotopes/deisotoper/IsotopeGrouperTask.java:184-201 | The charge selection is a fitter that satisfies the task's precondition. |
| IsotopeGrouper.BestIsSound | src/net/sf/mzmine/modules/peaklistmethods/isotopes/deisotoper/IsotopeGrouperTask.java:184-201 | The charge selection always yields a set that starts with the seed, is distinct and is drawn from the pool. |
| IsotopeGrouper.Consumed | src/net/sf/mzmine/modules/peaklistmethods/isotopes/deisotoper/IsotopeGrouperTask.java:178-211 | A null slot consumes nothing. |
| IsotopeGrouper.ConsumedProperties | src/net/sf/mzmine/modules/peaklistmethods/isotopes/deisotoper/IsotopeGrouperTask.java:207-239 | A consumed group is the seed followed by at least one more peak. Its peaks are distinct and come from the pool. |
| IsotopeGrouper.Step | src/net/sf/mzmine/modules/peaklistmethods/isotopes/deisotoper/IsotopeGrouperTask.java:175-242 | A turn keeps the array length. At a null slot nothing changes. At a seed exactly one row is appended, the rows before are untouched, and the new row carries the seed row's ID. |
| IsotopeGrouper.Processed | src/net/sf/mzmine/modules/peaklistmethods/isotopes/deisotoper/IsotopeGrouperTask.java:170-244 | After k turns the array length is unchanged and at most k rows exist. |
| IsotopeGrouper.ProcessedNext | src/net/sf/mzmine/modules/peaklistmethods/isotopes/deisotoper/IsotopeGrouperTask.java:170-244 | Turn k+1 applies the step at slot k to the state after k turns. |
| IsotopeGrouper.FirstCancel | src/net/sf/mzmine/modules/peaklistmethods/isotopes/deisotoper/IsotopeGrouperTask.java:172-173 | The first loop head at which a cancel is seen: no cancel is seen before it, and one is seen there unless it is the end of the array. |
| IsotopeGrouper.StepAtLoneSeed | src/net/sf/mzmine/modules/peaklistmethods/isotopes/deisotoper/IsotopeGrouperTask.java:203-211 | When the best set is the seed alone, the original row is appended and the array is unchanged. |
| IsotopeGrouper.StepAtGroupSeed | src/net/sf/mzmine/modules/peaklistmethods/isotopes/deisotoper/IsotopeGrouperTask.java:213-239 | When the best set has two or more peaks, the grouped row is appended and exactly the set's slots are nulled. |
| IsotopeGrouper.StepConsumes | src/net/sf/mzmine/modules/peaklistmethods/isotopes/deisotoper/IsotopeGrouperTask.java:207-239 | The array after a turn is the array before it with the consumed group's slots nulled. |
| IsotopeGrouper.StepNullsSeed | src/net/sf/mzmine/modules/peaklistmethods/isotopes/deisotoper/IsotopeGrouperTask.java:207-239 | A lone seed leaves the array unchanged, and a grouping seed's own slot is nulled. |
| IsotopeGrouper.StepOnlyNulls | src/net/sf/mzmine/modules/peaklistmethods/isotopes/deisotoper/IsotopeGrouperTask.java:235-239 | After a turn each slot is either null or as it was. |
| IsotopeGrouper.ProcessedStep | src/net/sf/mzmine/modules/peaklistmethods/isotopes/deisotoper/IsotopeGrouperTask.java:170-244 | One turn of the seed loop only nulls slots. |
| IsotopeGrouper.ProcessedOnlyNulls | src/net/sf/mzmine/modules/peaklistmethods/isotopes/deisotoper/IsotopeGrouperTask.java:170-244 | At every point of the pass each slot is null or still holds its original peak. |
| IsotopeGrouper.NullsStay | src/net/sf/mzmine/modules/peaklistmethods/isotopes/deisotoper/IsotopeGrouperTask.java:178-181 | A nulled slot stays null, and so is never a seed or candidate again. |
| IsotopeGrouper.AvailableEarlier | src/net/sf/mzmine/modules/peaklistmethods/isotopes/deisotoper/IsotopeGrouperTask.java:235-239 | A peak that is available later in the pass was available at every earlier point. |
| IsotopeGrouper.ConsumedGone | src/net/sf/mzmine/modules/peaklistmethods/isotopes/deisotoper/IsotopeGrouperTask.java:235-239 | A peak consumed at turn i is absent from the array at every later point. |
| IsotopeGrouper.GroupsDisjoint | src/net/sf/mzmine/modules/peaklistmethods/isotopes/deisotoper/IsotopeGrouperTask.java:235-239 | No peak belongs to the consumed groups of two different turns. |
| IsotopeGrouper.SeedIsTallestRemaining | src/net/sf/mzmine/modules/peaklistmethods/isotopes/deisotoper/IsotopeGrouperTask.java:162-175 | On the height-sorted array, a seed is at least as tall as every peak still available from its slot on. |
| IsotopeGrouper.GroupSeed | src/net/sf/mzmine/modules/peaklistmethods/isotopes/deisotoper/IsotopeGrouperTask.java:184-239 | The loop body at a non-null slot returns the row that one step appends, and leaves the array as that step leaves it. |
| IsotopeGrouper.IsotopeGrouperTask.constructor | src/net/sf/mzmine/modules/peaklistmethods/isotopes/deisotoper/IsotopeGrouperTask.java:67-71 | A new task is waiting, with both counters at 0, no rows and nothing published. |
| IsotopeGrouper.IsotopeGrouperTask.FinishedPercentage | src/net/sf/mzmine/modules/peaklistmethods/isotopes/deisotoper/IsotopeGrouperTask.java:115-119 | The share is 0 while the total is 0, and otherwise processed/total. It lies in [0,1] while the counter does not pass the total. |
| IsotopeGrouper.IsotopeGrouperTask.Cancel | src/net/sf/mzmine/modules/peaklistmethods/isotopes/deisotoper/IsotopeGrouperTask.java:138-140 | Cancelling sets the status to canceled and changes nothing else. |
| IsotopeGrouper.IsotopeGrouperTask.Run | src/net/sf/mzmine/modules/peaklistmethods/isotopes/deisotoper/IsotopeGrouperTask.java:145-266 | The run handles slots up to the first loop head with a cancel, and its array and rows are those of the pass after that many turns. The counter grows by that number, and the total is the array length. On a cancel it returns canceled without publishing. Otherwise it publishes and finishes. From a fresh task, processedPeaks stays within 0..totalPeaks. |
| IsotopeGrouper.PercentageBounds | src/net/sf/mzmine/modules/peaklistmethods/isotopes/deisotoper/IsotopeGrouperTask.java:118 | processed/total times total is processed, and the quotient lies in [0,1] when 0 <= processed <= total. |
| Scenarios.CandidatesOfThree | src/net/sf/mzmine/modules/peaklistmethods/isotopes/deisotoper/IsotopeGrouperTask.java:327-353 | On the three-peak array the candidates are the qualifying peaks in array order. |
| Scenarios.FirstIsotopeOfA | src/net/sf/mzmine/modules/peaklistmethods/isotopes/deisotoper/IsotopeGrouperTask.java:344-350 | The first isotope of A at charge 1 is B alone. |
| Scenarios.SecondIsotopeOfA | src/net/sf/mzmine/modules/peaklistmethods/isotopes/deisotoper/IsotopeGrouperTask.java:344-350 | The second isotope of A at charge 1 is C alone. |
| Scenarios.NoThirdIsotopeOfA | src/net/sf/mzmine/modules/peaklistmethods/isotopes/deisotoper/IsotopeGrouperTask.java:344-350 | There is no third isotope of A, so the search stops. |
| Scenarios.ThreeFit | src/net/sf/mzmine/modules/peaklistmethods/isotopes/deisotoper/IsotopeGrouperTask.java:277-388 | With a monotonic shape at charge 1, the pattern around A is A, B, C. |
| Scenarios.ThreeBestFit | src/net/sf/mzmine/modules/peaklistmethods/isotopes/deisotoper/IsotopeGrouperTask.java:184-201 | Charge 1 is chosen for A with all three peaks. |
| Scenarios.ThreeConsumed | src/net/sf/mzmine/modules/peaklistmethods/isotopes/deisotoper/IsotopeGrouperTask.java:235-239 | Consuming A, B and C nulls all three slots. |
| Scenarios.ThreeFirstStep | src/net/sf/mzmine/modules/peaklistmethods/isotopes/deisotoper/IsotopeGrouperTask.java:175-242 | The first turn appends A's grouped row and nulls all three slots. |
| Scenarios.ThreeGroupIntoOne | src/net/sf/mzmine/modules/peaklistmethods/isotopes/deisotoper/IsotopeGrouperTask.java:170-244 | The whole pass over A, B and C yields a single row with A's ID and a three-point pattern of charge 1. |
| Scenarios.LoneSeedKeepsRow | src/net/sf/mzmine/modules/peaklistmethods/isotopes/deisotoper/IsotopeGrouperTask.java:207-211 | A peak with no isotopes in range keeps its original row and stays in the array. |
| Scenarios.CandidatesOfTwo | src/net/sf/mzmine/modules/peaklistmethods/isotopes/deisotoper/IsotopeGrouperTask.java:327-353 | On the two-peak array the candidates are the qualifying peaks in array order. |
| Scenarios.XStandsAlone | src/net/sf/mzmine/modules/peaklistmethods/isotopes/deisotoper/IsotopeGrouperTask.java:277-388 | The taller peak X finds no isotope. |
| Scenarios.YTakesX | src/net/sf/mzmine/modules/peaklistmethods/isotopes/deisotoper/IsotopeGrouperTask.java:277-388 | The shorter peak Y, one isotope distance below X, fits X as its first isotope. |
| Scenarios.TwoFirstStep | src/net/sf/mzmine/modules/peaklistmethods/isotopes/deisotoper/IsotopeGrouperTask.java:203-211 | X keeps its own row and is not removed from the array. |
| Scenarios.TwoConsumed | src/net/sf/mzmine/modules/peaklistmethods/isotopes/deisotoper/IsotopeGrouperTask.java:235-239 | Consuming Y's group nulls both slots. |
| Scenarios.LoneSeedLaterGrouped | src/net/sf/mzmine/modules/peaklistmethods/isotopes/deisotoper/IsotopeGrouperTask.java:170-244 | A lone seed is not consumed, so a later, shorter seed can take it into its group. X then appears both in its own row and in Y's pattern. |

## Left out

- Reading the parameters in the constructor (lines 84-103) is not part of
  this model. The task receives a `Params` value and a peak-to-row lookup
  `rowOf` instead.
- Creating the new peak list and looking up the raw data file are not
  modelled. The rows are a sequence field.
- Adding the list to the project, copying the applied-methods history,
  adding the task description and removing the original list (lines
  246-262) become one `published` flag.
- The peak list, peak, row, data point and pattern classes are not part of
  this model. They are stood in for by datatypes with only the fields the
  grouper reads or sets. Copying row properties is modelled as copying a
  `properties` sequence.
- The pattern's description is `aPeak.toString()`. The model records the
  seed's id instead.
- Sorting by PeakSorter is not modelled. The array handed to `Run` must be
  height-sorted with every slot filled (`SortedByHeight`).
- Logging, `getTaskDescription`, `getStatus`, `getErrorMessage` and
  `getCreatedObjects` are not modelled. The Error status exists but is
  never set, as in the source.
- Concurrency is not modelled. A cancel from another thread is an oracle
  `cancelSeen` that is polled at every loop head.
- IEEE double rounding is not modelled. m/z, RT, heights and tolerances are
  exact reals, so the tolerance test near an interval boundary can differ
  from the floating-point result.
- Run: requires maximumCharge >= 1. With a smaller value the source fails
  on the empty charge array or the null best set, and that failure is not
  modelled.
- SelectCharge: proved against a ghost table `fits` of the pattern fitted
  for each charge, pinned to `Fit` by its precondition. `Run` and
  `GroupSeed` similarly take the ghost fitter `fit`. These are proof
  devices and do not appear in the source.
- FitPattern: the source adds to a shared `Vector` in place. The model
  returns the extended sequence, so aliasing of the vector is not captured.
- FitHalfPattern: the expected offset is computed as a repeated sum of
  direction * isotopeDistance / charge. `ShiftFormula` proves it equal to
  the source's product formula.
- Run: nothing is claimed about every peak landing in exactly one row. The
  source keeps a lone seed in the pool, and a later seed may then take it
  into its group, as shown by `LoneSeedLaterGrouped`.
