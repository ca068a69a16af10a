# Verified model of the IQA replay, drift and promotion logic

This project models the decision logic of the image-quality-assurance platform in Dafny and proves what that logic
guarantees over whole runs. It follows the data path of the platform:

1. **Splitting the replay.** Good pieces are allotted to source classes by largest remainder, picked evenly over time,
   and removed from the training replay (`Apportionment`, `SpreadSampling`, `HoldoutSplit`, `PlanRows`).
2. **Replaying it.** Events stream in, lots close when the lot id changes, a closed lot may train a candidate, a gate
   compares it with the active model, and a promoted candidate decides on the following events (`ReplayLifecycle`,
   `LifecycleRuns`, `RunHistory`, `RunLength`, `LifecycleRunner`, `LifecycleChains`, `GateRuns`, `PromotionGate`,
   `MetricGates`, `PolicyCycles`, `Calibration`).
3. **Watching for drift.** A balanced stable baseline, then P4 rows, are replayed in windows; a latch confirms drift from
   ROI-mask novelty or from consecutive degraded windows, and correction manifests are cut from the stable rows
   (`RoundRobin`, `DriftObservation`, `DriftRunner`, `DriftReports`, `DriftLatch`, `RoiNovelty`, `OrderStatistics`,
   `CorrectionManifests`, `DriftRows`).
4. **Exporting it.** Sparse samples become a dense series on a 30 s grid, promotion counters are rebuilt from cycle
   records, labels are printed as OpenMetrics text (`SeriesHold`, `ScrapeSeries`, `PromotionCounters`, `LabelText`).
5. **Closing the loop.** The API's prediction and feedback stores under any interleaving of requests (`FeedbackStore`,
   `FeedbackHistory`).

`ReplayEvents`, `Sorting`, `Groups` and `Arithmetic` hold what the others share: processed events, Python's stable sort,
dictionaries of lists in insertion order, and a few facts about products and quotients.

Code that updates state is written as classes, methods and loops (`LotAccumulator`, `CycleState`, `RunCycle`,
`DriftWindow`, `RoiMaskReference`, `RunObservation`, `BalancedBaselineRows`, `Api`, `LifecycleMetrics`, the hold, fill,
apportionment and split loops). Each method's `ensures` equates its result or new state with a specification function,
and the lemmas are proved about those functions. Many of them (all of `RunHistory`, `RunLength`, `DriftReports` and
`FeedbackHistory`) say what a run leaves behind in terms of its inputs and records alone: rows, decisions, samples,
requests and answers. Inference, training, evaluation and, outside the lemmas about single scenarios, the lifecycle decision
are arbitrary functions, so every statement holds whatever they answer.

Floating-point numbers are modelled as exact reals, quotas and rounded indexes as exact integers, timestamps as integer
milliseconds. Python's `//` is only applied with a positive divisor, where it agrees with Dafny's `/`.

## What turned out to be conditional

Some statements one would expect of the code hold only under a condition. The condition is proved, exactly wherever the list
says "if and only if", and an input that breaks the unconditional statement is given.

- **Lots and `max_lots`.** When a run is cut by `max_lots`, the lot that was just finalised is still the current lot and is
  finalised again after the loop. What a caller can check beforehand: whatever inference, training and the lifecycle answer,
  finalised lots are exactly the runs of equal lot ids if and only if the admitted rows hold no more lots than allowed, or only
  one (`LotsConservedIff`). For a single run a stop by a cycle is the other way out (`LotConservation`);
  `LotLimitFinalizesTwice` is a two-row run that finalises a lot twice.
- **Promotion chain.** The chain can hold the same version twice, exactly when the run starts from a registered model that
  bears the name of a candidate the run promotes (`ChainRepeatsOnlyInitial`). What a caller can check beforehand: an initial
  version that is no candidate name never repeats (`ForeignVersionNeverRepeats`), and in a progressive dual-promotion run
  without event or lot limit no world and no rows give a repetition if and only if the initial version is not the name of a
  cycle within `max_cycles` (`ChainNeverRepeatsIff`; `StartingFromOwnCandidateRepeats` builds the run for every such name).
- **Promotion policies: decision models.** Two different decision models calibrated on one panel can be promoted over each
  other if and only if the policy is not `Acyclic` (`AcyclicExactly`). Under an acyclic policy no decision model ever returns
  (`NoModelReturns`, `NoCheckpointReturns`); under every other one there are a panel and two score lists
  (`OtherPoliciesCycle`; with equal metrics where a margin is negative) with which a run swaps the two checkpoints at every
  lot, for as long as it goes on (`SwapsForEver`).
- **Promotion policies: localization models.** The localization gate of dual promotion compares one pixel metric, but under the
  P4 objective fewer false negatives pass it at any cost in pixel metrics. Two localization models of one panel can be promoted
  over each other if and only if the margin is negative, or, under the P4 objective, below 1 (`LocalizationAcyclicExactly`);
  then a run swaps them at every lot (`LocalizationSwapsForEver`), even under a policy that is `Acyclic` for decision models.
  Otherwise no localization checkpoint returns (`NoLocalizationCheckpointReturns`), and without the P4 objective and with a
  positive margin their number is bounded (`LocalizationsBounded`).
- **Promotion policies: the single gate.** Without dual promotion two models of one panel can be promoted over each other if
  and only if the margin is negative and good-red may stay the same (`ReferenceAcyclicExactly`,
  `NoReferenceCheckpointReturns`).
- **Models that lack a metric.** Both of these gates decide by the first metric that the two models have. Where models may lack
  different metrics, three of them can be promoted in a circle by the localization gate for every margin below 1, and by the
  single gate too unless good-red must fall (`LocalizationCircle`, `ReferenceCircle`); with a margin of 1 none comes back
  (`MixedLocalizationExactly`, `MixedReferenceExactly`).
- **Calibration.** Exactly n − ⌈(n−1)q⌉ good scores reach the q-quantile if and only if the scores are not tied at that rank;
  otherwise more do (`ScoresReachingQuantile`).
- **Backfilled counters.** A backfilled counter is non-decreasing in time if and only if the cycles that report its status
  are in chronological order (`CounterMonotoneIffChronological`). It ends at the live counter's value if and only if the
  position of the latest report equals the number of distinct cycle ids: when ids are distinct, if and only if the last
  report listed is a latest one; when reports are chronological, if and only if ids are distinct (`BackfillMatchesLive`).
  Two cycles reported out of order end at 1 while the live counter is 2 (`OutOfOrderBackfillEndsLow`).
- **Live counters.** A live counter is the number of distinct cycles whose first report of the status, among all scenarios
  that use the run id, came from its own scenario (`LiveCountsFirstReports`), because the set of reports already seen leaves
  out the scenario. Where no other scenario uses the run id it counts the cycles that reported (`LiveCountsCycles`); a scenario
  that reuses one is not counted for the cycles reported before (`SharedRunIdIsNotCounted`).
- **Correction manifests.** A bucket's training anchors and evaluation rows are disjoint if and only if the bucket starts with
  enough good rows or no good row is evaluated; with two stable rows of one bucket, a defective one first, the manifests
  train and evaluate on the same row (`AnchorIsEvaluated`).
- **Windows of one event.** The mixed window of a short drift observation is partly stable if and only if windows hold at least
  two events (`MixedWindowShare`); with windows of one event an observation can confirm drift at window m + 1, one earlier
  than `ShortObservationNotBefore` allows longer windows (`SingletonWindowConfirmsEarlier`).
- **Drift score.** A critical window has drift score 1 if and only if its ROI score is 0 or its ROI signals are all reached; a
  small ROI score hides a fully degraded window (`CriticalWindowFullScoreIff`, `ConfirmedWindowWithLowScore`).
- **Reported drift status.** It agrees with the lifecycle trigger if and only if the run is not cut inside a first window that
  would itself confirm drift (`StatusAgreesIff`). With `confirm_windows` at least 2 and a positive novelty threshold, as by
  default, it always agrees (`StatusAgreesWithTrigger`); where one window is enough, a run of one red P4 event reports
  `confirmed` and triggers nothing (`PartialWindowConfirmsWithoutTrigger`).
- **References by view.** Once a view has something to compare with, storing more events moves none of its masks away if and
  only if the view has references of its own, or gets none, or gets every mask of the fallback list it used before
  (`StoringBringsCloserIff`); `FirstViewReferenceCanMoveAway` is an input where it gets another one.
- **Larger holdouts.** Asking for one more good piece lowers the target of a class if and only if the floor of its quota stays
  and it loses the extra piece it had (`TargetFallsIff`). That takes two larger classes that gain one each
  (`FallingClassIsSmaller`), so no total lowers the target of a class with at most one larger class (`LargeClassesNeverFall`),
  nor any target with one or two classes; 11 pieces instead of 10 do lower the smallest of three (`LargerTotalSmallerTarget`).

Where code and documentation disagree, the model follows the code. The docstring of
`_ordered_p4_rows_for_drift_detection` (scripts/prepare_piece_b_to_piece_a_p4_drift_scenario.py:235-242) counts on a first
drift window that mixes 12 stable and 18 P4 events, but the baseline is truncated to whole windows, so no window of the
full scenario is mixed (`BaselineLeavesNoMixedWindow`).

## Model

| member | source | states |
|---|---|---|
| Apportionment.TargetsSumToTotal | scripts/build_replay_holdout_split.py:69-78 | the class targets add up to the requested total, for any positive class counts |
| Apportionment.TargetWithinQuota | scripts/build_replay_holdout_split.py:72-77 | each target is less than one away from its exact quota (its floor or ceiling), and never exceeds the class count when the total is at most the observed rows |
| Apportionment.WinnersHaveFractions | scripts/build_replay_holdout_split.py:74-77 | only classes whose quota has a fractional part get an extra piece |
| Apportionment.TargetsAreClosest | scripts/build_validation_gate_v2.py:61-72 | no other integer allocation with the same sum is closer to the quotas in total distance |
| Apportionment.ExtraPieceRule | scripts/build_replay_holdout_split.py:74-77 | each class gets the floor of its exact quota or one piece more; one with an extra piece has a larger fraction than one without, or the same and was seen first |
| Apportionment.LargerTotalSmallerTarget | scripts/build_replay_holdout_split.py:72-77 | counter-example to monotonicity: 10 pieces over counts 6, 6, 2 give the third class 2, 11 pieces give it 1 |
| Apportionment.TargetFallsIff | scripts/build_replay_holdout_split.py:72-77 | one more piece lowers a class target if and only if the class keeps its floor and loses its extra piece |
| Apportionment.FallingClassIsSmaller | scripts/build_replay_holdout_split.py:72-77 | a class target falls only if two classes with larger counts each gain one piece |
| Apportionment.LargeClassesNeverFall | scripts/build_replay_holdout_split.py:72-77 | a larger total never lowers the target of a class that at most one class exceeds in count |
| Apportionment.TwoClassesNeverFall | scripts/build_replay_holdout_split.py:72-77 | with at most two classes a larger total never lowers a target |
| Apportionment.ObservedTotal | scripts/build_replay_holdout_split.py:70-71 | the class counts add up to the number of good rows |
| Apportionment.CountGoodRows | scripts/build_replay_holdout_split.py:70 | the counting loop builds the counter of good rows per class in order of first appearance |
| Apportionment.GoodTargets | scripts/build_replay_holdout_split.py:69-78 | the loop that awards the remainder computes the largest-remainder targets |
| PlanRows.CountGoodCounts | scripts/build_replay_holdout_split.py:70 | the counter holds for every class the number of its good rows |
| SpreadSampling.RoundingError | scripts/build_replay_holdout_split.py:65 | half-even rounding of a fraction moves it by at most one half |
| SpreadSampling.PickGap | scripts/build_replay_holdout_split.py:65 | consecutive picks are floor or ceiling of (n−1)/(target−1) apart, and at least 1 |
| SpreadSampling.PickIndexesRounded | scripts/build_replay_holdout_split.py:65 | sorting the rounded positions changes nothing |
| SpreadSampling.PickIndexesIncrease | scripts/build_replay_holdout_split.py:65 | the rounded, sorted indexes are strictly increasing, in range, start at 0 and end at n−1 |
| SpreadSampling.SpreadSelectionSize | scripts/build_replay_holdout_split.py:57-66 | exactly min(max(target, 0), n) rows are picked, none more often than it occurs |
| SpreadSampling.SpreadSelectionOrdered | scripts/build_replay_holdout_split.py:58-66 | picked rows are in time order |
| SpreadSampling.SpreadSelectionSpansTime | scripts/build_replay_holdout_split.py:57-66 | with target at least 2 the picks include an earliest and a latest row |
| SpreadSampling.PicksNearest | scripts/build_replay_holdout_split.py:65-66 | pick k is the row of the time order whose position is nearest to k (n−1)/(target−1), a half going to the even position |
| SpreadSampling.SinglePickIsMiddle | scripts/build_replay_holdout_split.py:63-64 | a single pick is a median row: at most half of the class is earlier, fewer than half of it later |
| SpreadSampling.SpreadSelect | scripts/build_replay_holdout_split.py:57-66 | the selection, branch by branch, computes the specified picks |
| HoldoutSplit.HoldoutContents | scripts/build_replay_holdout_split.py:81-91 | with enough good rows the holdout has exactly the requested number of good rows, min(target, available) defects of each listed class, and no row more often than the replay |
| HoldoutSplit.OnlyListedDefects | scripts/build_replay_holdout_split.py:87-88 | a held-out defect belongs to a class with a defect target |
| HoldoutSplit.HoldoutPicks | scripts/build_replay_holdout_split.py:87-90 | the rows held out of a class and label are those the evenly spread selection picks for its target |
| HoldoutSplit.HoldoutOrder | scripts/build_replay_holdout_split.py:91 | good rows come before defects, classes in name order, rows of a class by timestamp |
| HoldoutSplit.SplitPartitionsReplay | scripts/build_replay_holdout_split.py:152-159 | with distinct source ids, training rows and holdout are disjoint and together are the replay |
| HoldoutSplit.FilterKeepsOrder | scripts/build_replay_holdout_split.py:156-159 | training rows keep the order of the replay |
| HoldoutSplit.GroupByClassLabel | scripts/build_replay_holdout_split.py:82-84 | the grouping loop gives every class and label its rows, in order |
| HoldoutSplit.SelectHoldoutRows | scripts/build_replay_holdout_split.py:81-91 | the loops over defect and good targets collect the specified holdout |
| HoldoutSplit.TrainRows | scripts/build_replay_holdout_split.py:154-159 | the remaining rows are numbered 1, 2, … in replay order |
| HoldoutSplit.BuildSplit | scripts/build_replay_holdout_split.py:145-166 | the whole split: holdout, numbered training rows, and the partition of the replay |
| ReplayLifecycle.RunsAreMaximal | scripts/run_replay_lifecycle_cycle.py:994-1010 | the runs of equal lot ids partition the events in order and cannot be extended |
| ReplayLifecycle.CandidateNamesDiffer | scripts/run_replay_lifecycle_cycle.py:1757 | different cycle numbers give different candidate versions, padding included |
| LifecycleRuns.FinalizedLots | scripts/run_replay_lifecycle_cycle.py:989-1040 | the finalised lots of any run are the maximal runs of its events, plus the last one again when `max_lots` cut it |
| LifecycleRuns.LotLimitFrom | scripts/run_replay_lifecycle_cycle.py:1007-1008 | a run that no cycle stops is cut by `max_lots` exactly when the admitted rows hold more than one lot and more lots than allowed |
| LifecycleRuns.LotConservation | scripts/run_replay_lifecycle_cycle.py:989-1040 | finalised lots are exactly the maximal runs if and only if a cycle stopped the run or the rows stay within `max_lots` |
| LifecycleRuns.LotsConservedIff | scripts/run_replay_lifecycle_cycle.py:989-1040 | whatever inference, training and the lifecycle answer, every lot is finalised exactly once if and only if `max_lots` is not below the number of lots among the admitted rows, or they hold one lot |
| LifecycleRuns.LotConservationWithoutLimit | scripts/run_replay_lifecycle_cycle.py:989-1040 | with `max_lots` unset every processed event lies in exactly one finalised lot, with its counts, for any decision function |
| LifecycleRuns.LotLimitFinalizesTwice | scripts/run_replay_lifecycle_cycle.py:1007-1008 | counter-example: two lots and `max_lots` 1 finalise one lot twice |
| LifecycleRuns.ConformingConserved | scripts/run_replay_lifecycle_cycle.py:1357-1358 | conforming pieces counted by lots are those seen, and those before the last cycle are exactly the ones cycles consumed |
| LifecycleRuns.ModelHandOver | scripts/run_replay_lifecycle_cycle.py:1495-1514 | event i is what inference answers for row i and the whole runtime of the last promoting cycle activated at or before it: its name, its checkpoint and the thresholds calibrated for that checkpoint by the gate in force; the run ends with that runtime and with the last promoted localization runtime, and both chains list one entry per promotion |
| LifecycleRuns.PromotedModelsAreCalibrated | scripts/run_replay_lifecycle_cycle.py:2626-2636 | a run that starts with calibrated thresholds never decides without |
| RunHistory.LotCountsExact | scripts/run_replay_lifecycle_cycle.py:175-190 | the counts of a lot are those of its events: conforming, other and ROI-rejected pieces, and each decision |
| RunHistory.LotDecisions | scripts/run_replay_lifecycle_cycle.py:1350-1389 | over every run, lot k was decided with the conforming pieces since the last trigger, confirmed drift exactly in the drift extension or in the P4 scenario with drift confirmed externally and `lifecycle_interval` events processed, and its share of failed ROIs; one cycle per trigger in the progressive modes, active from the event after its lot on |
| RunHistory.CyclesTrained | scripts/run_replay_lifecycle_cycle.py:1480-1633 | every cycle was trained on the events up to its lot from the models active then, and each role is promoted exactly when its gate passes against the model active in it |
| RunHistory.P4WithoutDriftIsQuiet | src/iqa/monitoring/lifecycle.py:72-87 | in the P4 scenario without an externally confirmed drift no lot triggers, no cycle runs and every event is decided by the initial model |
| RunHistory.P4WithDriftTriggersIff | scripts/run_replay_lifecycle_cycle.py:1359-1370 | with a confirmed drift a lot of the P4 scenario triggers if and only if `lifecycle_interval` events were processed when it closed |
| RunHistory.DriftExtensionTriggers | scripts/run_replay_lifecycle_cycle.py:1364-1370 | in the drift extension every finalised lot triggers |
| RunHistory.NaturalTriggersIff | src/iqa/monitoring/lifecycle.py:56-70 | in a natural scenario a lot triggers if and only if `lifecycle_interval` conforming pieces came since the last trigger |
| RunHistory.UnsupportedScenarioIsQuiet | src/iqa/monitoring/lifecycle.py:89-96 | in any other scenario no run trains or hands over anything |
| RunLength.RowsProcessed | scripts/run_replay_lifecycle_cycle.py:989-1040 | every run processes the rows `max_events` admits, up to the end of the first lot that halts it: the `max_lots`-th, the first to trigger in a mode without cycles, or the `max_cycles`-th to trigger; there the next row starts another lot |
| LifecycleRuns.VersionsChangeBetweenLots | scripts/run_replay_lifecycle_cycle.py:995-1023 | consecutive events of one lot are decided by one model version |
| LifecycleRuns.ChainRepeatsOnlyInitial | scripts/run_replay_lifecycle_cycle.py:1496 | the promotion chain has no duplicates if and only if the initial version is not the name of a candidate the run promoted |
| LifecycleRuns.ForeignVersionNeverRepeats | scripts/run_replay_lifecycle_cycle.py:1757 | a run that starts from a version which is no candidate name lists no version twice, in any world |
| LifecycleChains.StartingFromOwnCandidateRepeats | scripts/run_replay_lifecycle_cycle.py:1480-1514 | counter-example for every cycle number within `max_cycles`: started from the model of that candidate name, a run lists the name twice |
| LifecycleChains.ChainNeverRepeatsIff | scripts/run_replay_lifecycle_cycle.py:1496 | in a progressive dual-promotion run without event or lot limit no world and no rows repeat a version if and only if the initial one is not the name of a cycle within `max_cycles` |
| LifecycleRuns.CyclesBounded | scripts/run_replay_lifecycle_cycle.py:1744-1745 | a run performs at most `max_cycles` cycles, or one where that is less |
| LifecycleRuns.PromotionsBounded | scripts/run_replay_lifecycle_cycle.py:2608-2636 | when fewer false negatives are required, a run promotes at most FN(initial) − FN(final) times and good-red grows at most by the allowed regression per promotion |
| LifecycleRuns.NoCheckpointReturns | scripts/run_replay_lifecycle_cycle.py:2626-2636 | under every acyclic policy no decision checkpoint becomes active twice in a run |
| LifecycleRuns.CalibratedCheckpointsNeverReturn | scripts/run_replay_lifecycle_cycle.py:2221-2254 | so it is when each checkpoint's gate metrics are those of its own calibrated scores, on panels with the same number of defects |
| LifecycleChains.SwapsForEver | scripts/run_replay_lifecycle_cycle.py:2608-2636 | under every policy that is not acyclic, a run promotes two calibrated models over each other at every lot, however many lots there are |
| GateRuns.NoLocalizationCheckpointReturns | scripts/run_replay_lifecycle_cycle.py:2570-2606 | on one panel, without the P4 objective and with a non-negative margin (or with a margin of 1), no checkpoint becomes the localization model twice in a run |
| GateRuns.LocalizationsBounded | scripts/run_replay_lifecycle_cycle.py:2580-2584 | without the P4 objective the promotions of a run times the margin stay below 1 |
| GateRuns.NoReferenceCheckpointReturns | scripts/run_replay_lifecycle_cycle.py:2839-2892 | without dual promotion, on one panel and with a non-negative margin (or when good-red must fall), no checkpoint becomes the decision model twice |
| LifecycleChains.LocalizationSwapsForEver | scripts/run_replay_lifecycle_cycle.py:2580-2594 | under every other policy, so under the P4 objective with any margin below 1, a run promotes two localization models over each other at every lot |
| LifecycleRuns.NaturalCyclesBounded | src/iqa/monitoring/lifecycle.py:49-70 | under the natural-scenario rule each cycle consumes at least the interval, so cycles × interval + pending pieces is at most the conforming pieces seen |
| LifecycleRunner.LotAccumulator.Add | scripts/run_replay_lifecycle_cycle.py:175-190 | adding an event keeps all counts equal to those of the lot's events |
| LifecycleRunner.CycleState.FinalizeLot | scripts/run_replay_lifecycle_cycle.py:1373-1389 | the totals, the lot record and the decision on it are those of the specified step, whose decisions `RunHistory.LotDecisions` describes |
| LifecycleRunner.CycleState.PromoteDual | scripts/run_replay_lifecycle_cycle.py:1480-1560 | cycle record, chains and both active runtimes, thresholds included, after the dual gate |
| LifecycleRunner.CycleState.PromoteReference | scripts/run_replay_lifecycle_cycle.py:1601-1633 | cycle record, chain and active model after the single reference gate |
| LifecycleRunner.CycleState.HandleLifecycleDecision | scripts/run_replay_lifecycle_cycle.py:1398-1741 | whether the run stops, and the state and model handed on |
| LifecycleRunner.RunCycle | scripts/run_replay_lifecycle_cycle.py:917-1045 | the event loop, with its breaks and the final lot, computes the specified run |
| PromotionGate.RequiredImprovementBoundsChain | scripts/run_replay_lifecycle_cycle.py:2626-2636 | along a promotion chain false negatives fall strictly, and good-red stays within the regression allowed per step |
| PromotionGate.GoodRedBudget | scripts/run_replay_lifecycle_cycle.py:2626-2636 | with a non-negative allowance the chain has at most FN(initial) promotions and the total good-red budget follows |
| PromotionGate.P4PromotionIsBetter | scripts/run_replay_lifecycle_cycle.py:2629-2632 | under the P4 objective each promotion has fewer false negatives, or as many and a higher image AP |
| PromotionGate.ClassificationOnPanel | scripts/run_replay_lifecycle_cycle.py:2608-2636 | on a panel with defects the classification gate is decided by misses, average precision and good-red: with a recall margin that is not negative, a higher recall never promotes what fewer misses would not |
| PromotionGate.NoModelReturns | scripts/run_replay_lifecycle_cycle.py:2626-2636 | under an acyclic policy no metrics occur twice along a chain |
| PolicyCycles.OtherPoliciesCycle | scripts/run_replay_lifecycle_cycle.py:2608-2636 | under every other policy two different score lists on one panel, each with its own calibration, false negatives, good-red and average precision, pass the classification gate in both directions |
| PolicyCycles.AcyclicExactly | scripts/run_replay_lifecycle_cycle.py:2608-2636 | a policy is acyclic if and only if no two different decision models calibrated on one panel pass the classification gate in both directions |
| PolicyCycles.EveryPolicyPromotes | scripts/run_replay_lifecycle_cycle.py:2608-2636 | whatever the policy, some model on some panel replaces another, so no policy excludes every promotion |
| MetricGates.LocalizationRises | scripts/run_replay_lifecycle_cycle.py:2580-2584 | without the P4 objective each localization promotion on one panel raises the deciding pixel metric by more than the margin |
| MetricGates.LocalizationPriority | scripts/run_replay_lifecycle_cycle.py:2570-2606 | localization promotes by AUPIMO where both models have it, else pixel AP, else pixel AUROC; under the P4 objective also by fewer misses; without a shared metric by nothing else |
| MetricGates.ReferencePriority | scripts/run_replay_lifecycle_cycle.py:2839-2892 | the single gate decides by AUPIMO, else pixel AP, image AP, image AUROC, and never promotes with more misses, too many more good-red images, missing thresholds or no shared metric |
| MetricGates.LocalizationAcyclicExactly | scripts/run_replay_lifecycle_cycle.py:2580-2594 | no two localization models calibrated on one panel pass the localization gate in both directions if and only if the margin is non-negative, and at least 1 under the P4 objective |
| MetricGates.MixedLocalizationExactly | scripts/run_replay_lifecycle_cycle.py:3188-3191 | when models may lack different pixel metrics, no localization model comes back if and only if the margin is at least 1 |
| MetricGates.ReferenceRises | scripts/run_replay_lifecycle_cycle.py:2839-2892 | each promotion by the single gate on one panel raises the deciding metric by more than the margin and misses no more defects |
| MetricGates.ReferenceAcyclicExactly | scripts/run_replay_lifecycle_cycle.py:2839-2892 | no two models calibrated on one panel pass the single gate in both directions if and only if the margin is non-negative or good-red must fall |
| MetricGates.ReferenceCircle | scripts/run_replay_lifecycle_cycle.py:3188-3191 | counter-example for every margin below 1 and any non-negative good-red allowance: three calibrated models that lack different metrics are promoted in a circle |
| MetricGates.MixedReferenceExactly | scripts/run_replay_lifecycle_cycle.py:3188-3191 | when models may lack different metrics, no model of the single gate comes back if and only if the margin is at least 1 or good-red must fall |
| PromotionGate.UntiedCandidatePassesGoodRedGuard | scripts/run_replay_lifecycle_cycle.py:2613-2626 | a candidate calibrated on the panel without a tie at the red rank always passes the good-red guard |
| Calibration.QuantilesAgree | scripts/analyze_replay_classification.py:65-76 | the two interpolated-quantile implementations agree on every non-empty list and every q in [0, 1] |
| Calibration.QuantileMonotone | scripts/run_replay_lifecycle_cycle.py:3626-3636 | the quantile does not decrease with q |
| Calibration.QuantileInterpolates | scripts/run_replay_lifecycle_cycle.py:3626-3636 | between two ranks the quantile moves on a straight line from one score to the next |
| Calibration.ScoresReachingQuantile | scripts/run_replay_lifecycle_cycle.py:3605-3606 | at least n − ⌈(n−1)q⌉ scores reach the quantile, exactly that many if and only if there is no tie at that rank |
| Calibration.CalibratedGoodRed | scripts/run_replay_lifecycle_cycle.py:3584-3606 | calibrated thresholds are ordered, and the number of good images called red follows from the number of good images unless scores tie |
| Calibration.CalibratedShares | scripts/run_replay_lifecycle_cycle.py:3584-3606 | of n good images 1 + ⌊(n−1)/100⌋ turn red and 1 + ⌊(n−1)/20⌋ reach orange, exactly that many if and only if the scores are not tied at that rank |
| Calibration.SamePanelGoodRedDelta | scripts/run_replay_lifecycle_cycle.py:2613-2615 | two models calibrated on one panel have good-red delta 0 if and only if the active one is untied too, and never above 0 |
| Calibration.PanelCounts | src/iqa/training/feature_ae_evaluation.py:236-249 | false negatives are the defects below the orange threshold, good-red images the good ones from the red threshold on |
| Calibration.RecallFromFalseNegatives | scripts/run_replay_lifecycle_cycle.py:3207-3220 | image recall is 1 − false negatives / defects, 1 on a panel without defects |
| Calibration.AveragePrecisionRange | src/iqa/training/feature_ae_evaluation.py:181-185 | the average precision of a ranking lies in [0, 1] where it is defined |
| Calibration.PerfectRankingIff | src/iqa/training/feature_ae_evaluation.py:181-185 | average precision is 1 if and only if every defect scores above every good image, so a tie costs |
| OrderStatistics.OrderStatisticLipschitz | scripts/run_drift_observation_replay.py:103 | each order statistic moves at most as much as the data |
| OrderStatistics.MedianLipschitz | scripts/run_drift_observation_replay.py:103 | the median moves at most as much as the data |
| OrderStatistics.MedianSplits | scripts/run_drift_observation_replay.py:103 | at most half of the values lie below the median and at most half above; it is one of the values for an odd number of them and half-way between two middle ones otherwise |
| RoiNovelty.JaccardRange | scripts/run_drift_observation_replay.py:657-659 | the Jaccard distance lies in [0, 1] |
| RoiNovelty.JaccardSymmetric | scripts/run_drift_observation_replay.py:657-659 | it is symmetric |
| RoiNovelty.JaccardZeroIffEqual | scripts/run_drift_observation_replay.py:657-659 | it is 0 if and only if the masks are equal, empty masks included |
| RoiNovelty.JaccardTriangle | scripts/run_drift_observation_replay.py:657-659 | it satisfies the triangle inequality |
| RoiNovelty.JaccardCounts | scripts/run_drift_observation_replay.py:657-659 | it is the share of the positions set in either mask that are not set in both, 0 of nothing |
| RoiNovelty.NearestIsMinimum | scripts/run_drift_observation_replay.py:660 | the nearest distance is attained and bounds the distance to every reference |
| RoiNovelty.NearestLipschitz | scripts/run_drift_observation_replay.py:654-660 | nearest distances of two masks differ by at most their distance |
| RoiNovelty.NearestZeroIffKnown | scripts/run_drift_observation_replay.py:654-660 | the nearest distance is 0 if and only if the mask is a reference |
| RoiNovelty.NearestJaccardDistance | scripts/run_drift_observation_replay.py:654-660 | the accumulation loops compute the nearest distance, 0 without references |
| RoiNovelty.StoreContents | scripts/run_drift_observation_replay.py:78-83 | after any events each view holds exactly its masks in order, and the flat list loses none |
| RoiNovelty.NeverFartherIff | scripts/run_drift_observation_replay.py:654-660 | no mask is farther from a new reference list if and only if the new list loses no reference |
| RoiNovelty.StoringBringsCloserIff | scripts/run_drift_observation_replay.py:109-113 | storing events moves no mask of a view away if and only if the view had references, gets none, or gets the whole fallback list it used |
| RoiNovelty.FirstViewReferenceCanMoveAway | scripts/run_drift_observation_replay.py:109-113 | counter-example: the first reference of a view replaces the fallback list |
| RoiNovelty.WindowDistanceLipschitz | scripts/run_drift_observation_replay.py:85-107 | the reported median distance of a window is 1-Lipschitz in its masks |
| RoiNovelty.KnownWindowIsNotNovel | scripts/run_drift_observation_replay.py:85-107 | a window of known masks reports distance 0 and novelty rate 0 |
| RoiNovelty.RoiMaskReference.AddEvents | scripts/run_drift_observation_replay.py:78-83 | the loop stores the masks of all events by view |
| RoiNovelty.RoiMaskReference.Metrics | scripts/run_drift_observation_replay.py:85-107 | the loop computes the specified window metrics and changes nothing |
| DriftLatch.ConfirmationLatches | scripts/run_monitoring.py:165-168 | once a window is confirmed, every later window is confirmed with status confirmed |
| DriftLatch.CounterIsCriticalRun | scripts/run_monitoring.py:162-163 | the critical counter is the length of the run of windows reported critical that ends there, override included |
| DriftLatch.ConfirmedIffTriggered | scripts/run_monitoring.py:138-168 | a window is confirmed if and only if it or an earlier one is ROI-critical, or ends at least `confirm_windows` consecutive legacy-critical windows with domain ratio at least 0.8 |
| DriftLatch.FirstConfirmationIsTrigger | scripts/run_drift_observation_replay.py:390-396 | the first confirmation is such a trigger itself |
| DriftLatch.OverrideKeepsRoiCritical | scripts/run_drift_observation_replay.py:390-395 | the domain override never changes the evaluation of an ROI-critical window |
| DriftLatch.ClearWindowResets | scripts/run_monitoring.py:163-168 | a window reported critical is suspected, and a clear window resets the counter |
| DriftLatch.ScoreRatio | scripts/run_monitoring.py:102-105 | a score ratio lies in [0, 1], is 1 exactly from the critical value on and 0 exactly up to 0 |
| DriftLatch.ScoreRange | scripts/run_monitoring.py:169-181 | the ROI score and the drift score lie in [0, 1] |
| DriftLatch.FullScoreIff | scripts/run_monitoring.py:169-181 | the drift score is 1 if and only if the ROI signals are reached, or the ROI score is 0 and the window is mostly P4 and degraded |
| DriftLatch.CriticalWindowFullScoreIff | scripts/run_monitoring.py:160-181 | when a critical window has the full score |
| DriftLatch.ConfirmedWindowWithLowScore | scripts/run_monitoring.py:180-181 | counter-example: the second of two fully degraded P4 windows is confirmed with drift score 0.0125 under the default thresholds |
| DriftObservation.SelectionIsTwoRuns | scripts/run_drift_observation_replay.py:569-597 | a short observation replays the first stable rows it asks for, then the first P4 rows, and fails exactly when no P4 row is selected |
| DriftObservation.MixedWindowShare | scripts/run_drift_observation_replay.py:585-586 | the mixed window has at least one P4 row and fewer than four fifths, the latter if and only if windows hold two or more |
| DriftObservation.SelectionFillsWindowsIff | scripts/run_drift_observation_replay.py:584-591 | the selection fills exactly m + d windows if and only if there are enough stable and P4 rows |
| DriftObservation.SelectionUsesRowsOnce | scripts/run_drift_observation_replay.py:569-597 | no row is selected more often than the plan lists it |
| DriftObservation.WindowsPartition | scripts/run_drift_observation_replay.py:213-229 | every event lies in exactly one window, in order; only the last window can be short |
| DriftObservation.SelectionLinesUpWithWindows | scripts/run_drift_observation_replay.py:569-597 | with enough rows the run has m pure stable windows, one mixed window, then all-P4 windows, all complete |
| DriftObservation.WindowMetricsConsistent | scripts/run_drift_observation_replay.py:60-68 | the domain ratio of any window is its P4 count over its size |
| DriftObservation.WindowRates | scripts/run_drift_observation_replay.py:40-68 | every rate of a window lies in [0, 1] and the red rate is at most the alert rate |
| DriftObservation.ReferencesFreezeInDrift | scripts/run_drift_observation_replay.py:228 | all-P4 windows never enter the reference store, so drifted windows are all compared with the same references |
| DriftObservation.FirstConfirmedIsFirstTrigger | scripts/run_drift_observation_replay.py:248-260 | the reported first confirmed index is the first complete window that triggers, none exactly when none does |
| DriftObservation.EarliestConfirmation | scripts/run_drift_observation_replay.py:390-396 | after m stable windows and a mixed one no window before m + 2 is confirmed, and by degradation alone none before m + 1 + `confirm_windows` |
| DriftRunner.SingletonWindowConfirmsEarlier | scripts/run_drift_observation_replay.py:585-586 | counter-example: an observation in windows of one event confirms at window m + 1 |
| DriftRunner.LifecycleTriggeredIffTrigger | scripts/run_drift_observation_replay.py:248-299 | a lifecycle is triggered if and only if a first confirmed window is named, and it is the first trigger of the processed events |
| DriftRunner.ShortObservationNotBefore | scripts/run_drift_observation_replay.py:192-260 | end to end: a short observation names no window before m + 2, whatever inference answers and wherever `max_events` stops it |
| DriftRunner.StatusAgreesIff | scripts/run_drift_observation_replay.py:248-261 | the reported status is confirmed exactly when a lifecycle is triggered, if and only if the run is not cut inside a first window that would itself trigger |
| DriftRunner.StatusAgreesWithTrigger | scripts/run_drift_observation_replay.py:248-261 | with `confirm_windows` at least 2 and a positive novelty threshold they agree in every run |
| DriftRunner.PartialWindowConfirmsWithoutTrigger | scripts/run_drift_observation_replay.py:248-261 | counter-example where one window is enough: one red P4 event in windows of two is reported confirmed and triggers nothing |
| DriftRunner.CloseWindow | scripts/run_drift_observation_replay.py:351-430 | finalising a window extends the reports, the latch and the references as specified; `DriftReports.ReportedWindow` says what is reported |
| DriftReports.RatesCount | scripts/run_drift_observation_replay.py:40-68 | which events every rate of a window counts: P4 share, alerts (orange or red), red, red conforming, green defective and ROI failures |
| DriftReports.NoveltyCounts | scripts/run_drift_observation_replay.py:85-107 | the novelty rate is the share of masks at least the threshold away from every reference, among those compared; the area ratio is a median |
| DriftReports.ReferencesHold | scripts/run_drift_observation_replay.py:228 | a window is compared with the masks of all events outside P4 in the windows before it, view by view, in order |
| DriftReports.StatusExactly | scripts/run_monitoring.py:138-168 | a window is confirmed if and only if it or an earlier one triggered, and otherwise suspected exactly when it has enough events and reaches the novelty or the domain threshold |
| DriftReports.TriggerExactly | scripts/run_monitoring.py:138-168 | a window triggers if and only if it has enough events, all of P4, with new masks that are far away or of unusual area, or ends at least `confirm_windows` consecutive windows of enough events, at least four fifths P4 and with a rate at its threshold |
| DriftReports.ReportedWindow | scripts/run_drift_observation_replay.py:390-430 | the same for the reported windows, numbered from 1 and complete exactly when full |
| DriftReports.ShortWindowIsClear | scripts/run_monitoring.py:138-168 | a window shorter than `min_window_events` is clear while nothing is confirmed |
| DriftReports.FullP4WindowIsSuspected | scripts/run_monitoring.py:160-164 | a window of enough events, all P4, is at least suspected when the domain threshold is at most 1 |
| DriftReports.CalmObservation | scripts/run_drift_observation_replay.py:157-322 | an observation without P4 events and without new masks has every window clear, was never suspected and ends clear, for positive thresholds |
| DriftReports.UnchangedMasksAreCalm | scripts/run_drift_observation_replay.py:85-113 | so it is when every mask is the same one and no event is of P4 |
| DriftReports.SummaryExactly | scripts/run_drift_observation_replay.py:248-263 | the run was suspected if and only if a complete window looked suspicious; unconfirmed, it has the status of its last complete window; the context rows are the processed P4 rows in order |
| DriftRunner.ReplayWindows | scripts/run_drift_observation_replay.py:183-246 | the window loop reports exactly the windows of the processed events, the partial one marked incomplete |
| DriftRunner.RunObservation | scripts/run_drift_observation_replay.py:157-322 | the run, with its two error cases, computes the specified summary |
| CorrectionManifests.BucketChoice | scripts/run_drift_observation_replay.py:558-562 | at most three existing buckets are used, none twice, and every preferred bucket that exists is used |
| CorrectionManifests.BucketOrder | scripts/run_drift_observation_replay.py:558-562 | the buckets used are the first min(3, all) among those of the rows, preferred ones in their listed order and then the others by name |
| CorrectionManifests.ManifestBlocks | scripts/run_drift_observation_replay.py:516-532 | each bucket used fills one block of either manifest, in that order, the evaluation manifest starting with the context rows, and the reported counts are the block lengths |
| CorrectionManifests.ReportedCounts | scripts/run_drift_observation_replay.py:535-548 | per-bucket counts add up to the manifest sizes and respect the limits N and M |
| CorrectionManifests.RowsAtPositions | scripts/run_drift_observation_replay.py:520-531 | anchor i is the row at the i-th good position of its bucket, evaluation row i the one at position used + i |
| CorrectionManifests.ManifestsDisjointIff | scripts/run_drift_observation_replay.py:520-531 | anchors and evaluation rows of a bucket share no position if and only if its first `used` rows are good or no evaluated row is |
| CorrectionManifests.BaselineBucketsDisjoint | scripts/prepare_piece_b_to_piece_a_p4_drift_scenario.py:126-130 | they never do when the scenario builder's filter kept every row and rows have an explicit defect flag |
| CorrectionManifests.AnchorIsEvaluated | scripts/run_drift_observation_replay.py:508-548 | counter-example: for one good context row and two stable rows of one bucket, a defective one and then a good one, the manifests hold the good one both as anchor and as evaluation row |
| CorrectionManifests.BalancedContextManifests | scripts/run_drift_observation_replay.py:508-548 | the loops over the buckets write the specified manifests and counts |
| RoundRobin.BalancedPermutes | scripts/prepare_piece_b_to_piece_a_p4_drift_scenario.py:144-156 | before truncation the baseline is a permutation of the good conforming rows |
| RoundRobin.BaselineHolds | scripts/prepare_piece_b_to_piece_a_p4_drift_scenario.py:126-130 | before truncation the baseline holds exactly the rows that neither label, flag nor oracle verdict marks as defective |
| RoundRobin.BalancedKeepsViews | scripts/prepare_piece_b_to_piece_a_p4_drift_scenario.py:149-156 | the rows of each view pair leave ordered by timestamp, sequence number and id, a permutation of its good rows |
| RoundRobin.BaselineFair | scripts/prepare_piece_b_to_piece_a_p4_drift_scenario.py:152-156 | in every prefix a view pair is at most one row behind another, and not behind a later one, unless it is exhausted |
| RoundRobin.TurnsInNameOrder | scripts/prepare_piece_b_to_piece_a_p4_drift_scenario.py:152-156 | views take turns in name order: for any two names, after any number of rows, one is at most one row behind the other, and not behind at all when its name comes first, unless all its good rows are out |
| RoundRobin.BaselineLength | scripts/prepare_piece_b_to_piece_a_p4_drift_scenario.py:157-158 | the result is a prefix whose length is the largest multiple of the window size within the good rows |
| RoundRobin.BaselineLeavesNoMixedWindow | scripts/prepare_piece_b_to_piece_a_p4_drift_scenario.py:133-158 | replaying the baseline and then P4 rows gives pure stable windows, then only P4 windows |
| RoundRobin.Drain | scripts/prepare_piece_b_to_piece_a_p4_drift_scenario.py:151-156 | the pop loop ends and yields the rounds in order |
| RoundRobin.GroupByView | scripts/prepare_piece_b_to_piece_a_p4_drift_scenario.py:144-148 | the loop puts every good conforming row into the bucket of its view pair, in order |
| RoundRobin.SortBuckets | scripts/prepare_piece_b_to_piece_a_p4_drift_scenario.py:149-150 | the loop sorts every bucket by timestamp, sequence number and id, and neither adds nor drops a view pair |
| RoundRobin.BalancedBaselineRows | scripts/prepare_piece_b_to_piece_a_p4_drift_scenario.py:133-158 | the builder, with its error on a non-positive window size, computes the specified baseline |
| SeriesHold.NextCadenceBounds | scripts/export_lifecycle_prometheus_backfill.py:729-730 | the next grid point is later by at most 30 000 ms and on the grid |
| SeriesHold.HoldLeavesNoGap | scripts/export_lifecycle_prometheus_backfill.py:696-711 | a held time-ordered series stays in order, has no gap over 30 000 ms and reaches the end time |
| SeriesHold.HoldStrictIff | scripts/export_lifecycle_prometheus_backfill.py:696-711 | a held series has strictly increasing timestamps, so no duplicate, if and only if its input has |
| SeriesHold.HoldKeepsStepFunction | scripts/export_lifecycle_prometheus_backfill.py:696-711 | it has the same last value at every instant as the input |
| SeriesHold.StepAtIsLast | scripts/export_lifecycle_prometheus_backfill.py:696-711 | that last value is the value of the latest sample not after the instant |
| SeriesHold.HoldKeepsInputs | scripts/export_lifecycle_prometheus_backfill.py:701 | every input sample is kept, in order |
| SeriesHold.HoldIdempotent | scripts/export_lifecycle_prometheus_backfill.py:696-711 | holding twice is holding once |
| SeriesHold.HoldIsFill | scripts/export_lifecycle_prometheus_backfill.py:696-726 | holding equals filling the series with a sentinel at the end time |
| SeriesHold.FillIdempotent | scripts/export_lifecycle_prometheus_backfill.py:714-726 | filling twice is filling once |
| SeriesHold.HoldSeriesUntil | scripts/export_lifecycle_prometheus_backfill.py:696-711 | the nested loops compute the held series |
| SeriesHold.FillSeriesBetweenSamples | scripts/export_lifecycle_prometheus_backfill.py:714-726 | the nested loops compute the filled series |
| ScrapeSeries.ScrapedSeries | scripts/export_lifecycle_prometheus_backfill.py:673-693 | in the output each stateful or epoch series is its own input series, sorted and densified, untouched by the others |
| ScrapeSeries.StatefulSeriesHeld | scripts/export_lifecycle_prometheus_backfill.py:673-711 | every stateful series of the output is in time order without a gap over 30 s, reaches the run end and has at every instant the value the inputs with its labels wrote last |
| ScrapeSeries.EpochTraceFilled | scripts/export_lifecycle_prometheus_backfill.py:673-726 | an epoch trace has the same up to its own last input sample, where it ends |
| ScrapeSeries.PlainUnchanged | scripts/export_lifecycle_prometheus_backfill.py:673-693 | every other metric passes unchanged and in order; without a run end the whole output is the input |
| ScrapeSeries.ScrapeLikeSamples | scripts/export_lifecycle_prometheus_backfill.py:673-693 | grouping, sorting and densifying loops compute the specified output, whose series the lemmas above describe |
| PromotionCounters.EmittedSeries | scripts/export_lifecycle_prometheus_backfill.py:733-761 | each role and status gets one sample 0 and then 1, 2, … at the cycles that report it |
| PromotionCounters.BackfilledCounter | scripts/export_lifecycle_prometheus_backfill.py:733-761 | the samples of a counter: none without a report, else 0 one second before the first and the number of reports so far at each |
| PromotionCounters.CountersNeverShared | src/iqa/api/main.py:1894-1900 | two counters of any two runs have the same labels if and only if run, role and status agree |
| PromotionCounters.LiveCountsFirstReports | src/iqa/api/main.py:1880-1901 | for any events of any runs, the live counter is the number of distinct cycles whose first report of the status under the run id came from its scenario |
| PromotionCounters.SharedRunIdIsNotCounted | src/iqa/api/main.py:1887-1901 | counter-example: a scenario that reuses a run id is not counted for a cycle the other scenario reported first |
| PromotionCounters.CounterMonotoneIffChronological | scripts/export_lifecycle_prometheus_backfill.py:673-693 | the exported counter is non-decreasing in time if and only if those cycles are chronological |
| PromotionCounters.LiveCountsCycles | src/iqa/api/main.py:1880-1898 | when no other scenario uses the run id, the live counter is the number of distinct cycles that reported the status, however often events repeat and whatever other runs report |
| PromotionCounters.BackfillMatchesLive | scripts/export_lifecycle_prometheus_backfill.py:733-761 | the exported counter ends at the live one exactly when the latest report's position is the number of distinct ids; with distinct ids, exactly when the last report listed is a latest one; in time order, exactly when ids are distinct, and above it otherwise |
| PromotionCounters.OutOfOrderBackfillEndsLow | scripts/export_lifecycle_prometheus_backfill.py:733-761 | counter-example: two cycles reported out of time order end at 1, the live counter at 2 |
| PromotionCounters.LifecycleMetrics.RecordPromotionStatus | src/iqa/api/main.py:1880-1898 | one event updates the seen set and both role counters as specified |
| PromotionCounters.PromotionCounterSamples | scripts/export_lifecycle_prometheus_backfill.py:733-761 | the loop over cycles emits the specified samples |
| LabelText.ChainedReplaceIsOnePass | scripts/export_lifecycle_prometheus_backfill.py:881-882 | the three chained replaces equal one pass of a character map |
| LabelText.UnescapeInverts | scripts/export_lifecycle_prometheus_backfill.py:881-882 | reading an escaped value up to its quote gives back every string |
| LabelText.LabelsRoundTrip | scripts/export_lifecycle_prometheus_backfill.py:877-878 | reading the printed labels gives back the label map when keys are identifiers |
| LabelText.LabelsCanonical | scripts/export_lifecycle_prometheus_backfill.py:877-878 | two label lists print alike if and only if they are the same map |
| FeedbackStore.RunConsistent | src/iqa/api/main.py:1189-1336 | over any request sequence: closed if and only if an oracle record exists, conflict flag if and only if display feedback exists, eligible only on a conforming verdict, one false_negative incident per missed defect and one roi_fail incident per failed ROI, counters equal their incidents |
| FeedbackStore.ClosedIsFinal | src/iqa/api/main.py:1097-1106 | once closed, record, display feedback and prediction never change again |
| FeedbackStore.PredictionKeepsIdentity | src/iqa/api/main.py:1259 | a stored prediction only ever changes its closed flag, and only from open to closed |
| FeedbackStore.CountersCountAnswers | src/iqa/api/main.py:1199-1264 | each security counter counts the answers of its kind, in any interleaving |
| FeedbackStore.OneRecordPerClosure | src/iqa/api/main.py:1301-1302 | there are as many oracle records as accepted closures |
| FeedbackStore.RecordProvenance | src/iqa/api/main.py:1125-1133 | every oracle record of a run comes from an oracle request for that prediction, and is eligible if and only if the mask has no defect and the status is none, validated or false positive |
| FeedbackStore.FreshServiceAccounts | src/iqa/api/main.py:1189-1336 | from an empty service, any requests with fresh prediction ids leave the stores consistent, one record per accepted closure, each made by one of the requests, and as many counted incidents as conflicts, invalid answers and refusals |
| FeedbackHistory.StoresFollowHistory | src/iqa/api/main.py:933-986 | from an empty service every prediction has the piece, scenario, inferred decision and model version of the request that made it, every record what its oracle request said, and the display feedback is the last one shown |
| FeedbackHistory.AnswersFollowHistory | src/iqa/api/main.py:1028-1133 | every answer is what the requests and answers before it demand: unknown, mismatched or closed predictions, conflicts, invalid answers, and the block reason of each closure |
| FeedbackHistory.FalseNegativeIff | src/iqa/api/main.py:1304-1320 | a false_negative incident about an id exists, once, if and only if a predict request for it was answered Vert and a later accepted oracle closure had a defect |
| FeedbackHistory.RoiFailureIff | src/iqa/api/main.py:1323-1336 | a roi_fail incident exists, once, if and only if an oracle request without a defect closed the piece with that status |
| FeedbackStore.Api.Predict | src/iqa/api/main.py:933-986 | a prediction is stored open as the specified step says, nothing changes when inference fails; `FeedbackHistory.StoresFollowHistory` says what is stored |
| FeedbackStore.Api.GetOpenPrediction | src/iqa/api/main.py:1028-1108 | the open matching prediction with nothing changed, or the error with its counters and incident |
| FeedbackStore.Api.Feedback | src/iqa/api/main.py:1190-1354 | stores, incidents, counters and answer after one feedback request |
| FeedbackStore.Api.ReloadModel | src/iqa/api/main.py:2459-2583 | refusals are counted and raise an incident, other reloads change nothing |
| Groups.GroupByLookup | scripts/run_drift_observation_replay.py:551-555 | the list of a key holds exactly the rows with that key, in order |
| Sorting.SortedStable | scripts/prepare_piece_b_to_piece_a_p4_drift_scenario.py:149-150 | sorting keeps tied elements in their original order |

## Left out

- Torch inference and training, ROI segmentation, image loading and evaluation: arbitrary functions (`World`, `process`).
- Files, MLflow, S3, PostgreSQL, HTTP calls, Airflow, progress records: plumbing around the modelled state.
- Rounding of floating-point numbers: reals and exact integers instead; a quota, rate or quantile that a double rounds across a threshold can differ.
- `average_precision_score` of scikit-learn: written out from its definition, recall steps times precision, on exact scores instead of 32-bit ones.
- Negative `good_total` in the holdout split: the model takes a natural number.
- `train_candidate_on_trigger` after a train-on-trigger run, registry registration, and exceptions from checkpoint validation inside a cycle.
- The sets of scenario phases and source classes a lot accumulates, and the reporting fields of a cycle: written to files, never read by a decision.
- Selection and normalisation of validation gate v2 rows: filters and sorts around the apportionment, which is modelled.
- Wall-clock timestamps of feedback and predictions, free-text comments, trace fields and incident messages: stored, never compared.
- FeedbackStore.RunConsistent: proved for the memory backend and fresh prediction ids; with a database configured the stores are also refreshed from it.
- FeedbackHistory.StoresFollowHistory: likewise, and the lemmas about answers and incidents that build on it; the API draws prediction ids at random, and drawing one twice would replace a prediction.
- Service-token check of the feedback endpoint, and request validation by the schema layer: a rejected request changes nothing.
- Rewriting of plan rows (schedule, phases, repeated defects) after the baseline is built: `RoundRobin.BaselineLeavesNoMixedWindow` takes the phases of the replayed events as given.
- Metric names other than the promotion counter: a `Metric` value tells how a series is densified.
- Mask files: an event carries the mask vector loaded from its file, or none.
