/** Which runs list a version twice and which bring a replaced model back: runs of the replay lifecycle machine
    (scripts/run_replay_lifecycle_cycle.py) in which every event is a lot of its own and every lot trains a
    candidate. */
module LifecycleChains {
  import opened ReplayEvents
  import opened Calibration
  import opened PromotionGate
  import opened PolicyCycles
  import opened ReplayLifecycle
  import opened LifecycleRuns
  import opened MetricGates
  import opened GateRuns

  // ---------------------------------------------------------------------------- runs of one-event lots

  /** Consecutive rows belong to different lots. */
  predicate OneEventLots(rows: seq<ReplayRow>) {
    forall i :: 0 < i < |rows| ==> LotIdOf(rows[i - 1]) != LotIdOf(rows[i])
  }

  predicate Unlimited(args: Args) {
    args.maxEvents.None? && args.maxLots.None?
  }

  /** The state after one more event in a new lot, and that lot. */
  function Opened(w: World, s: State, row: ReplayRow): (State, Lot) {
    var e := Observe(w, row, s.active);
    (s.(seen := s.seen + [e]), Lot(LotIdOf(row), [e]))
  }

  /** One row: its lot is opened and closed. */
  function LotStep(w: World, args: Args): (State, ReplayRow) -> State {
    (s: State, row: ReplayRow) => CloseLot(w, args, Opened(w, s, row).0, Opened(w, s, row).1).1
  }

  function Iterate(step: (State, ReplayRow) -> State, rows: seq<ReplayRow>, start: State, n: nat): State
    requires n <= |rows|
  {
    if n == 0 then start else step(Iterate(step, rows, start, n - 1), rows[n - 1])
  }

  lemma {:induction false} IterateKeeps(step: (State, ReplayRow) -> State, rows: seq<ReplayRow>, start: State, n: nat,
                                        inv: (State, nat) -> bool)
    requires n <= |rows| && inv(start, 0)
    requires forall s, row, k: nat :: inv(s, k) ==> inv(step(s, row), k + 1)
    ensures inv(Iterate(step, rows, start, n), n)
  {
    if n > 0 { IterateKeeps(step, rows, start, n - 1, inv); }
  }

  /** The state after the first n lots of the run are closed. */
  function AfterLots(w: World, args: Args, rows: seq<ReplayRow>, initial: Runtime, localization: Runtime, n: nat): State
    requires n <= |rows|
  {
    Iterate(LotStep(w, args), rows, Start(initial, localization), n)
  }

  /** Every cycle belongs to a lot, and every trigger to a cycle. */
  predicate CyclesInLots(s: State, lots: nat) {
    |s.cycles| <= lots && (s.trigger.Some? ==> s.cycles != [])
  }

  /** In a progressive mode the run stops after a lot only for `max_cycles`, and triggers only with a cycle. */
  lemma ProgressiveStep(w: World, args: Args, s: State, row: ReplayRow)
    requires Progressive(args.mode)
    ensures var next := LotStep(w, args)(s, row);
      && |s.cycles| <= |next.cycles| <= |s.cycles| + 1
      && (next.trigger.Some? ==> s.trigger.Some? || next.cycles != [])
      && (CloseLot(w, args, Opened(w, s, row).0, Opened(w, s, row).1).0 ==> ReachedMaxCycles(args, next.cycles))
  {
    ProgressiveCloseLot(w, args, Opened(w, s, row).0, Opened(w, s, row).1);
  }

  lemma AfterLotsCycles(w: World, args: Args, rows: seq<ReplayRow>, initial: Runtime, localization: Runtime, n: nat)
    requires n <= |rows| && Progressive(args.mode)
    ensures CyclesInLots(AfterLots(w, args, rows, initial, localization, n), n)
  {
    forall s, row, k: nat | CyclesInLots(s, k) ensures CyclesInLots(LotStep(w, args)(s, row), k + 1) {
      ProgressiveStep(w, args, s, row);
    }
    IterateKeeps(LotStep(w, args), rows, Start(initial, localization), n, CyclesInLots);
  }

  /** `max_cycles` lets the run go on after every lot but its last. */
  lemma MoreLots(args: Args, s: State, n: nat, lots: nat)
    requires n < lots && WithinCycles(args, lots) && CyclesInLots(s, n)
    ensures ShouldFinalizeLastLot(args, s) || !Progressive(args.mode)
    ensures n > 0 ==> !ReachedMaxCycles(args, s.cycles)
  {
  }

  /** What is left of the loop after a lot is opened ends with the last lot open. */
  ghost predicate Finishes(w: World, args: Args, rest: seq<ReplayRow>, open: (State, Lot), last: (State, Lot)) {
    forall rows :: rows == rest
      ==> Replay(w, args, rows, open.0, Some(open.1)) == Outcome(last.0, Some(last.1), Exhausted)
  }

  lemma LastLotFinishes(w: World, args: Args, open: (State, Lot))
    ensures Finishes(w, args, [], open, open)
  {
  }

  lemma NextLotFinishes(w: World, args: Args, s: State, row: ReplayRow, next: ReplayRow, rest: seq<ReplayRow>,
                        last: (State, Lot))
    requires Unlimited(args) && LotIdOf(row) != LotIdOf(next)
    requires !CloseLot(w, args, Opened(w, s, row).0, Opened(w, s, row).1).0
    requires Finishes(w, args, rest, Opened(w, LotStep(w, args)(s, row), next), last)
    ensures Finishes(w, args, [next] + rest, Opened(w, s, row), last)
  {
    var open := Opened(w, s, row);
    var closed := CloseLot(w, args, open.0, open.1).1;
    assert ([next] + rest)[1..] == rest;
    assert [] + [Observe(w, next, closed.active)] == [Observe(w, next, closed.active)];
    var o := Replay(w, args, rest, Opened(w, closed, next).0, Some(Opened(w, closed, next).1));
    assert o == Outcome(last.0, Some(last.1), Exhausted);
  }

  /** The state in which the n-th lot is open. */
  function LotOpen(w: World, args: Args, rows: seq<ReplayRow>, initial: Runtime, localization: Runtime,
                   n: nat): (State, Lot)
    requires 1 <= n <= |rows|
  {
    Opened(w, AfterLots(w, args, rows, initial, localization, n - 1), rows[n - 1])
  }

  lemma LotGoesOn(w: World, args: Args, s: State, row: ReplayRow, n: nat, lots: nat)
    requires Progressive(args.mode) && WithinCycles(args, lots) && n + 1 < lots && CyclesInLots(s, n)
    ensures !CloseLot(w, args, Opened(w, s, row).0, Opened(w, s, row).1).0
  {
    ProgressiveStep(w, args, s, row);
    MoreLots(args, LotStep(w, args)(s, row), n + 1, lots);
  }

  lemma {:induction false} LotsFinish(w: World, args: Args, rows: seq<ReplayRow>, initial: Runtime,
                                      localization: Runtime, n: nat)
    requires 1 <= n <= |rows| && OneEventLots(rows) && Unlimited(args) && Progressive(args.mode)
      && WithinCycles(args, |rows|)
    ensures Finishes(w, args, rows[n..], LotOpen(w, args, rows, initial, localization, n),
                     LotOpen(w, args, rows, initial, localization, |rows|))
    decreases |rows| - n
  {
    if n == |rows| {
      LastLotFinishes(w, args, LotOpen(w, args, rows, initial, localization, n));
    } else {
      LotsFinish(w, args, rows, initial, localization, n + 1);
      LotFinishes(w, args, rows, initial, localization, n, LotOpen(w, args, rows, initial, localization, |rows|));
    }
  }

  lemma StepFinishes(w: World, args: Args, s: State, row: ReplayRow, next: ReplayRow, rest: seq<ReplayRow>,
                     last: (State, Lot),
                     n: nat, lots: nat)
    requires Progressive(args.mode) && WithinCycles(args, lots) && n + 1 < lots && CyclesInLots(s, n)
    requires Unlimited(args) && LotIdOf(row) != LotIdOf(next)
    requires Finishes(w, args, rest, Opened(w, LotStep(w, args)(s, row), next), last)
    ensures Finishes(w, args, [next] + rest, Opened(w, s, row), last)
  {
    LotGoesOn(w, args, s, row, n, lots);
    NextLotFinishes(w, args, s, row, next, rest, last);
  }

  lemma AfterNext(w: World, args: Args, rows: seq<ReplayRow>, initial: Runtime, localization: Runtime, n: nat)
    requires 1 <= n <= |rows|
    ensures AfterLots(w, args, rows, initial, localization, n)
      == LotStep(w, args)(AfterLots(w, args, rows, initial, localization, n - 1), rows[n - 1])
  {
  }

  lemma LotFinishes(w: World, args: Args, rows: seq<ReplayRow>, initial: Runtime, localization: Runtime, n: nat,
                    last: (State, Lot))
    requires 1 <= n < |rows| && OneEventLots(rows) && Unlimited(args) && Progressive(args.mode)
      && WithinCycles(args, |rows|)
    requires Finishes(w, args, rows[n + 1..], LotOpen(w, args, rows, initial, localization, n + 1), last)
    ensures Finishes(w, args, rows[n..], LotOpen(w, args, rows, initial, localization, n), last)
  {
    var s := AfterLots(w, args, rows, initial, localization, n - 1);
    AfterLotsCycles(w, args, rows, initial, localization, n - 1);
    AfterNext(w, args, rows, initial, localization, n);
    StepFinishes(w, args, s, rows[n - 1], rows[n], rows[n + 1..], last, n - 1, |rows|);
    SuffixCons(rows, n);
  }

  lemma SuffixCons<T>(xs: seq<T>, n: nat)
    requires n < |xs|
    ensures xs[n..] == [xs[n]] + xs[n + 1..]
  {
  }

  lemma FirstLotFinishes(w: World, args: Args, s: State, row: ReplayRow, rest: seq<ReplayRow>, last: (State, Lot))
    requires Unlimited(args) && Finishes(w, args, rest, Opened(w, s, row), last)
    ensures Replay(w, args, [row] + rest, s, None) == Outcome(last.0, Some(last.1), Exhausted)
  {
    assert ([row] + rest)[1..] == rest;
    assert [] + [Observe(w, row, s.active)] == [Observe(w, row, s.active)];
    var o := Replay(w, args, rest, Opened(w, s, row).0, Some(Opened(w, s, row).1));
    assert o == Outcome(last.0, Some(last.1), Exhausted);
  }

  lemma LoopOverLots(w: World, args: Args, rows: seq<ReplayRow>, initial: Runtime, localization: Runtime)
    requires rows != [] && OneEventLots(rows) && Unlimited(args) && Progressive(args.mode) && WithinCycles(args, |rows|)
    ensures var last := LotOpen(w, args, rows, initial, localization, |rows|);
      Loop(w, args, rows, initial, localization) == Outcome(last.0, Some(last.1), Exhausted)
  {
    LotsFinish(w, args, rows, initial, localization, 1);
    FirstLotFinishes(w, args, Start(initial, localization), rows[0], rows[1..],
                     LotOpen(w, args, rows, initial, localization, |rows|));
    assert rows == [rows[0]] + rows[1..];
  }

  /** Such a run closes every lot once, in order. */
  lemma RunIsAfterLots(w: World, args: Args, rows: seq<ReplayRow>, initial: Runtime, localization: Runtime)
    requires rows != [] && OneEventLots(rows) && Unlimited(args) && Progressive(args.mode) && WithinCycles(args, |rows|)
    ensures Run(w, args, rows, initial, localization) == AfterLots(w, args, rows, initial, localization, |rows|)
  {
    var s := AfterLots(w, args, rows, initial, localization, |rows| - 1);
    LoopOverLots(w, args, rows, initial, localization);
    AfterLotsCycles(w, args, rows, initial, localization, |rows| - 1);
    MoreLots(args, s, |rows| - 1, |rows|);
    OpenLotFinalized(w, args, s, rows[|rows| - 1]);
  }

  lemma OpenLotFinalized(w: World, args: Args, s: State, row: ReplayRow)
    requires ShouldFinalizeLastLot(args, s)
    ensures ShouldFinalizeLastLot(args, Opened(w, s, row).0)
  {
  }

  // ---------------------------------------------------------------------------- a replaced model that comes back

  const FIRST := "a"
  const SECOND := "b"

  function Other(checkpoint: string): string { if checkpoint == FIRST then SECOND else FIRST }

  /** Every lot triggers, and training returns the checkpoint that is not active. */
  function SwappingWorld(infer: (ReplayRow, Runtime) -> Inference, a: Metrics, b: Metrics): World {
    World(
      infer,
      (signal, interval) => true,
      (seen, n, active: Runtime, localization: Runtime) =>
        Candidate(Other(active.checkpoint), Other(localization.checkpoint), Other(active.checkpoint)),
      checkpoint => if checkpoint == FIRST then a else b,
      checkpoint => if checkpoint == FIRST then a else b)
  }

  ghost predicate Alternating(checkpoints: seq<string>) {
    forall i :: 0 <= i < |checkpoints| ==> checkpoints[i] == if i % 2 == 0 then FIRST else SECOND
  }

  /** n swaps so far. */
  ghost predicate Swapped(checkpoints: seq<string>, active: string, n: nat) {
    |checkpoints| == n + 1 && Alternating(checkpoints) && active == checkpoints[n]
  }

  lemma SwappedNext(checkpoints: seq<string>, active: string, n: nat)
    requires Swapped(checkpoints, active, n)
    ensures Swapped(checkpoints + [Other(active)], Other(active), n + 1)
  {
  }

  lemma SwapAtLot(w: World, args: Args, s: State, lot: Lot, a: Metrics, b: Metrics)
    requires w == SwappingWorld(w.infer, a, b) && args.mode == ProgressiveTrain && args.dualPromotion
    requires ClassificationPasses(args.policy, a, b) && ClassificationPasses(args.policy, b, a)
    requires s.active.checkpoint == FIRST || s.active.checkpoint == SECOND
    ensures var next := CloseLot(w, args, s, lot).1;
      && next.active.checkpoint == Other(s.active.checkpoint)
      && next.cycles == s.cycles + [LastOf(next.cycles)]
      && LastOf(next.cycles).decisionPromoted && LastOf(next.cycles).checkpoint == Other(s.active.checkpoint)
  {
  }

  ghost predicate DecisionsSwapped(s: State, n: nat) {
    Swapped(ActiveCheckpoints(FIRST, s.cycles), s.active.checkpoint, n)
  }

  lemma SwapRow(w: World, args: Args, s: State, row: ReplayRow, a: Metrics, b: Metrics, n: nat)
    requires w == SwappingWorld(w.infer, a, b) && args.mode == ProgressiveTrain && args.dualPromotion
    requires ClassificationPasses(args.policy, a, b) && ClassificationPasses(args.policy, b, a)
    requires DecisionsSwapped(s, n)
    ensures DecisionsSwapped(LotStep(w, args)(s, row), n + 1)
  {
    var open, next := Opened(w, s, row), LotStep(w, args)(s, row);
    SwapAtLot(w, args, open.0, open.1, a, b);
    CycleSnoc(FIRST, s.cycles, LastOf(next.cycles));
    SwappedNext(ActiveCheckpoints(FIRST, s.cycles), s.active.checkpoint, n);
  }

  lemma SwapsAfterLots(w: World, args: Args, rows: seq<ReplayRow>, initial: Runtime, localization: Runtime, a: Metrics,
                       b: Metrics, n: nat)
    requires w == SwappingWorld(w.infer, a, b) && args.mode == ProgressiveTrain && args.dualPromotion && n <= |rows|
    requires ClassificationPasses(args.policy, a, b) && ClassificationPasses(args.policy, b, a)
    requires initial.checkpoint == FIRST
    ensures DecisionsSwapped(AfterLots(w, args, rows, initial, localization, n), n)
  {
    forall s, row, k: nat | DecisionsSwapped(s, k) ensures DecisionsSwapped(LotStep(w, args)(s, row), k + 1) {
      SwapRow(w, args, s, row, a, b, k);
    }
    IterateKeeps(LotStep(w, args), rows, Start(initial, localization), n, DecisionsSwapped);
  }

  /** Under every policy that is not acyclic two decision models, calibrated on one panel, replace each other at every
      lot of a run, for as long as the run goes on. */
  lemma SwapsForEver(infer: (ReplayRow, Runtime) -> Inference, args: Args, rows: seq<ReplayRow>, initial: Runtime,
                     localization: Runtime)
      returns (a: seq<Record>, b: seq<Record>)
    requires !Acyclic(args.policy) && args.mode == ProgressiveTrain && args.dualPromotion
    requires Unlimited(args) && args.maxCycles.None? && rows != [] && OneEventLots(rows)
    requires initial.checkpoint == FIRST
    ensures Swap(args.policy, a, b)
    ensures var w := SwappingWorld(infer, CalibratedMetrics(a), CalibratedMetrics(b));
      var checkpoints := ActiveCheckpoints(FIRST, Run(w, args, rows, initial, localization).cycles);
      |checkpoints| == |rows| + 1 && Alternating(checkpoints)
  {
    a, b := OtherPoliciesCycle(args.policy);
    var w := SwappingWorld(infer, CalibratedMetrics(a), CalibratedMetrics(b));
    RunIsAfterLots(w, args, rows, initial, localization);
    SwapsAfterLots(w, args, rows, initial, localization, CalibratedMetrics(a), CalibratedMetrics(b), |rows|);
  }

  lemma LocalizationSwapAtLot(w: World, args: Args, s: State, lot: Lot, a: Metrics, b: Metrics)
    requires w == SwappingWorld(w.infer, a, b) && args.mode == ProgressiveTrain && args.dualPromotion
    requires LocalizationPasses(args.policy, a, b) && LocalizationPasses(args.policy, b, a)
    requires s.localization.checkpoint == FIRST || s.localization.checkpoint == SECOND
    ensures var next := CloseLot(w, args, s, lot).1;
      && next.localization.checkpoint == Other(s.localization.checkpoint)
      && next.cycles == s.cycles + [LastOf(next.cycles)]
      && LastOf(next.cycles).localizationPromoted
      && LastOf(next.cycles).localizationCheckpoint == Other(s.localization.checkpoint)
  {
  }

  ghost predicate LocalizationsSwapped(s: State, n: nat) {
    Swapped(ActiveLocalizations(FIRST, s.cycles), s.localization.checkpoint, n)
  }

  lemma LocalizationSwapRow(w: World, args: Args, s: State, row: ReplayRow, a: Metrics, b: Metrics, n: nat)
    requires w == SwappingWorld(w.infer, a, b) && args.mode == ProgressiveTrain && args.dualPromotion
    requires LocalizationPasses(args.policy, a, b) && LocalizationPasses(args.policy, b, a)
    requires LocalizationsSwapped(s, n)
    ensures LocalizationsSwapped(LotStep(w, args)(s, row), n + 1)
  {
    var open, next := Opened(w, s, row), LotStep(w, args)(s, row);
    LocalizationSwapAtLot(w, args, open.0, open.1, a, b);
    CycleSnoc(FIRST, s.cycles, LastOf(next.cycles));
    SwappedNext(ActiveLocalizations(FIRST, s.cycles), s.localization.checkpoint, n);
  }

  lemma LocalizationSwapsAfterLots(w: World, args: Args, rows: seq<ReplayRow>, initial: Runtime, localization: Runtime,
                                   a: Metrics, b: Metrics, n: nat)
    requires w == SwappingWorld(w.infer, a, b) && args.mode == ProgressiveTrain && args.dualPromotion && n <= |rows|
    requires LocalizationPasses(args.policy, a, b) && LocalizationPasses(args.policy, b, a)
    requires localization.checkpoint == FIRST
    ensures LocalizationsSwapped(AfterLots(w, args, rows, initial, localization, n), n)
  {
    forall s, row, k: nat | LocalizationsSwapped(s, k) ensures LocalizationsSwapped(LotStep(w, args)(s, row), k + 1) {
      LocalizationSwapRow(w, args, s, row, a, b, k);
    }
    IterateKeeps(LotStep(w, args), rows, Start(initial, localization), n, LocalizationsSwapped);
  }

  /** Where the localization gate allows a circle, and so under the P4 objective with every margin below 1, two
      localization models, calibrated on one panel, replace each other at every lot. */
  lemma LocalizationSwapsForEver(infer: (ReplayRow, Runtime) -> Inference, args: Args, rows: seq<ReplayRow>,
                                 initial: Runtime,
                                 localization: Runtime)
      returns (m: Metrics, n: Metrics, a: seq<Record>, b: seq<Record>)
    requires !LocalizationAcyclic(args.policy) && args.mode == ProgressiveTrain && args.dualPromotion
    requires Unlimited(args) && args.maxCycles.None? && rows != [] && OneEventLots(rows)
    requires localization.checkpoint == FIRST
    ensures a != b && LocalizationSwap(args.policy, m, n, a, b)
    ensures var checkpoints := ActiveLocalizations(FIRST,
                                                   Run(SwappingWorld(infer, m, n), args, rows, initial,
                                                       localization).cycles);
      |checkpoints| == |rows| + 1 && Alternating(checkpoints)
  {
    m, n, a, b := OtherLocalizationPoliciesSwap(args.policy);
    var w := SwappingWorld(infer, m, n);
    RunIsAfterLots(w, args, rows, initial, localization);
    LocalizationSwapsAfterLots(w, args, rows, initial, localization, m, n, |rows|);
  }

  // ---------------------------------------------------------------------------- versions listed twice

  /** Every lot triggers; training returns the active model again, except in cycle n, where it returns a new one. */
  function NthWorld(infer: (ReplayRow, Runtime) -> Inference, n: nat, registered: string, active: Metrics,
                    better: Metrics): World {
    World(
      infer,
      (signal, interval) => true,
      (seen, cycle, runtime: Runtime, localization) =>
        var checkpoint := if cycle == n then registered + "'" else registered;
        Candidate(checkpoint, checkpoint, checkpoint),
      checkpoint => if checkpoint == registered then active else better,
      checkpoint => if checkpoint == registered then active else better)
  }

  lemma NewCheckpoint(registered: string)
    ensures registered + "'" != registered
  {
    assert |registered + "'"| == |registered| + 1;
  }

  lemma NthLot(w: World, args: Args, s: State, lot: Lot, n: nat, registered: string, active: Metrics, better: Metrics)
    requires w == NthWorld(w.infer, n, registered, active, better) && args.mode == ProgressiveTrain
      && args.dualPromotion
    requires ClassificationPasses(args.policy, active, better)
    requires s.active.checkpoint == registered && |s.cycles| < n
    ensures var next := CloseLot(w, args, s, lot).1;
      && |next.cycles| == |s.cycles| + 1
      && (|s.cycles| + 1 < n ==> next.active.checkpoint == registered)
      && (|s.cycles| + 1 == n ==> LastOf(next.cycles).decisionPromoted)
  {
    NewCheckpoint(registered);
  }

  /** k cycles so far; the n-th one promotes. */
  predicate UpToNth(s: State, k: nat, n: nat, registered: string) {
    k <= n ==>
      && |s.cycles| == k && (k < n ==> s.active.checkpoint == registered)
      && (k == n > 0 ==> LastOf(s.cycles).decisionPromoted)
  }

  function TowardsNth(n: nat, registered: string): (State, nat) -> bool {
    (s: State, k: nat) => UpToNth(s, k, n, registered)
  }

  lemma NthStep(w: World, args: Args, s: State, row: ReplayRow, k: nat, n: nat, registered: string, active: Metrics,
                better: Metrics)
    requires w == NthWorld(w.infer, n, registered, active, better) && args.mode == ProgressiveTrain
      && args.dualPromotion
    requires ClassificationPasses(args.policy, active, better) && UpToNth(s, k, n, registered)
    ensures UpToNth(LotStep(w, args)(s, row), k + 1, n, registered)
  {
    if k < n { NthLot(w, args, Opened(w, s, row).0, Opened(w, s, row).1, n, registered, active, better); }
  }

  lemma NthCyclePromotes(w: World, args: Args, rows: seq<ReplayRow>, initial: Runtime, localization: Runtime, n: nat,
                         active: Metrics, better: Metrics)
    requires w == NthWorld(w.infer, n, initial.checkpoint, active, better) && args.mode == ProgressiveTrain
      && args.dualPromotion
    requires ClassificationPasses(args.policy, active, better) && n == |rows|
    ensures UpToNth(AfterLots(w, args, rows, initial, localization, n), n, n, initial.checkpoint)
  {
    var inv := TowardsNth(n, initial.checkpoint);
    forall s, row, k: nat | inv(s, k) ensures inv(LotStep(w, args)(s, row), k + 1) {
      NthStep(w, args, s, row, k, n, initial.checkpoint, active, better);
    }
    IterateKeeps(LotStep(w, args), rows, Start(initial, localization), n, inv);
  }

  /** n lots with alternating ids. */
  function AlternatingRows(n: nat): seq<ReplayRow> {
    seq(n, i requires 0 <= i < n => ReplayRow("", if i % 2 == 0 then "odd" else "even", "", "", false))
  }

  lemma AlternatingRowsApart(n: nat)
    ensures OneEventLots(AlternatingRows(n))
  {
    assert "odd" != "even";
  }

  /** For every cycle number n the run may reach, a run that starts from a model with the name of its n-th candidate
      lists that name twice. */
  lemma StartingFromOwnCandidateRepeats(infer: (ReplayRow, Runtime) -> Inference, args: Args, n: nat, initial: Runtime,
                                        localization: Runtime)
      returns (w: World)
    requires n >= 1 && WithinCycles(args, n) && initial.version == CandidateName(n)
    requires args.mode == ProgressiveTrain && args.dualPromotion && Unlimited(args)
    ensures !NoDuplicates(Run(w, args, AlternatingRows(n), initial, localization).promotionChain)
  {
    var k := EnoughTied(args.policy);
    EveryPolicyPromotes(args.policy);
    var active, better := CalibratedMetrics(TellsNothing(k)), CalibratedMetrics(MissesNothing(1, k));
    w := NthWorld(infer, n, initial.checkpoint, active, better);
    AlternatingRowsApart(n);
    RunIsAfterLots(w, args, AlternatingRows(n), initial, localization);
    NthCyclePromotes(w, args, AlternatingRows(n), initial, localization, n, active, better);
    ChainRepeatsOnlyInitial(w, args, AlternatingRows(n), initial, localization);
    var s := Run(w, args, AlternatingRows(n), initial, localization);
    assert s.cycles[n - 1].decisionPromoted;
  }

  /** What a caller can check before the run: the chain is free of duplicates for every world and all rows exactly
      when the initial version is not the name of a cycle the run may reach. */
  lemma ChainNeverRepeatsIff(infer: (ReplayRow, Runtime) -> Inference, args: Args, initial: Runtime,
                             localization: Runtime)
    requires args.mode == ProgressiveTrain && args.dualPromotion && Unlimited(args)
    ensures (forall w, rows :: NoDuplicates(Run(w, args, rows, initial, localization).promotionChain))
       <==> (forall n: nat :: n >= 1 && WithinCycles(args, n) ==> initial.version != CandidateName(n))
  {
    if n: nat :| n >= 1 && WithinCycles(args, n) && initial.version == CandidateName(n) {
      var w := StartingFromOwnCandidateRepeats(infer, args, n, initial, localization);
    } else {
      forall w, rows ensures NoDuplicates(Run(w, args, rows, initial, localization).promotionChain) {
        ChainRepeatsOnlyInitial(w, args, rows, initial, localization);
        CyclesBounded(w, args, rows, initial, localization);
        var s := Run(w, args, rows, initial, localization);
        forall k | 0 <= k < |s.cycles| && s.cycles[k].decisionPromoted ensures initial.version != CandidateName(k + 1) {
          assert WithinCycles(args, k + 1);
        }
      }
    }
  }
}
