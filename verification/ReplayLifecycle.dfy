/** The replay lifecycle machine (`run_cycle` in scripts/run_replay_lifecycle_cycle.py): events stream in,
    lots close at every change of lot id, a closed lot may trigger a training cycle, and a promoted
    candidate becomes the active model of the following events.

Inference, training, evaluation and the lifecycle decision are arbitrary functions collected in `World`;
every statement holds for all of them. */
module ReplayLifecycle {
  import opened ReplayEvents
  import opened Calibration
  import opened PromotionGate

  datatype Mode = DecisionOnly | TrainOnTrigger | ProgressiveDecision | ProgressiveTrain

  predicate Progressive(mode: Mode) { mode == ProgressiveDecision || mode == ProgressiveTrain }

  datatype Args = Args(
    mode: Mode,
    scenarioId: string,
    maxEvents: Option<int>,
    maxLots: Option<int>,
    maxCycles: Option<int>,
    dualPromotion: bool,
    lifecycleInterval: int,
    externalDriftConfirmed: bool,
    policy: Policy)

  const P4_DRIFT_SCENARIO := "production_replay_natural_piece_b_to_piece_a_p4_drift"
  const DRIFT_SCENARIO := "drift_domain_extension"
  const NATURAL_SCENARIOS := {"production_replay_natural", "production_replay_natural_train_v004",
                              "production_replay_natural_piece_b_full"}

  /** A row of the replay plan; `defective` is what the oracle reads from its label columns. */
  datatype ReplayRow = ReplayRow(eventId: string, lotId: string, scenarioPhase: string, sourceClass: string,
                                 defective: bool)

  /** An active model: its version name, checkpoint and decision thresholds. */
  datatype Runtime = Runtime(version: string, checkpoint: string, thresholds: Option<Thresholds>)

  datatype Inference = Inference(decision: string, roiQualityStatus: string, roiRatio: real, viewKey: string,
                                 roiMask: Option<Mask>)

  datatype Signal = Signal(scenarioId: string, conformingCount: int, driftConfirmed: bool, roiFailRate: real)

  datatype Candidate = Candidate(checkpoint: string, localizationCheckpoint: string, classificationCheckpoint: string)

  /** Everything the run asks of foreign code. `gate` and `reference` evaluate a checkpoint on the fixed
      gate panel and on the fixed reference panel; `decide` is given the signal and the interval. */
  datatype World = World(
    infer: (ReplayRow, Runtime) -> Inference,
    decide: (Signal, int) -> bool,
    train: (seq<CycleEvent>, nat, Runtime, Runtime) -> Candidate,
    gate: string -> Metrics,
    reference: string -> Metrics)

  datatype Decision = Decision(trigger: bool, conformingCount: int)

  /** What one cycle records. `decisionPromoted` says that the decision model changed for the next events,
      to `checkpoint`, `localizationPromoted` that the localization model did, to `localizationCheckpoint`;
      `consumed` is the number of conforming pieces that triggered it. */
  datatype Cycle = Cycle(
    candidateVersion: string,
    consumed: int,
    decisionPromoted: bool,
    localizationPromoted: bool,
    activationEventIndex: Option<nat>,
    checkpoint: string,
    localizationCheckpoint: string)

  datatype LotSummary = LotSummary(
    lotId: string,
    eventCount: nat,
    conformingValidated: nat,
    defective: nat,
    roiFail: nat,
    decisions: map<string, nat>)

  /** A run between two steps: `CycleState` together with the active decision model. `lots` and `decisions` are what
      the lots file holds: the counts of each finalised lot and the lifecycle decision on it. */
  datatype State = State(
    seen: seq<CycleEvent>,
    lots: seq<LotSummary>,
    decisions: seq<Decision>,
    totalConforming: int,
    lastCycleConforming: int,
    trigger: Option<Decision>,
    cycles: seq<Cycle>,
    promotionChain: seq<string>,
    localizationChain: seq<string>,
    active: Runtime,
    localization: Runtime)

  /** The lot being accumulated, with its events. */
  datatype Lot = Lot(lotId: string, events: seq<CycleEvent>)

  // ---------------------------------------------------------------------------- lots

  predicate IsConforming(e: CycleEvent) { e.oracleVerdict == CONFORME }
  predicate IsRoiFail(e: CycleEvent) { e.roiQualityStatus == "fail" }

  function CountDecision(decisions: map<string, nat>, decision: string): map<string, nat> {
    decisions[decision := (if decision in decisions then decisions[decision] else 0) + 1]
  }

  function CountDecisions(events: seq<CycleEvent>): map<string, nat> {
    if events == [] then map[] else CountDecision(CountDecisions(events[..|events| - 1]), events[|events| - 1].decision)
  }

  function Summarize(lotId: string, events: seq<CycleEvent>): LotSummary {
    var conforming := CountIf(events, IsConforming);
    LotSummary(lotId, |events|, conforming, |events| - conforming, CountIf(events, IsRoiFail), CountDecisions(events))
  }

  function LotIdOf(row: ReplayRow): string { if row.lotId == "" then "unknown_lot" else row.lotId }

  /** The maximal runs of consecutive events with one lot id. */
  function Runs(events: seq<CycleEvent>): seq<seq<CycleEvent>> {
    if events == [] then []
    else
      var n := |events| - 1;
      var before := Runs(events[..n]);
      if before != [] && events[n - 1].lotId == events[n].lotId
      then before[..|before| - 1] + [before[|before| - 1] + [events[n]]]
      else before + [[events[n]]]
  }

  function Concat(runs: seq<seq<CycleEvent>>): seq<CycleEvent> {
    if runs == [] then [] else Concat(runs[..|runs| - 1]) + runs[|runs| - 1]
  }

  lemma RunsSnoc(events: seq<CycleEvent>, e: CycleEvent)
    ensures Runs(events + [e]) ==
      if Runs(events) != [] && events != [] && LastOf(events).lotId == e.lotId
      then Runs(events)[..|Runs(events)| - 1] + [LastOf(Runs(events)) + [e]]
      else Runs(events) + [[e]]
  {
    assert (events + [e])[..|events|] == events;
  }

  lemma ConcatSnoc(runs: seq<seq<CycleEvent>>, run: seq<CycleEvent>)
    ensures Concat(runs + [run]) == Concat(runs) + run
  {
    assert (runs + [run])[..|runs|] == runs;
  }

  ghost predicate EachOneLot(runs: seq<seq<CycleEvent>>) {
    forall k :: 0 <= k < |runs| ==> OneLot(runs[k])
  }

  ghost predicate LotsApart(runs: seq<seq<CycleEvent>>) {
    forall k :: 0 < k < |runs| ==> DifferentLots(runs[k - 1], runs[k])
  }

  /** The runs are non-empty, together they are the events in order, each holds one lot id, and neighbours
      hold different ones, so every event is in exactly one and no run could be longer. */
  ghost predicate MaximalRuns(runs: seq<seq<CycleEvent>>, events: seq<CycleEvent>) {
    && Concat(runs) == events
    && EachOneLot(runs)
    && LotsApart(runs)
    && (events == [] <==> runs == [])
    && (events != [] ==> LastOf(runs) != [] && LastOf(LastOf(runs)) == LastOf(events))
  }

  lemma LotsStayApart(front: seq<seq<CycleEvent>>, last: seq<CycleEvent>, next: seq<CycleEvent>)
    requires LotsApart(front + [last]) && last != [] && next != [] && next[0].lotId == last[0].lotId
    ensures LotsApart(front + [next])
  {
    var before, after := front + [last], front + [next];
    forall k | 0 < k < |after| ensures DifferentLots(after[k - 1], after[k]) {
      assert DifferentLots(before[k - 1], before[k]);
    }
  }

  lemma ConcatGrows(front: seq<seq<CycleEvent>>, last: seq<CycleEvent>, e: CycleEvent)
    ensures Concat(front + [last + [e]]) == Concat(front + [last]) + [e]
  {
    ConcatSnoc(front, last);
    ConcatSnoc(front, last + [e]);
    assert Concat(front) + (last + [e]) == (Concat(front) + last) + [e];
  }

  lemma LotsGrow(front: seq<seq<CycleEvent>>, last: seq<CycleEvent>, e: CycleEvent)
    requires EachOneLot(front + [last]) && last != [] && LastOf(last).lotId == e.lotId
    ensures EachOneLot(front + [last + [e]]) && (last + [e])[0].lotId == last[0].lotId
  {
    var before := front + [last];
    assert OneLot(before[|front|]) && LastOf(last) in last;
    assert forall k :: 0 <= k < |front| ==> before[k] == front[k];
  }

  lemma RunGrows(front: seq<seq<CycleEvent>>, last: seq<CycleEvent>, events: seq<CycleEvent>, e: CycleEvent)
    requires MaximalRuns(front + [last], events) && events != [] && LastOf(events).lotId == e.lotId
    ensures MaximalRuns(front + [last + [e]], events + [e])
  {
    assert LastOf(front + [last]) == last && OneLot((front + [last])[|front|]);
    ConcatGrows(front, last, e);
    LotsGrow(front, last, e);
    LotsStayApart(front, last, last + [e]);
  }

  lemma NextLotApart(runs: seq<seq<CycleEvent>>, e: CycleEvent)
    requires EachOneLot(runs) && LotsApart(runs)
      && (runs != [] ==> LastOf(runs) != [] && LastOf(LastOf(runs)).lotId != e.lotId)
    ensures EachOneLot(runs + [[e]]) && LotsApart(runs + [[e]])
  {
    var after := runs + [[e]];
    if runs != [] { assert OneLot(LastOf(runs)) && LastOf(LastOf(runs)) in LastOf(runs); }
    forall k | 0 < k < |after| ensures DifferentLots(after[k - 1], after[k]) {
      if k < |runs| { assert DifferentLots(runs[k - 1], runs[k]); }
    }
  }

  lemma RunOpens(runs: seq<seq<CycleEvent>>, events: seq<CycleEvent>, e: CycleEvent)
    requires MaximalRuns(runs, events) && (events != [] ==> LastOf(events).lotId != e.lotId)
    ensures MaximalRuns(runs + [[e]], events + [e])
  {
    ConcatSnoc(runs, [e]);
    if runs != [] { assert OneLot(LastOf(runs)); }
    NextLotApart(runs, e);
  }

  lemma {:induction false} RunsAreMaximal(events: seq<CycleEvent>)
    ensures MaximalRuns(Runs(events), events)
  {
    if events != [] {
      var front, e := events[..|events| - 1], LastOf(events);
      assert events == front + [e];
      RunsAreMaximal(front);
      RunsSnoc(front, e);
      if front != [] && LastOf(front).lotId == e.lotId {
        var runs := Runs(front);
        assert runs == runs[..|runs| - 1] + [LastOf(runs)];
        RunGrows(runs[..|runs| - 1], LastOf(runs), front, e);
      } else {
        RunOpens(Runs(front), front, e);
      }
    }
  }

  function LastOf<T>(xs: seq<T>): T
    requires xs != []
  {
    xs[|xs| - 1]
  }

  ghost predicate OneLot(run: seq<CycleEvent>) {
    run != [] && forall e :: e in run ==> e.lotId == run[0].lotId
  }

  ghost predicate DifferentLots(run: seq<CycleEvent>, next: seq<CycleEvent>) {
    run != [] && next != [] && run[0].lotId != next[0].lotId
  }

  function Summaries(runs: seq<seq<CycleEvent>>): (r: seq<LotSummary>)
    requires forall k :: 0 <= k < |runs| ==> runs[k] != []
    ensures |r| == |runs|
  {
    seq(|runs|, k requires 0 <= k < |runs| => Summarize(runs[k][0].lotId, runs[k]))
  }

  /** The finalised lots a complete run should have. */
  function LotsOf(events: seq<CycleEvent>): seq<LotSummary> {
    RunsAreMaximal(events);
    Summaries(Runs(events))
  }

  // ---------------------------------------------------------------------------- one step of the machine

  function Observe(w: World, row: ReplayRow, active: Runtime): CycleEvent {
    var i := w.infer(row, active);
    CycleEvent(row.eventId, LotIdOf(row), row.scenarioPhase, row.sourceClass,
               if row.defective then DEFECTIVE else CONFORME,
               i.decision, i.roiQualityStatus, i.roiRatio, i.viewKey, i.roiMask, active.version)
  }

  function RoiFailRate(lot: LotSummary): real {
    if lot.eventCount == 0 then 0.0 else lot.roiFail as real / lot.eventCount as real
  }

  /** `_finalize_lot` with `lifecycle_decision_for_lot` */
  function FinalizeLot(w: World, args: Args, s: State, lot: LotSummary): (Decision, State) {
    var total := s.totalConforming + lot.conformingValidated;
    var since := total - s.lastCycleConforming;
    var correctionReady := args.scenarioId == P4_DRIFT_SCENARIO && args.externalDriftConfirmed
      && |s.seen| >= args.lifecycleInterval;
    var drift := args.scenarioId == DRIFT_SCENARIO || correctionReady;
    var decision := Decision(w.decide(Signal(args.scenarioId, since, drift, RoiFailRate(lot)), args.lifecycleInterval),
                             since);
    (decision, s.(totalConforming := total, lots := s.lots + [lot], decisions := s.decisions + [decision]))
  }

  predicate ReachedMaxCycles(args: Args, cycles: seq<Cycle>) {
    args.maxCycles.Some? && |cycles| >= args.maxCycles.value
  }

  function ThresholdsOf(m: Metrics): Option<Thresholds> { m.thresholds }

  /** Hand-over after the independent gates of dual promotion. */
  function DualPromotion(w: World, args: Args, s: State, c: Candidate, name: string, consumed: int): State {
    var classification := ClassificationPasses(args.policy, w.gate(s.active.checkpoint),
                                               w.gate(c.classificationCheckpoint));
    var localization := LocalizationPasses(args.policy, w.gate(s.localization.checkpoint),
                                           w.gate(c.localizationCheckpoint));
    s.(
      cycles := s.cycles + [Cycle(name, consumed, classification, localization, Some(|s.seen|),
                               c.classificationCheckpoint, c.localizationCheckpoint)],
      promotionChain := if classification then s.promotionChain + [name] else s.promotionChain,
      localizationChain := if localization then s.localizationChain + [name] else s.localizationChain,
      active := if classification
        then Runtime(name, c.classificationCheckpoint, ThresholdsOf(w.gate(c.classificationCheckpoint))) else s.active,
      localization := if localization
        then Runtime(name, c.localizationCheckpoint, ThresholdsOf(w.gate(c.localizationCheckpoint)))
          else s.localization)
  }

  /** Hand-over after the single gate on the reference panel. */
  function ReferencePromotion(w: World, args: Args, s: State, c: Candidate, name: string, consumed: int): State {
    var promoted := ReferencePasses(args.policy, w.reference(s.active.checkpoint), w.reference(c.checkpoint));
    s.(
      cycles := s.cycles + [Cycle(name, consumed, promoted, false, Some(|s.seen|), c.checkpoint, "")],
      promotionChain := if promoted then s.promotionChain + [name] else s.promotionChain,
      active := if promoted then Runtime(name, c.checkpoint, ThresholdsOf(w.reference(c.checkpoint))) else s.active)
  }

  /** `build_progressive_cycle` followed by the hand-over in `handle_lifecycle_decision`. */
  function RunCandidate(w: World, args: Args, s: State, decision: Decision): State {
    var name := CandidateName(|s.cycles| + 1);
    var settled := s.(lastCycleConforming := s.totalConforming);
    if args.mode != ProgressiveTrain then
      settled.(cycles := s.cycles + [Cycle(name, decision.conformingCount, false, false, None, "", "")])
    else
      var c := w.train(s.seen, |s.cycles| + 1, s.active, s.localization);
      if args.dualPromotion then DualPromotion(w, args, settled, c, name, decision.conformingCount)
      else ReferencePromotion(w, args, settled, c, name, decision.conformingCount)
  }

  /** `handle_lifecycle_decision`: whether the run must stop, and the next state. */
  function HandleDecision(w: World, args: Args, s: State, decision: Decision): (bool, State) {
    if !decision.trigger then (false, s)
    else
      var triggered := s.(trigger := Some(decision));
      if !Progressive(args.mode) then (true, triggered)
      else
        var next := RunCandidate(w, args, triggered, decision);
        (ReachedMaxCycles(args, next.cycles), next)
  }

  function CloseLot(w: World, args: Args, s: State, lot: Lot): (bool, State) {
    var finalized := FinalizeLot(w, args, s, Summarize(lot.lotId, lot.events));
    HandleDecision(w, args, finalized.1, finalized.0)
  }

  predicate EventLimitReached(args: Args, seen: seq<CycleEvent>) {
    args.maxEvents.Some? && |seen| >= args.maxEvents.value
  }

  predicate LotLimitReached(args: Args, lots: seq<LotSummary>) {
    args.maxLots.Some? && |lots| >= args.maxLots.value
  }

  // ---------------------------------------------------------------------------- whole runs

  /** Why the event loop ended. */
  datatype Ended = Exhausted | EventLimit | Stopped | LotLimit

  datatype Outcome = Outcome(s: State, lot: Option<Lot>, ended: Ended)

  function Crosses(lot: Option<Lot>, row: ReplayRow): bool {
    lot.Some? && lot.value.lotId != LotIdOf(row)
  }

  /** Processing one event: it joins the current lot, or opens one when there is none or the id changed. */
  function TakeEvent(w: World, s: State, lot: Option<Lot>, row: ReplayRow): (State, Option<Lot>) {
    var e := Observe(w, row, s.active);
    var current := if lot.None? || Crosses(lot, row) then Lot(LotIdOf(row), []) else lot.value;
    (s.(seen := s.seen + [e]), Some(Lot(current.lotId, current.events + [e])))
  }

  function Replay(w: World, args: Args, rows: seq<ReplayRow>, s: State, lot: Option<Lot>): Outcome
    decreases |rows|
  {
    if rows == [] then Outcome(s, lot, Exhausted)
    else if EventLimitReached(args, s.seen) then Outcome(s, lot, EventLimit)
    else
      var closed := if Crosses(lot, rows[0]) then CloseLot(w, args, s, lot.value) else (false, s);
      if closed.0 then Outcome(closed.1, lot, Stopped)
      else if Crosses(lot, rows[0]) && LotLimitReached(args, closed.1.lots) then Outcome(closed.1, lot, LotLimit)
      else
        var taken := TakeEvent(w, closed.1, lot, rows[0]);
        Replay(w, args, rows[1..], taken.0, taken.1)
  }

  predicate ShouldFinalizeLastLot(args: Args, s: State) {
    s.trigger.None? || (Progressive(args.mode) && !ReachedMaxCycles(args, s.cycles))
  }

  function Start(initial: Runtime, localization: Runtime): State {
    State([], [], [], 0, 0, None, [], [initial.version], [localization.version], initial, localization)
  }

  function Loop(w: World, args: Args, rows: seq<ReplayRow>, initial: Runtime, localization: Runtime): Outcome {
    Replay(w, args, rows, Start(initial, localization), None)
  }

  /** The state `run_cycle` ends with. */
  function Run(w: World, args: Args, rows: seq<ReplayRow>, initial: Runtime, localization: Runtime): State {
    var o := Loop(w, args, rows, initial, localization);
    if o.lot.Some? && ShouldFinalizeLastLot(args, o.s) then CloseLot(w, args, o.s, o.lot.value).1 else o.s
  }

  // ---------------------------------------------------------------------------- candidate names

  function Decimal(n: nat): (s: string)
    ensures s != "" && forall c :: c in s ==> '0' <= c <= '9'
  {
    var digit := '0' + (n % 10) as char;
    if n < 10 then [digit] else Decimal(n / 10) + [digit]
  }

  function Pad3(s: string): string
    decreases 3 - |s|
  {
    if |s| >= 3 then s else Pad3("0" + s)
  }

  /** `f"rd_feature_ae_gated_natural_cycle_{n:03d}"` */
  function CandidateName(n: nat): string {
    "rd_feature_ae_gated_natural_cycle_" + Pad3(Decimal(n))
  }

  function ReadDecimal(s: string): int {
    if s == "" then 0 else 10 * ReadDecimal(s[..|s| - 1]) + (s[|s| - 1] as int - '0' as int)
  }

  lemma {:induction false} ReadDecimalInverts(n: nat)
    ensures ReadDecimal(Decimal(n)) == n
  {
    if n >= 10 {
      ReadDecimalInverts(n / 10);
      assert Decimal(n)[..|Decimal(n)| - 1] == Decimal(n / 10);
    } else {
      assert Decimal(n)[..0] == "";
    }
  }

  lemma {:induction false} LeadingZero(s: string)
    ensures ReadDecimal("0" + s) == ReadDecimal(s)
  {
    if s == "" {
      assert ("0" + s)[..0] == "";
    } else {
      LeadingZero(s[..|s| - 1]);
      assert ("0" + s)[..|s|] == "0" + s[..|s| - 1];
    }
  }

  lemma {:induction false} PaddingKeepsValue(s: string)
    ensures ReadDecimal(Pad3(s)) == ReadDecimal(s)
    decreases 3 - |s|
  {
    if |s| < 3 {
      PaddingKeepsValue("0" + s);
      LeadingZero(s);
    }
  }

  /** Different cycles name different candidates. */
  lemma CandidateNamesDiffer(n: nat, m: nat)
    requires n != m
    ensures CandidateName(n) != CandidateName(m)
  {
    ReadDecimalInverts(n);
    ReadDecimalInverts(m);
    PaddingKeepsValue(Decimal(n));
    PaddingKeepsValue(Decimal(m));
    var prefix := "rd_feature_ae_gated_natural_cycle_";
    assert CandidateName(n)[|prefix|..] == Pad3(Decimal(n)) && CandidateName(m)[|prefix|..] == Pad3(Decimal(m));
  }
}
