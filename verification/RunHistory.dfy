/** A run of the replay lifecycle read off its records (scripts/run_replay_lifecycle_cycle.py): the decision on every
    finalised lot, what every cycle trained and promoted, and what the rules of src/iqa/monitoring/lifecycle.py make
    of each scenario. */
module RunHistory {
  import opened ReplayEvents
  import opened Calibration
  import opened PromotionGate
  import opened ReplayLifecycle
  import opened LifecycleRuns

  // ---------------------------------------------------------------------------- the counts of a lot

  ghost predicate IsConforme(e: CycleEvent) { e.oracleVerdict == "conforme" }
  ghost predicate IsNotConforme(e: CycleEvent) { e.oracleVerdict != "conforme" }
  ghost predicate IsRoiRejected(e: CycleEvent) { e.roiQualityStatus == "fail" }

  ghost function DecidedAs(decision: string): CycleEvent -> bool { (e: CycleEvent) => e.decision == decision }

  lemma DecisionsSnoc(events: seq<CycleEvent>, e: CycleEvent)
    ensures CountDecisions(events + [e]) == CountDecision(CountDecisions(events), e.decision)
  {
    assert (events + [e])[..|events|] == events;
  }

  lemma {:induction false} DecisionsCounted(events: seq<CycleEvent>, decision: string)
    ensures decision in CountDecisions(events) <==> Where(events, DecidedAs(decision)) != {}
    ensures decision in CountDecisions(events) ==>
      CountDecisions(events)[decision] == |Where(events, DecidedAs(decision))|
  {
    if events == [] {
      assert Where(events, DecidedAs(decision)) == {};
    } else {
      var front, last := events[..|events| - 1], events[|events| - 1];
      DecisionsCounted(front, decision);
      assert events == front + [last];
      DecisionsSnoc(front, last);
      WhereSnoc(front, last, DecidedAs(decision));
    }
  }

  /** The counts written for a lot are those of its events. */
  lemma LotCountsExact(lotId: string, events: seq<CycleEvent>, decision: string)
    ensures var lot := Summarize(lotId, events);
      && lot.lotId == lotId && lot.eventCount == |events|
      && lot.conformingValidated == |Where(events, IsConforme)|
      && lot.defective == |Where(events, IsNotConforme)|
      && lot.roiFail == |Where(events, IsRoiRejected)|
      && (decision in lot.decisions <==> Where(events, DecidedAs(decision)) != {})
      && (decision in lot.decisions ==> lot.decisions[decision] == |Where(events, DecidedAs(decision))|)
  {
    CountIsSize(events, IsConforming);
    CountIsSize(events, IsRoiFail);
    assert Where(events, IsConforme) == Where(events, IsConforming);
    assert Where(events, IsRoiRejected) == Where(events, IsRoiFail);
    WhereElse(events, IsConforme, IsNotConforme);
    DecisionsCounted(events, decision);
  }

  // ---------------------------------------------------------------------------- the decision on a lot

  function EventsIn(lots: seq<LotSummary>): nat {
    if lots == [] then 0 else EventsIn(lots[..|lots| - 1]) + lots[|lots| - 1].eventCount
  }

  /** How many events were processed when lot k was finalised: those of the lots up to it. (A lot that is finalised
      twice adds none the second time.) */
  function ProcessedAt(s: State, k: nat): nat
    requires k < |s.lots|
  {
    if EventsIn(s.lots[..k + 1]) <= |s.seen| then EventsIn(s.lots[..k + 1]) else |s.seen|
  }

  /** Conforming pieces since the last lot that triggered. */
  function SinceTrigger(s: State, k: nat): int
    requires k < |s.lots| == |s.decisions|
  {
    (if k == 0 || s.decisions[k - 1].trigger then 0 else s.decisions[k - 1].conformingCount)
    + s.lots[k].conformingValidated
  }

  /** The lifecycle was asked about lot k with these values, and its answer was written. */
  ghost predicate Decided(w: World, args: Args, s: State, k: nat)
    requires k < |s.lots| == |s.decisions|
  {
    var drift :=
      || args.scenarioId == "drift_domain_extension"
      || (&& args.scenarioId == "production_replay_natural_piece_b_to_piece_a_p4_drift"
          && args.externalDriftConfirmed && ProcessedAt(s, k) >= args.lifecycleInterval);
    var lot := s.lots[k];
    var roiFailRate := if lot.eventCount == 0 then 0.0 else lot.roiFail as real / lot.eventCount as real;
    s.decisions[k] == Decision(w.decide(Signal(args.scenarioId, SinceTrigger(s, k), drift, roiFailRate),
                                        args.lifecycleInterval),
                               SinceTrigger(s, k))
  }

  /** Lots whose decision triggered, in order. */
  function Triggers(decisions: seq<Decision>): (r: seq<nat>)
    ensures forall c :: 0 <= c < |r| ==> r[c] < |decisions|
  {
    if decisions == [] then []
    else Triggers(decisions[..|decisions| - 1]) + if LastOf(decisions).trigger then [|decisions| - 1] else []
  }

  ghost predicate DecisionsLogged(w: World, args: Args, s: State) {
    && |s.decisions| == |s.lots|
    && forall k :: 0 <= k < |s.lots| ==> Decided(w, args, s, k)
  }

  /** One cycle for each trigger in a progressive mode, none in the others; each consumes what its lot counted. */
  ghost predicate CyclesLogged(args: Args, s: State) {
    var triggers := Triggers(s.decisions);
    && |s.cycles| == (if Progressive(args.mode) then |triggers| else 0)
    && (forall c :: 0 <= c < |s.cycles| ==> s.cycles[c].consumed == s.decisions[triggers[c]].conformingCount)
    && s.trigger == (if triggers == [] then None else Some(s.decisions[LastOf(triggers)]))
  }

  /** What is counted since the last trigger, while the run goes on. */
  ghost predicate CountedSince(s: State) {
    s.totalConforming - s.lastCycleConforming
    == if s.decisions == [] || LastOf(s.decisions).trigger then 0 else LastOf(s.decisions).conformingCount
  }

  /** A cycle hands over from the event after its lot on. */
  ghost predicate ActivatedAfterLots(s: State) {
    var triggers := Triggers(s.decisions);
    && |s.decisions| == |s.lots| && |s.cycles| <= |triggers|
    && forall c :: 0 <= c < |s.cycles| ==> s.cycles[c].activationEventIndex.Some? ==>
        s.cycles[c].activationEventIndex.value == ProcessedAt(s, triggers[c])
  }

  ghost predicate Logged(w: World, args: Args, s: State) {
    DecisionsLogged(w, args, s) && CyclesLogged(args, s) && ActivatedAfterLots(s)
  }

  lemma EventsInSnoc(lots: seq<LotSummary>, lot: LotSummary)
    ensures EventsIn(lots + [lot]) == EventsIn(lots) + lot.eventCount
  {
    assert (lots + [lot])[..|lots|] == lots;
  }

  lemma {:induction false} EventsInPrefix(lots: seq<LotSummary>, k: nat)
    requires k <= |lots|
    ensures EventsIn(lots[..k]) <= EventsIn(lots)
    decreases |lots|
  {
    if k < |lots| {
      EventsInPrefix(lots[..|lots| - 1], k);
      assert lots[..|lots| - 1][..k] == lots[..k];
    } else {
      assert lots[..k] == lots;
    }
  }

  lemma {:induction false} EventsOfRuns(runs: seq<seq<CycleEvent>>)
    requires forall k :: 0 <= k < |runs| ==> runs[k] != []
    ensures EventsIn(Summaries(runs)) == |Concat(runs)|
  {
    if runs != [] {
      var m := |runs| - 1;
      EventsOfRuns(runs[..m]);
      assert Summaries(runs)[..m] == Summaries(runs[..m]);
    }
  }

  lemma EventsOfLots(seen: seq<CycleEvent>)
    ensures EventsIn(LotsOf(seen)) == |seen|
  {
    RunsAreMaximal(seen);
    EventsOfRuns(Runs(seen));
  }

  lemma TriggersSnoc(decisions: seq<Decision>, d: Decision)
    ensures Triggers(decisions + [d]) == Triggers(decisions) + if d.trigger then [|decisions|] else []
  {
    assert (decisions + [d])[..|decisions|] == decisions;
  }

  // ---------------------------------------------------------------------------- every step keeps the log

  lemma DecidedStays(w: World, args: Args, s: State, next: State, k: nat)
    requires k < |s.lots| == |s.decisions| <= |next.lots| == |next.decisions|
    requires next.lots[..|s.lots|] == s.lots && next.decisions[..|s.decisions|] == s.decisions
    requires Decided(w, args, s, k) && ProcessedAt(next, k) == ProcessedAt(s, k)
    ensures Decided(w, args, next, k)
  {
    assert next.lots[k] == s.lots[k] && next.decisions[k] == s.decisions[k];
    assert k > 0 ==> next.decisions[k - 1] == s.decisions[k - 1];
  }

  lemma ProcessedGrows(s: State, next: State, lot: LotSummary)
    requires next.seen == s.seen && next.lots == s.lots + [lot] && EventsIn(s.lots) + lot.eventCount >= |s.seen|
    ensures ProcessedAt(next, |s.lots|) == |s.seen|
    ensures forall j :: 0 <= j < |s.lots| ==> ProcessedAt(next, j) == ProcessedAt(s, j)
  {
    EventsInSnoc(s.lots, lot);
    assert next.lots[..|s.lots| + 1] == next.lots;
    forall j | 0 <= j < |s.lots| ensures ProcessedAt(next, j) == ProcessedAt(s, j) {
      assert next.lots[..j + 1] == s.lots[..j + 1];
    }
  }

  lemma FinalizeDecides(w: World, args: Args, s: State, lot: LotSummary)
    requires DecisionsLogged(w, args, s) && CountedSince(s) && EventsIn(s.lots) + lot.eventCount >= |s.seen|
    ensures DecisionsLogged(w, args, FinalizeLot(w, args, s, lot).1)
    ensures var (decision, next) := FinalizeLot(w, args, s, lot);
      next.totalConforming - next.lastCycleConforming == decision.conformingCount
  {
    var next := FinalizeLot(w, args, s, lot).1;
    var k := |s.lots|;
    ProcessedGrows(s, next, lot);
    assert next.lots[..k] == s.lots && next.decisions[..k] == s.decisions;
    assert Decided(w, args, next, k);
    forall j | 0 <= j < k ensures Decided(w, args, next, j) { DecidedStays(w, args, s, next, j); }
  }

  lemma CandidateKeepsLots(w: World, args: Args, s: State, decision: Decision)
    ensures var next := RunCandidate(w, args, s, decision);
      && next.seen == s.seen && next.lots == s.lots && next.decisions == s.decisions && next.trigger == s.trigger
      && next.totalConforming == s.totalConforming == next.lastCycleConforming
      && |next.cycles| == |s.cycles| + 1 && next.cycles[..|s.cycles|] == s.cycles
      && LastOf(next.cycles).consumed == decision.conformingCount
      && (LastOf(next.cycles).activationEventIndex.Some? ==> LastOf(next.cycles).activationEventIndex.value == |s.seen|)
  {
  }

  lemma CycleLogGrows(args: Args, s: State, next: State, d: Decision)
    requires CyclesLogged(args, s) && next.decisions == s.decisions + [d]
    requires if d.trigger then next.trigger == Some(d) else next.trigger == s.trigger
    requires if d.trigger && Progressive(args.mode)
      then |next.cycles| == |s.cycles| + 1 && next.cycles[..|s.cycles|] == s.cycles
           && LastOf(next.cycles).consumed == d.conformingCount
      else next.cycles == s.cycles
    ensures CyclesLogged(args, next)
  {
    TriggersSnoc(s.decisions, d);
    var before, after := Triggers(s.decisions), Triggers(next.decisions);
    forall c | 0 <= c < |next.cycles| ensures next.cycles[c].consumed == next.decisions[after[c]].conformingCount {
      if c < |s.cycles| { assert next.cycles[c] == next.cycles[..|s.cycles|][c] && after[c] == before[c]; }
    }
  }

  lemma ActivationLogGrows(s: State, next: State, d: Decision)
    requires ActivatedAfterLots(s) && next.decisions == s.decisions + [d]
    requires |next.lots| == |s.lots| + 1 && ProcessedAt(next, |s.lots|) == |s.seen|
    requires forall j :: 0 <= j < |s.lots| ==> ProcessedAt(next, j) == ProcessedAt(s, j)
    requires |s.cycles| == |Triggers(s.decisions)| || next.cycles == s.cycles
    requires next.cycles == s.cycles
      || (&& d.trigger && |next.cycles| == |s.cycles| + 1 && next.cycles[..|s.cycles|] == s.cycles
          && (LastOf(next.cycles).activationEventIndex.Some? ==>
                LastOf(next.cycles).activationEventIndex.value == |s.seen|))
    ensures ActivatedAfterLots(next)
  {
    TriggersSnoc(s.decisions, d);
    var before, after := Triggers(s.decisions), Triggers(next.decisions);
    forall c | 0 <= c < |next.cycles| && next.cycles[c].activationEventIndex.Some?
      ensures next.cycles[c].activationEventIndex.value == ProcessedAt(next, after[c]) {
      if c < |s.cycles| { assert next.cycles[c] == s.cycles[c] && after[c] == before[c]; }
    }
  }

  /** Closing a lot writes its decision and, when it triggers in a progressive mode, runs its cycle. */
  lemma CloseLotLogged(w: World, args: Args, s: State, lot: Lot)
    requires Logged(w, args, s) && CountedSince(s) && EventsIn(s.lots) + |lot.events| >= |s.seen|
    ensures var (stop, next) := CloseLot(w, args, s, lot); Logged(w, args, next) && (!stop ==> CountedSince(next))
  {
    var summary := Summarize(lot.lotId, lot.events);
    var (d, finalized) := FinalizeLot(w, args, s, summary);
    var next := CloseLot(w, args, s, lot).1;
    FinalizeDecides(w, args, s, summary);
    ProcessedGrows(s, finalized, summary);
    if d.trigger && Progressive(args.mode) { CandidateKeepsLots(w, args, finalized.(trigger := Some(d)), d); }
    CycleLogGrows(args, s, next, d);
    ActivationLogGrows(s, next, d);
    SameDecisions(w, args, finalized, next);
  }

  lemma SameDecisions(w: World, args: Args, s: State, next: State)
    requires DecisionsLogged(w, args, s)
    requires next.seen == s.seen && next.lots == s.lots && next.decisions == s.decisions
    ensures DecisionsLogged(w, args, next)
  {
    forall k | 0 <= k < |next.lots| ensures Decided(w, args, next, k) {
      assert next.lots[..|s.lots|] == s.lots && next.decisions[..|s.decisions|] == s.decisions;
      DecidedStays(w, args, s, next, k);
    }
  }

  /** Further events leave the log as it is. */
  lemma TakeEventLogged(w: World, args: Args, s: State, lot: Option<Lot>, row: ReplayRow)
    requires Logged(w, args, s) && EventsIn(s.lots) <= |s.seen|
    ensures Logged(w, args, TakeEvent(w, s, lot, row).0)
  {
    var next := TakeEvent(w, s, lot, row).0;
    forall k | 0 <= k < |next.lots| ensures ProcessedAt(next, k) == ProcessedAt(s, k) && Decided(w, args, next, k) {
      EventsInPrefix(s.lots, k + 1);
      assert next.lots[..|s.lots|] == s.lots && next.decisions[..|s.decisions|] == s.decisions;
      DecidedStays(w, args, s, next, k);
    }
  }

  lemma OpenLotEvents(seen: seq<CycleEvent>, lots: seq<LotSummary>, lot: Option<Lot>)
    requires LotsOpen(seen, lots, lot)
    ensures EventsIn(lots) + (if lot.Some? then |lot.value.events| else 0) == |seen|
  {
    EventsOfLots(seen);
    if lot.Some? { EventsInSnoc(lots, Summarize(lot.value.lotId, lot.value.events)); }
  }

  /** Between two lots, or within one. */
  ghost predicate Going(w: World, args: Args, s: State, lot: Option<Lot>) {
    Logged(w, args, s) && CountedSince(s) && LotsOpen(s.seen, s.lots, lot)
  }

  ghost function GoingOf(w: World, args: Args): (State, Option<Lot>) -> bool {
    (s: State, lot: Option<Lot>) => Going(w, args, s, lot)
  }

  /** Where the loop may end: after a cycle that stops the run, or with the count since the last trigger at hand. */
  ghost function HaltedOf(w: World, args: Args): (bool, State) -> bool {
    (stopped: bool, s: State) => Logged(w, args, s) && (!stopped ==> CountedSince(s))
  }

  lemma BoundaryLogged(w: World, args: Args, s: State, lot: Option<Lot>, row: ReplayRow)
    requires Going(w, args, s, lot)
    ensures var closed := Bounded(w, args, s, lot, row);
      && Logged(w, args, closed.1) && (!closed.0 ==> CountedSince(closed.1))
      && (!closed.0 ==> Going(w, args, TakeEvent(w, closed.1, lot, row).0, TakeEvent(w, closed.1, lot, row).1))
  {
    var closed := Bounded(w, args, s, lot, row);
    OpenLotEvents(s.seen, s.lots, lot);
    if Crosses(lot, row) { CloseLotOpens(w, args, s, lot.value); }
    TakeEventKeepsLots(w, closed.1, lot, row);
    TakeEventLogged(w, args, closed.1, lot, row);
  }

  lemma ReplayLogged(w: World, args: Args, rows: seq<ReplayRow>, s: State, lot: Option<Lot>)
    requires Going(w, args, s, lot)
    ensures var o := Replay(w, args, rows, s, lot); Logged(w, args, o.s) && (o.ended != Stopped ==> CountedSince(o.s))
  {
    var going, halted := GoingOf(w, args), HaltedOf(w, args);
    forall s, lot, row | going(s, lot)
      ensures halted(Bounded(w, args, s, lot, row).0, Bounded(w, args, s, lot, row).1)
      ensures !Bounded(w, args, s, lot, row).0 ==>
        going(TakeEvent(w, Bounded(w, args, s, lot, row).1, lot, row).0,
              TakeEvent(w, Bounded(w, args, s, lot, row).1, lot, row).1)
    {
      BoundaryLogged(w, args, s, lot, row);
    }
    ReplayGoes(w, args, rows, s, lot, going, halted);
  }

  lemma CloseLotOpens(w: World, args: Args, s: State, lot: Lot)
    requires Logged(w, args, s) && CountedSince(s) && LotsOpen(s.seen, s.lots, Some(lot))
    ensures var (stop, next) := CloseLot(w, args, s, lot);
      && Logged(w, args, next) && (!stop ==> CountedSince(next))
      && LotsClosed(next.seen, next.lots, Some(lot)) && EventsIn(next.lots) == |next.seen|
  {
    OpenLotEvents(s.seen, s.lots, Some(lot));
    CloseLotLogged(w, args, s, lot);
    CloseLotEffects(w, args, s, lot);
    EventsInSnoc(s.lots, Summarize(lot.lotId, lot.events));
  }

  /** The lots file of every run: lot k was decided by asking the lifecycle with the conforming pieces since the last
      trigger, with confirmed drift exactly in the drift extension, or in the P4 scenario when drift was confirmed
      externally and `lifecycle_interval` events were processed by then, and with the lot's share of failed ROIs.
      There is one cycle for each trigger in the progressive modes, active from the event after its lot on, and none in
      the others. */
  lemma LotDecisions(w: World, args: Args, rows: seq<ReplayRow>, initial: Runtime, localization: Runtime)
    ensures Logged(w, args, Run(w, args, rows, initial, localization))
  {
    var start, o := Start(initial, localization), Loop(w, args, rows, initial, localization);
    assert LotsOf([]) == [] && Triggers([]) == [];
    ReplayLogged(w, args, rows, start, None);
    ReplayKeepsLots(w, args, rows, start, None);
    if o.lot.Some? && ShouldFinalizeLastLot(args, o.s) {
      LastLotEvents(args, o);
      CloseLotLogged(w, args, o.s, o.lot.value);
    }
  }

  lemma LastLotEvents(args: Args, o: Outcome)
    requires Consistent(args, o) && o.lot.Some? && o.ended != Stopped
    ensures EventsIn(o.s.lots) + |o.lot.value.events| >= |o.s.seen|
  {
    if o.ended == LotLimit { EventsOfLots(o.s.seen); } else { OpenLotEvents(o.s.seen, o.s.lots, o.lot); }
  }

  // ---------------------------------------------------------------------------- what a cycle trains and promotes

  /** Cycle k was trained on the events up to its lot, from the models active then; each role is promoted exactly when
      its gate passes against the model active in that role, and hands over the checkpoint trained for it. */
  ghost predicate TrainedAs(w: World, args: Args, initial: Runtime, localization: Runtime, seen: seq<CycleEvent>,
                            cycles: seq<Cycle>, k: nat)
    requires k < |cycles|
  {
    var c := cycles[k];
    && c.candidateVersion == CandidateName(k + 1)
    && if args.mode != ProgressiveTrain then !c.decisionPromoted && !c.localizationPromoted
       else
         && c.activationEventIndex.Some? && c.activationEventIndex.value <= |seen|
         && var n := c.activationEventIndex.value;
            var decider := RuntimeAt(GateOf(w, args), initial, cycles[..k], n);
            var locator := LastLocalization(w.gate, localization, cycles[..k]);
            var trained := w.train(seen[..n], k + 1, decider, locator);
            if args.dualPromotion then
              && c.checkpoint == trained.classificationCheckpoint
              && c.localizationCheckpoint == trained.localizationCheckpoint
              && c.decisionPromoted
                 == ClassificationPasses(args.policy, w.gate(decider.checkpoint), w.gate(c.checkpoint))
              && c.localizationPromoted
                 == LocalizationPasses(args.policy, w.gate(locator.checkpoint), w.gate(c.localizationCheckpoint))
            else
              && c.checkpoint == trained.checkpoint && !c.localizationPromoted
              && c.decisionPromoted
                 == ReferencePasses(args.policy, w.reference(decider.checkpoint), w.reference(c.checkpoint))
  }

  ghost predicate AllTrained(w: World, args: Args, initial: Runtime, localization: Runtime, s: State) {
    forall k :: 0 <= k < |s.cycles| ==> TrainedAs(w, args, initial, localization, s.seen, s.cycles, k)
  }

  ghost function TrainingOf(w: World, args: Args, rows: seq<ReplayRow>, initial: Runtime,
                            localization: Runtime): State -> bool {
    (s: State) => Invariant(w, args, rows, initial, localization, s) && AllTrained(w, args, initial, localization, s)
  }

  lemma TrainedStays(w: World, args: Args, initial: Runtime, localization: Runtime, seen: seq<CycleEvent>,
                     seen': seq<CycleEvent>, cycles: seq<Cycle>, cycles': seq<Cycle>, k: nat)
    requires k < |cycles| <= |cycles'| && cycles'[..|cycles|] == cycles && seen <= seen'
    requires TrainedAs(w, args, initial, localization, seen, cycles, k)
    ensures TrainedAs(w, args, initial, localization, seen', cycles', k)
  {
    assert cycles'[k] == cycles[k];
    assert cycles'[..k] == cycles[..k];
    if args.mode == ProgressiveTrain {
      var n := cycles[k].activationEventIndex.value;
      assert seen'[..n] == seen[..n];
    }
  }

  lemma CandidateTrained(w: World, args: Args, rows: seq<ReplayRow>, initial: Runtime, localization: Runtime, s: State,
                         decision: Decision)
    requires Handed(w, args, rows, initial, localization, s) && AllTrained(w, args, initial, localization, s)
    ensures AllTrained(w, args, initial, localization, RunCandidate(w, args, s, decision))
  {
    var next := RunCandidate(w, args, s, decision);
    RunCandidateEffects(w, args, s, decision);
    assert s.seen[..|s.seen|] == s.seen;
    NewCycleTrained(w, args, initial, localization, s, decision);
    forall k | 0 <= k < |s.cycles| ensures TrainedAs(w, args, initial, localization, next.seen, next.cycles, k) {
      TrainedStays(w, args, initial, localization, s.seen, next.seen, s.cycles, next.cycles, k);
    }
  }

  lemma NewCycleTrained(w: World, args: Args, initial: Runtime, localization: Runtime, s: State, decision: Decision)
    requires s.active == RuntimeAt(GateOf(w, args), initial, s.cycles, |s.seen|)
    requires s.localization == LastLocalization(w.gate, localization, s.cycles)
    ensures var next := RunCandidate(w, args, s, decision);
      |next.cycles| == |s.cycles| + 1 && TrainedAs(w, args, initial, localization, next.seen, next.cycles, |s.cycles|)
  {
    var next := RunCandidate(w, args, s, decision);
    assert next.cycles[..|s.cycles|] == s.cycles && s.seen[..|s.seen|] == s.seen;
  }

  lemma CloseLotTrained(w: World, args: Args, rows: seq<ReplayRow>, initial: Runtime, localization: Runtime, s: State,
                        lot: Lot)
    requires Invariant(w, args, rows, initial, localization, s) && AllTrained(w, args, initial, localization, s)
    ensures AllTrained(w, args, initial, localization, CloseLot(w, args, s, lot).1)
  {
    var (decision, finalized) := FinalizeLot(w, args, s, Summarize(lot.lotId, lot.events));
    CandidateTrained(w, args, rows, initial, localization, finalized.(trigger := Some(decision)), decision);
  }

  /** The cycles of every run. */
  lemma CyclesTrained(w: World, args: Args, rows: seq<ReplayRow>, initial: Runtime, localization: Runtime)
    ensures AllTrained(w, args, initial, localization, Run(w, args, rows, initial, localization))
  {
    var inv := TrainingOf(w, args, rows, initial, localization);
    assert PromotedVersions([]) == [] && PromotedLocalizations([]) == [];
    assert inv(Start(initial, localization));
    forall s, lot | inv(s) ensures inv(CloseLot(w, args, s, lot).1) {
      CloseLotInvariant(w, args, rows, initial, localization, s, lot);
      CloseLotTrained(w, args, rows, initial, localization, s, lot);
    }
    forall s, lot | inv(s) && |s.seen| < |rows| ensures inv(TakeEvent(w, s, lot, rows[|s.seen|]).0) {
      TakeEventInvariant(w, args, rows, initial, localization, s, lot);
      TakeEventTrained(w, args, initial, localization, s, lot, rows[|s.seen|]);
    }
    RunKeeps(w, args, rows, initial, localization, inv);
  }

  lemma TakeEventTrained(w: World, args: Args, initial: Runtime, localization: Runtime, s: State, lot: Option<Lot>,
                         row: ReplayRow)
    requires AllTrained(w, args, initial, localization, s)
    ensures AllTrained(w, args, initial, localization, TakeEvent(w, s, lot, row).0)
  {
    var next := TakeEvent(w, s, lot, row).0;
    forall k | 0 <= k < |s.cycles| ensures TrainedAs(w, args, initial, localization, next.seen, next.cycles, k) {
      assert next.cycles[..|s.cycles|] == s.cycles;
      TrainedStays(w, args, initial, localization, s.seen, next.seen, s.cycles, next.cycles, k);
    }
  }

  // ---------------------------------------------------------------------------- the scenarios

  /** The lifecycle answers by its rules. */
  ghost predicate ByTheRules(w: World) {
    forall signal, interval :: w.decide(signal, interval) == EvaluateLifecycleSignal(signal, interval)
  }

  lemma {:induction false} NoTriggers(decisions: seq<Decision>)
    requires forall k :: 0 <= k < |decisions| ==> !decisions[k].trigger
    ensures Triggers(decisions) == []
  {
    if decisions != [] { NoTriggers(decisions[..|decisions| - 1]); }
  }

  /** A run whose lifecycle never triggers trains nothing and keeps its models throughout. */
  lemma QuietRun(w: World, args: Args, rows: seq<ReplayRow>, initial: Runtime, localization: Runtime)
    requires var s := Run(w, args, rows, initial, localization);
      forall k :: 0 <= k < |s.decisions| ==> !s.decisions[k].trigger
    ensures var s := Run(w, args, rows, initial, localization);
      && s.trigger == None && s.cycles == [] && s.active == initial && s.localization == localization
      && forall i :: 0 <= i < |s.seen| ==> s.seen[i].activeModelVersion == initial.version
  {
    var s := Run(w, args, rows, initial, localization);
    LotDecisions(w, args, rows, initial, localization);
    NoTriggers(s.decisions);
    ModelHandOver(w, args, rows, initial, localization);
  }

  /** In the P4 scenario without an externally confirmed drift no lot triggers: nothing is trained, however many events
      are processed. */
  lemma P4WithoutDriftIsQuiet(w: World, args: Args, rows: seq<ReplayRow>, initial: Runtime, localization: Runtime)
    requires ByTheRules(w) && args.scenarioId == "production_replay_natural_piece_b_to_piece_a_p4_drift"
    requires !args.externalDriftConfirmed
    ensures var s := Run(w, args, rows, initial, localization);
      && s.trigger == None && s.cycles == [] && s.active == initial && s.localization == localization
      && (forall k :: 0 <= k < |s.decisions| ==> !s.decisions[k].trigger)
      && (forall i :: 0 <= i < |s.seen| ==> s.seen[i].activeModelVersion == initial.version)
  {
    LotDecisions(w, args, rows, initial, localization);
    var s := Run(w, args, rows, initial, localization);
    DifferentScenarios();
    forall k | 0 <= k < |s.decisions| ensures !s.decisions[k].trigger { assert Decided(w, args, s, k); }
    QuietRun(w, args, rows, initial, localization);
  }

  /** The scenario names that the rules tell apart. */
  lemma DifferentScenarios()
    ensures "production_replay_natural_piece_b_to_piece_a_p4_drift" !in NATURAL_SCENARIOS
    ensures "drift_domain_extension" !in NATURAL_SCENARIOS
    ensures "production_replay_natural_piece_b_to_piece_a_p4_drift" != "drift_domain_extension"
  {
    assert |"production_replay_natural_piece_b_to_piece_a_p4_drift"| == 53;
    assert |"production_replay_natural"| == 25 && |"production_replay_natural_train_v004"| == 36;
    assert |"production_replay_natural_piece_b_full"| == 38 && |"drift_domain_extension"| == 22;
  }

  /** With a confirmed drift a lot of the P4 scenario triggers exactly when `lifecycle_interval` events were processed
      by its end. */
  lemma P4WithDriftTriggersIff(w: World, args: Args, rows: seq<ReplayRow>, initial: Runtime, localization: Runtime,
                               k: nat)
    requires ByTheRules(w) && args.scenarioId == "production_replay_natural_piece_b_to_piece_a_p4_drift"
    requires args.externalDriftConfirmed && k < |Run(w, args, rows, initial, localization).lots|
    ensures var s := Run(w, args, rows, initial, localization);
      && |s.decisions| == |s.lots|
      && (s.decisions[k].trigger <==> ProcessedAt(s, k) >= args.lifecycleInterval)
  {
    LotDecisions(w, args, rows, initial, localization);
    DifferentScenarios();
    assert Decided(w, args, Run(w, args, rows, initial, localization), k);
  }

  /** In the drift extension every finalised lot triggers. */
  lemma DriftExtensionTriggers(w: World, args: Args, rows: seq<ReplayRow>, initial: Runtime, localization: Runtime,
                               k: nat)
    requires ByTheRules(w) && args.scenarioId == "drift_domain_extension"
    requires k < |Run(w, args, rows, initial, localization).lots|
    ensures var s := Run(w, args, rows, initial, localization); |s.decisions| == |s.lots| && s.decisions[k].trigger
  {
    LotDecisions(w, args, rows, initial, localization);
    DifferentScenarios();
    assert Decided(w, args, Run(w, args, rows, initial, localization), k);
  }

  /** In a natural scenario a lot triggers exactly when `lifecycle_interval` conforming pieces came since the last
      trigger. */
  lemma NaturalTriggersIff(w: World, args: Args, rows: seq<ReplayRow>, initial: Runtime, localization: Runtime, k: nat)
    requires ByTheRules(w) && args.scenarioId in NATURAL_SCENARIOS
    requires k < |Run(w, args, rows, initial, localization).lots|
    ensures var s := Run(w, args, rows, initial, localization);
      && |s.decisions| == |s.lots|
      && (s.decisions[k].trigger <==> SinceTrigger(s, k) >= args.lifecycleInterval)
  {
    LotDecisions(w, args, rows, initial, localization);
    assert Decided(w, args, Run(w, args, rows, initial, localization), k);
  }

  /** In any other scenario nothing is ever trained. */
  lemma UnsupportedScenarioIsQuiet(w: World, args: Args, rows: seq<ReplayRow>, initial: Runtime, localization: Runtime)
    requires ByTheRules(w) && args.scenarioId !in NATURAL_SCENARIOS
    requires args.scenarioId != "drift_domain_extension"
    requires args.scenarioId != "production_replay_natural_piece_b_to_piece_a_p4_drift"
    ensures var s := Run(w, args, rows, initial, localization);
      s.trigger == None && s.cycles == [] && s.active == initial && s.localization == localization
  {
    LotDecisions(w, args, rows, initial, localization);
    var s := Run(w, args, rows, initial, localization);
    forall k | 0 <= k < |s.decisions| ensures !s.decisions[k].trigger { assert Decided(w, args, s, k); }
    QuietRun(w, args, rows, initial, localization);
  }
}
