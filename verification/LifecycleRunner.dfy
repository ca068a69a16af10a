/** The replay lifecycle in the form the script gives it: a lot accumulator and a cycle state updated in
    place by the event loop. Every method is tied to the step functions of `ReplayLifecycle`. */
module LifecycleRunner {
  import opened ReplayEvents
  import opened PromotionGate
  import opened ReplayLifecycle

  /** The counts of a lot with one more event. */
  function Extended(s: LotSummary, e: CycleEvent): LotSummary {
    LotSummary(s.lotId, s.eventCount + 1,
               s.conformingValidated + (if IsConforming(e) then 1 else 0),
               s.defective + (if IsConforming(e) then 0 else 1),
               s.roiFail + (if IsRoiFail(e) then 1 else 0),
               CountDecision(s.decisions, e.decision))
  }

  lemma SummarizeSnoc(lotId: string, events: seq<CycleEvent>, e: CycleEvent)
    ensures Summarize(lotId, events + [e]) == Extended(Summarize(lotId, events), e)
  {
    CountIfAppend(events, [e], IsConforming);
    CountIfAppend(events, [e], IsRoiFail);
    assert (events + [e])[..|events|] == events;
  }

  class LotAccumulator {
    const lotId: string
    var eventCount: nat
    var conformingValidatedCount: nat
    var defectiveCount: nat
    var roiFailCount: nat
    var decisions: map<string, nat>
    ghost var events: seq<CycleEvent>

    function Summary(): LotSummary
      reads this
    {
      LotSummary(lotId, eventCount, conformingValidatedCount, defectiveCount, roiFailCount, decisions)
    }

    ghost predicate Valid()
      reads this
    {
      Summary() == Summarize(lotId, events)
    }

    constructor (lotId: string)
      ensures Valid() && events == [] && this.lotId == lotId
    {
      this.lotId := lotId;
      eventCount, conformingValidatedCount, defectiveCount, roiFailCount := 0, 0, 0, 0;
      decisions := map[];
      events := [];
    }

    method Add(event: CycleEvent)
      requires Valid()
      modifies this
      ensures Valid() && events == old(events) + [event]
    {
      ghost var before := Summary();
      eventCount := eventCount + 1;
      decisions := CountDecision(decisions, event.decision);
      if event.oracleVerdict == CONFORME {
        conformingValidatedCount := conformingValidatedCount + 1;
      } else {
        defectiveCount := defectiveCount + 1;
      }
      if event.roiQualityStatus == "fail" { roiFailCount := roiFailCount + 1; }
      assert Summary() == Extended(before, event);
      SummarizeSnoc(lotId, events, event);
      events := events + [event];
    }
  }

  ghost function CurrentLot(lot: LotAccumulator?): Option<Lot>
    reads lot
  {
    if lot == null then None else Some(Lot(lot.lotId, lot.events))
  }

  /** The boundary check of the loop: whether it ends before this row, and the state it leaves. */
  ghost function Boundary(w: World, args: Args, s: State, lot: Option<Lot>, row: ReplayRow): (bool, State) {
    if Crosses(lot, row) then
      var closed := CloseLot(w, args, s, lot.value);
      (closed.0 || LotLimitReached(args, closed.1.lots), closed.1)
    else (false, s)
  }

  class CycleState {
    var eventsProcessed: nat
    var lotsProcessed: nat
    var totalConforming: int
    var lastCycleConforming: int
    var trigger: Option<Decision>
    var cycles: seq<Cycle>
    var promotionChain: seq<string>
    var localizationChain: seq<string>
    var seenEvents: seq<CycleEvent>
    var lotsFile: seq<LotSummary>
    var decisionsFile: seq<Decision>
    var activeModelFinal: string
    var activeLocalization: Runtime

    ghost predicate Valid()
      reads this
    {
      eventsProcessed == |seenEvents| && lotsProcessed == |lotsFile|
    }

    /** The state of the run while `active` is the decision model. */
    ghost function Snapshot(active: Runtime): State
      reads this
    {
      State(seenEvents, lotsFile, decisionsFile, totalConforming, lastCycleConforming, trigger, cycles,
            promotionChain, localizationChain, active, activeLocalization)
    }

    constructor (initial: Runtime, localization: Runtime)
      ensures Valid() && Snapshot(initial) == Start(initial, localization) && activeModelFinal == initial.version
    {
      eventsProcessed, lotsProcessed := 0, 0;
      totalConforming, lastCycleConforming := 0, 0;
      trigger, cycles := None, [];
      promotionChain, localizationChain := [initial.version], [localization.version];
      seenEvents, lotsFile, decisionsFile := [], [], [];
      activeModelFinal := initial.version;
      activeLocalization := localization;
    }

    method FinalizeLot(w: World, args: Args, lot: LotAccumulator, ghost active: Runtime) returns (decision: Decision)
      requires Valid()
      modifies this
      ensures Valid() && activeModelFinal == old(activeModelFinal)
      ensures (decision, Snapshot(active)) == ReplayLifecycle.FinalizeLot(w, args, old(Snapshot(active)), lot.Summary())
    {
      totalConforming := totalConforming + lot.conformingValidatedCount;
      var since := totalConforming - lastCycleConforming;
      var correctionReady := args.scenarioId == P4_DRIFT_SCENARIO && args.externalDriftConfirmed
        && eventsProcessed >= args.lifecycleInterval;
      var drift := args.scenarioId == DRIFT_SCENARIO || correctionReady;
      var signal := Signal(args.scenarioId, since, drift, RoiFailRate(lot.Summary()));
      decision := Decision(w.decide(signal, args.lifecycleInterval), since);
      lotsProcessed := lotsProcessed + 1;
      lotsFile := lotsFile + [lot.Summary()];
      decisionsFile := decisionsFile + [decision];
    }

    /** The independent gates of dual promotion. */
    method PromoteDual(w: World, args: Args, c: Candidate, name: string, consumed: int, active: Runtime)
      returns (next: Runtime)
      requires Valid() && activeModelFinal == active.version
      modifies this
      ensures Valid() && activeModelFinal == next.version
      ensures Snapshot(next) == DualPromotion(w, args, old(Snapshot(active)), c, name, consumed)
    {
      next := active;
      var classificationPromoted := ClassificationPasses(args.policy, w.gate(active.checkpoint),
                                                         w.gate(c.classificationCheckpoint));
      var localizationPromoted := LocalizationPasses(args.policy, w.gate(activeLocalization.checkpoint),
                                                     w.gate(c.localizationCheckpoint));
      cycles := cycles + [Cycle(name, consumed, classificationPromoted, localizationPromoted, Some(eventsProcessed),
                               c.classificationCheckpoint, c.localizationCheckpoint)];
      if classificationPromoted {
        activeModelFinal := name;
        promotionChain := promotionChain + [name];
        next := Runtime(name, c.classificationCheckpoint, ThresholdsOf(w.gate(c.classificationCheckpoint)));
      }
      if localizationPromoted {
        localizationChain := localizationChain + [name];
        activeLocalization := Runtime(name, c.localizationCheckpoint, ThresholdsOf(w.gate(c.localizationCheckpoint)));
      }
    }

    /** The single gate on the reference panel. */
    method PromoteReference(w: World, args: Args, c: Candidate, name: string, consumed: int, active: Runtime)
      returns (next: Runtime)
      requires Valid() && activeModelFinal == active.version
      modifies this
      ensures Valid() && activeModelFinal == next.version
      ensures Snapshot(next) == ReferencePromotion(w, args, old(Snapshot(active)), c, name, consumed)
    {
      next := active;
      var promoted := ReferencePasses(args.policy, w.reference(active.checkpoint), w.reference(c.checkpoint));
      cycles := cycles + [Cycle(name, consumed, promoted, false, Some(eventsProcessed), c.checkpoint, "")];
      if promoted {
        activeModelFinal := name;
        promotionChain := promotionChain + [name];
        next := Runtime(name, c.checkpoint, ThresholdsOf(w.reference(c.checkpoint)));
      }
    }

    /** One training cycle and its hand-over. */
    method PerformCycle(w: World, args: Args, decision: Decision, active: Runtime) returns (next: Runtime)
      requires Valid() && activeModelFinal == active.version
      modifies this
      ensures Valid() && activeModelFinal == next.version
      ensures Snapshot(next) == RunCandidate(w, args, old(Snapshot(active)), decision)
    {
      next := active;
      var number := |cycles| + 1;
      var name := CandidateName(number);
      if args.mode != ProgressiveTrain {
        lastCycleConforming := totalConforming;
        cycles := cycles + [Cycle(name, decision.conformingCount, false, false, None, "", "")];
      } else {
        var c := w.train(seenEvents, number, active, activeLocalization);
        lastCycleConforming := totalConforming;
        if args.dualPromotion {
          next := PromoteDual(w, args, c, name, decision.conformingCount, active);
        } else {
          next := PromoteReference(w, args, c, name, decision.conformingCount, active);
        }
      }
    }

    method HandleLifecycleDecision(w: World, args: Args, decision: Decision, active: Runtime)
      returns (stop: bool, next: Runtime)
      requires Valid() && activeModelFinal == active.version
      modifies this
      ensures Valid() && activeModelFinal == next.version
      ensures (stop, Snapshot(next)) == HandleDecision(w, args, old(Snapshot(active)), decision)
    {
      next := active;
      if !decision.trigger { return false, next; }
      trigger := Some(decision);
      if !Progressive(args.mode) { return true, next; }
      next := PerformCycle(w, args, decision, active);
      stop := ReachedMaxCycles(args, cycles);
    }

    method Close(w: World, args: Args, lot: LotAccumulator, active: Runtime) returns (stop: bool, next: Runtime)
      requires Valid() && activeModelFinal == active.version && lot.Valid()
      modifies this
      ensures Valid() && activeModelFinal == next.version
      ensures (stop, Snapshot(next)) == CloseLot(w, args, old(Snapshot(active)), Lot(lot.lotId, lot.events))
    {
      var decision := FinalizeLot(w, args, lot, active);
      stop, next := HandleLifecycleDecision(w, args, decision, active);
    }

    /** The boundary check of a row: a lot with another id is closed; whether the loop must end there. */
    method CloseBefore(w: World, args: Args, row: ReplayRow, lot: LotAccumulator?, active: Runtime)
      returns (end: bool, next: Runtime)
      requires Valid() && activeModelFinal == active.version && (lot != null ==> lot.Valid())
      modifies this
      ensures Valid() && activeModelFinal == next.version
      ensures (end, Snapshot(next)) == Boundary(w, args, old(Snapshot(active)), CurrentLot(lot), row)
    {
      end, next := false, active;
      if lot != null && lot.lotId != LotIdOf(row) {
        var stop;
        stop, next := Close(w, args, lot, active);
        end := stop || LotLimitReached(args, lotsFile);
      }
    }

    /** `should_finalize_last_lot` and the closing of the last lot. */
    method CloseLast(w: World, args: Args, lot: LotAccumulator?, active: Runtime) returns (next: Runtime)
      requires Valid() && activeModelFinal == active.version && (lot != null ==> lot.Valid())
      modifies this
      ensures Valid() && activeModelFinal == next.version
      ensures var s, current := old(Snapshot(active)), CurrentLot(lot);
        Snapshot(next) == if current.Some? && ShouldFinalizeLastLot(args, s) then CloseLot(w, args, s, current.value).1
          else s
    {
      next := active;
      if lot != null && (trigger.None? || (Progressive(args.mode) && !ReachedMaxCycles(args, cycles))) {
        var stop;
        stop, next := Close(w, args, lot, active);
      }
    }

    /** One row of the loop after the boundary check: the event joins `lot`, or a new lot. */
    method Process(w: World, row: ReplayRow, lot: LotAccumulator?, active: Runtime) returns (current: LotAccumulator)
      requires Valid() && activeModelFinal == active.version && (lot != null ==> lot.Valid())
      modifies this, lot
      ensures Valid() && activeModelFinal == active.version
      ensures current.Valid() && (current == lot || fresh(current))
      ensures (Snapshot(active), CurrentLot(current)) == TakeEvent(w, old(Snapshot(active)), old(CurrentLot(lot)), row)
    {
      var lotId := LotIdOf(row);
      if lot == null || lot.lotId != lotId {
        current := new LotAccumulator(lotId);
      } else {
        current := lot;
      }
      var event := Observe(w, row, active);
      current.Add(event);
      seenEvents := seenEvents + [event];
      eventsProcessed := eventsProcessed + 1;
    }
  }


  /** What is left of the loop at row i leads to this outcome. */
  ghost predicate LeadsTo(w: World, args: Args, rows: seq<ReplayRow>, i: nat, s: State, lot: Option<Lot>,
                          outcome: Outcome)
    requires i <= |rows|
  {
    forall rest :: rest == rows[i..] ==>
      Replay(w, args, rest, s, lot).s == outcome.s && Replay(w, args, rest, s, lot).lot == outcome.lot
  }

  lemma LoopEnds(w: World, args: Args, rows: seq<ReplayRow>, i: nat, s: State, lot: Option<Lot>, outcome: Outcome)
    requires i <= |rows| && (i == |rows| || EventLimitReached(args, s.seen))
      && LeadsTo(w, args, rows, i, s, lot, outcome)
    ensures outcome.s == s && outcome.lot == lot
  {
    var o := Replay(w, args, rows[i..], s, lot);
    assert o.s == outcome.s && o.lot == outcome.lot;
  }

  lemma LoopBreaks(w: World, args: Args, rows: seq<ReplayRow>, i: nat, s: State, lot: Option<Lot>, outcome: Outcome)
    requires i < |rows| && !EventLimitReached(args, s.seen) && Boundary(w, args, s, lot, rows[i]).0
    requires LeadsTo(w, args, rows, i, s, lot, outcome)
    ensures outcome.s == Boundary(w, args, s, lot, rows[i]).1 && outcome.lot == lot
  {
    var o := Replay(w, args, rows[i..], s, lot);
    assert o.s == outcome.s && o.lot == outcome.lot;
  }

  lemma LoopContinues(w: World, args: Args, rows: seq<ReplayRow>, i: nat, s: State, lot: Option<Lot>, outcome: Outcome)
    requires i < |rows| && !EventLimitReached(args, s.seen) && !Boundary(w, args, s, lot, rows[i]).0
    requires LeadsTo(w, args, rows, i, s, lot, outcome)
    ensures var taken := TakeEvent(w, Boundary(w, args, s, lot, rows[i]).1, lot, rows[i]);
      LeadsTo(w, args, rows, i + 1, taken.0, taken.1, outcome)
  {
    assert rows[i..][0] == rows[i] && rows[i..][1..] == rows[i + 1..];
    var o := Replay(w, args, rows[i..], s, lot);
    assert o.s == outcome.s && o.lot == outcome.lot;
  }

  /** One iteration of the loop. */
  method NextRow(w: World, args: Args, rows: seq<ReplayRow>, i: nat, state: CycleState, lot: LotAccumulator?,
                 active: Runtime,
                 ghost outcome: Outcome)
      returns (end: bool, next: Runtime, current: LotAccumulator?)
    requires state.Valid() && state.activeModelFinal == active.version && (lot != null ==> lot.Valid())
    requires i < |rows| && !EventLimitReached(args, state.seenEvents)
    requires LeadsTo(w, args, rows, i, state.Snapshot(active), CurrentLot(lot), outcome)
    modifies state, lot
    ensures state.Valid() && state.activeModelFinal == next.version
    ensures current == lot || fresh(current)
    ensures current != null ==> current.Valid()
    ensures if end then state.Snapshot(next) == outcome.s && CurrentLot(current) == outcome.lot
            else LeadsTo(w, args, rows, i + 1, state.Snapshot(next), CurrentLot(current), outcome)
  {
    ghost var s, l := state.Snapshot(active), CurrentLot(lot);
    end, next := state.CloseBefore(w, args, rows[i], lot, active);
    current := lot;
    if end {
      LoopBreaks(w, args, rows, i, s, l, outcome);
    } else {
      LoopContinues(w, args, rows, i, s, l, outcome);
      current := state.Process(w, rows[i], lot, next);
    }
  }

  method EventLoop(w: World, args: Args, rows: seq<ReplayRow>, state: CycleState, initial: Runtime,
                   ghost outcome: Outcome)
      returns (active: Runtime, lot: LotAccumulator?)
    requires state.Valid() && state.activeModelFinal == initial.version
    requires LeadsTo(w, args, rows, 0, state.Snapshot(initial), None, outcome)
    modifies state
    ensures state.Valid() && state.activeModelFinal == active.version
    ensures lot != null ==> fresh(lot) && lot.Valid()
    ensures state.Snapshot(active) == outcome.s && CurrentLot(lot) == outcome.lot
  {
    active, lot := initial, null;
    var i := 0;
    while i < |rows| && !EventLimitReached(args, state.seenEvents)
      invariant 0 <= i <= |rows|
      invariant state.Valid() && state.activeModelFinal == active.version
      invariant lot != null ==> fresh(lot) && lot.Valid()
      invariant LeadsTo(w, args, rows, i, state.Snapshot(active), CurrentLot(lot), outcome)
    {
      var end;
      end, active, lot := NextRow(w, args, rows, i, state, lot, active, outcome);
      if end { return; }
      i := i + 1;
    }
    LoopEnds(w, args, rows, i, state.Snapshot(active), CurrentLot(lot), outcome);
  }

  /** The event loop and the closing of the last lot. */
  method RunCycle(w: World, args: Args, rows: seq<ReplayRow>, initial: Runtime, localization: Runtime)
      returns (state: CycleState, active: Runtime)
    ensures fresh(state) && state.Snapshot(active) == Run(w, args, rows, initial, localization)
    ensures state.activeModelFinal == active.version
    ensures state.eventsProcessed == |state.seenEvents|
  {
    state := new CycleState(initial, localization);
    assert rows[0..] == rows;
    var lot;
    active, lot := EventLoop(w, args, rows, state, initial, Loop(w, args, rows, initial, localization));
    active := state.CloseLast(w, args, lot, active);
  }
}
