/** What every run of the replay lifecycle keeps: lots are conserved, conforming pieces are consumed once,
    models are handed over at lot boundaries, and promotion chains obey the gate. */
module LifecycleRuns {
  import opened ReplayEvents
  import opened Calibration
  import opened PromotionGate
  import opened ReplayLifecycle

  // ---------------------------------------------------------------------------- what every step keeps

  /** Whatever closing a lot and processing the next row keep, the loop keeps. */
  lemma {:induction false} ReplayKeeps(w: World, args: Args, all: seq<ReplayRow>, rest: seq<ReplayRow>, s: State,
                                       lot: Option<Lot>, inv: State -> bool)
    requires |s.seen| <= |all| && rest == all[|s.seen|..] && inv(s)
    requires forall s, l :: inv(s) ==> inv(CloseLot(w, args, s, l).1)
    requires forall s, l :: inv(s) && |s.seen| < |all| ==> inv(TakeEvent(w, s, l, all[|s.seen|]).0)
    ensures inv(Replay(w, args, rest, s, lot).s)
    decreases |rest|
  {
    if rest != [] && !EventLimitReached(args, s.seen) {
      NextRow(all, |s.seen|);
      var closed := if Crosses(lot, rest[0]) then CloseLot(w, args, s, lot.value) else (false, s);
      if Crosses(lot, rest[0]) { CloseLotEffects(w, args, s, lot.value); }
      if !closed.0 && !(Crosses(lot, rest[0]) && LotLimitReached(args, closed.1.lots)) {
        var taken := TakeEvent(w, closed.1, lot, rest[0]);
        ReplayKeeps(w, args, all, rest[1..], taken.0, taken.1, inv);
      }
    }
  }

  /** The boundary check of a row: whether a cycle stops the run there, and the state it leaves. */
  function Bounded(w: World, args: Args, s: State, lot: Option<Lot>, row: ReplayRow): (bool, State) {
    if Crosses(lot, row) then CloseLot(w, args, s, lot.value) else (false, s)
  }

  /** The same for what also involves the current lot: `going` between the rows, `halted` wherever the loop may end. */
  lemma {:induction false} ReplayGoes(w: World, args: Args, rows: seq<ReplayRow>, s: State, lot: Option<Lot>,
                                      going: (State, Option<Lot>) -> bool, halted: (bool, State) -> bool)
    requires going(s, lot)
    requires forall s, lot :: going(s, lot) ==> halted(false, s)
    requires forall s, lot, row :: going(s, lot) ==>
      halted(Bounded(w, args, s, lot, row).0, Bounded(w, args, s, lot, row).1)
    requires forall s, lot, row :: going(s, lot) && !Bounded(w, args, s, lot, row).0 ==>
      going(TakeEvent(w, Bounded(w, args, s, lot, row).1, lot, row).0,
            TakeEvent(w, Bounded(w, args, s, lot, row).1, lot, row).1)
    ensures var o := Replay(w, args, rows, s, lot); halted(o.ended == Stopped, o.s)
    decreases |rows|
  {
    if rows != [] && !EventLimitReached(args, s.seen) {
      var closed := Bounded(w, args, s, lot, rows[0]);
      if !closed.0 && !(Crosses(lot, rows[0]) && LotLimitReached(args, closed.1.lots)) {
        var taken := TakeEvent(w, closed.1, lot, rows[0]);
        ReplayGoes(w, args, rows[1..], taken.0, taken.1, going, halted);
      }
    }
  }

  /** So the run keeps it from its start to the closing of its last lot. */
  lemma RunKeeps(w: World, args: Args, rows: seq<ReplayRow>, initial: Runtime, localization: Runtime,
                 inv: State -> bool)
    requires inv(Start(initial, localization))
    requires forall s, l :: inv(s) ==> inv(CloseLot(w, args, s, l).1)
    requires forall s, l :: inv(s) && |s.seen| < |rows| ==> inv(TakeEvent(w, s, l, rows[|s.seen|]).0)
    ensures inv(Run(w, args, rows, initial, localization))
  {
    assert rows[0..] == rows;
    ReplayKeeps(w, args, rows, rows, Start(initial, localization), None, inv);
  }

  // ---------------------------------------------------------------------------- lots

  /** The lots finalised so far, plus the one being accumulated, are the runs of the events seen. */
  ghost predicate LotsOpen(seen: seq<CycleEvent>, lots: seq<LotSummary>, lot: Option<Lot>) {
    match lot
    case None => seen == [] && lots == []
    case Some(l) => Accumulating(seen, l) && LotsOf(seen) == lots + [Summarize(l.lotId, l.events)]
  }

  /** The lot being accumulated is the last run of the events seen. */
  ghost predicate Accumulating(seen: seq<CycleEvent>, l: Lot) {
    && seen != [] && LastOf(seen).lotId == l.lotId
    && Runs(seen) != [] && LastOf(Runs(seen)) == l.events
    && l.events != [] && l.events[0].lotId == l.lotId
  }

  /** Every lot seen is finalised; the last one is still the current lot. */
  ghost predicate LotsClosed(seen: seq<CycleEvent>, lots: seq<LotSummary>, lot: Option<Lot>) {
    && lot.Some? && Accumulating(seen, lot.value) && LotsOf(seen) == lots
    && lots != [] && LastOf(lots) == Summarize(lot.value.lotId, lot.value.events)
  }

  /** What holds when the event loop ends; `should_finalize_last_lot` holds unless the lifecycle stopped it. */
  ghost predicate Consistent(args: Args, o: Outcome) {
    && (o.ended == Stopped <==> !ShouldFinalizeLastLot(args, o.s))
    && (if o.ended == Stopped || o.ended == LotLimit then LotsClosed(o.s.seen, o.s.lots, o.lot)
        else LotsOpen(o.s.seen, o.s.lots, o.lot))
  }

  lemma CloseLotEffects(w: World, args: Args, s: State, lot: Lot)
    ensures var (stop, next) := CloseLot(w, args, s, lot);
      && next.seen == s.seen
      && next.lots == s.lots + [Summarize(lot.lotId, lot.events)]
      && (stop ==> !ShouldFinalizeLastLot(args, next))
      && (!stop && ShouldFinalizeLastLot(args, s) ==> ShouldFinalizeLastLot(args, next))
  {
  }

  lemma SummariesSnoc(runs: seq<seq<CycleEvent>>, run: seq<CycleEvent>)
    requires run != [] && forall k :: 0 <= k < |runs| ==> runs[k] != []
    ensures Summaries(runs + [run]) == Summaries(runs) + [Summarize(run[0].lotId, run)]
  {
  }

  lemma AllNonEmpty(events: seq<CycleEvent>)
    ensures forall k :: 0 <= k < |Runs(events)| ==> Runs(events)[k] != []
  {
    RunsAreMaximal(events);
  }

  lemma OpenLot(seen: seq<CycleEvent>, lots: seq<LotSummary>, e: CycleEvent)
    requires LotsOf(seen) == lots && (seen != [] ==> LastOf(seen).lotId != e.lotId)
    ensures LotsOpen(seen + [e], lots, Some(Lot(e.lotId, [e])))
  {
    RunsSnoc(seen, e);
    AllNonEmpty(seen);
    SummariesSnoc(Runs(seen), [e]);
  }

  lemma ExtendLot(seen: seq<CycleEvent>, lots: seq<LotSummary>, l: Lot, e: CycleEvent)
    requires LotsOpen(seen, lots, Some(l)) && e.lotId == l.lotId
    ensures LotsOpen(seen + [e], lots, Some(Lot(l.lotId, l.events + [e])))
  {
    RunsSnoc(seen, e);
    AllNonEmpty(seen);
    var runs := Runs(seen);
    var front := runs[..|runs| - 1];
    assert runs == front + [LastOf(runs)];
    SummariesSnoc(front, l.events);
    SummariesSnoc(front, l.events + [e]);
    assert (l.events + [e])[0] == l.events[0];
    assert lots == LotsOf(seen)[..|lots|] == Summaries(front);
    assert LotsOf(seen + [e]) == Summaries(front + [l.events + [e]]);
  }

  lemma TakeEventKeepsLots(w: World, s: State, lot: Option<Lot>, row: ReplayRow)
    requires if Crosses(lot, row) then LotsClosed(s.seen, s.lots, lot) else LotsOpen(s.seen, s.lots, lot)
    ensures var (next, lot') := TakeEvent(w, s, lot, row); LotsOpen(next.seen, next.lots, lot')
  {
    var e := Observe(w, row, s.active);
    if lot.None? || Crosses(lot, row) {
      assert LotsOf([]) == [];
      OpenLot(s.seen, s.lots, e);
      assert [] + [e] == [e];
    } else {
      ExtendLot(s.seen, s.lots, lot.value, e);
    }
  }

  lemma {:induction false} ReplayKeepsLots(w: World, args: Args, rows: seq<ReplayRow>, s: State, lot: Option<Lot>)
    requires LotsOpen(s.seen, s.lots, lot) && ShouldFinalizeLastLot(args, s)
    ensures Consistent(args, Replay(w, args, rows, s, lot))
    decreases |rows|
  {
    if rows != [] && !EventLimitReached(args, s.seen) {
      var closed := if Crosses(lot, rows[0]) then CloseLot(w, args, s, lot.value) else (false, s);
      if Crosses(lot, rows[0]) {
        CloseLotEffects(w, args, s, lot.value);
        assert LotsClosed(closed.1.seen, closed.1.lots, lot);
      }
      if !closed.0 && !(Crosses(lot, rows[0]) && LotLimitReached(args, closed.1.lots)) {
        TakeEventKeepsLots(w, closed.1, lot, rows[0]);
        var taken := TakeEvent(w, closed.1, lot, rows[0]);
        ReplayKeepsLots(w, args, rows[1..], taken.0, taken.1);
      }
    }
  }

  /** Lot conservation, in general: the finalised lots are the maximal runs of lot ids over the processed
      events, followed by the last of them a second time exactly when `max_lots` cut the run. */
  lemma FinalizedLots(w: World, args: Args, rows: seq<ReplayRow>, initial: Runtime, localization: Runtime)
    ensures var o, final := Loop(w, args, rows, initial, localization), Run(w, args, rows, initial, localization);
      && final.seen == o.s.seen
      && (o.ended == LotLimit ==> LotsOf(final.seen) != [])
      && final.lots == LotsOf(final.seen) + (if o.ended == LotLimit then [LastOf(LotsOf(final.seen))] else [])
  {
    var o := Loop(w, args, rows, initial, localization);
    assert LotsOf([]) == [];
    ReplayKeepsLots(w, args, rows, Start(initial, localization), None);
    if o.lot.Some? { CloseLotEffects(w, args, o.s, o.lot.value); }
  }

  // ---------------------------------------------------------------------------- when max_lots cuts

  /** Number of lots in a sequence of lot ids: its maximal runs. */
  function LotCount(ids: seq<string>): nat {
    if ids == [] then 0
    else LotCount(ids[..|ids| - 1]) + if |ids| == 1 || ids[|ids| - 1] != ids[|ids| - 2] then 1 else 0
  }

  function RowLots(rows: seq<ReplayRow>): seq<string> {
    seq(|rows|, i requires 0 <= i < |rows| => LotIdOf(rows[i]))
  }

  /** The rows that `max_events` lets through. */
  function Admitted(args: Args, rows: seq<ReplayRow>): seq<ReplayRow> {
    if args.maxEvents.Some? && args.maxEvents.value < |rows| then
      if args.maxEvents.value <= 0 then [] else rows[..args.maxEvents.value]
    else rows
  }

  lemma {:induction false} LotCountMonotone(ids: seq<string>, n: nat)
    requires n <= |ids|
    ensures LotCount(ids[..n]) <= LotCount(ids)
    ensures 0 < n < |ids| && ids[n] != ids[n - 1] ==> LotCount(ids[..n]) < LotCount(ids)
    decreases |ids|
  {
    if n == |ids| {
      assert ids[..n] == ids;
    } else {
      var m := |ids| - 1;
      LotCountMonotone(ids[..m], n);
      assert ids[..m][..n] == ids[..n];
      if n < m { assert ids[..m][n] == ids[n] && (n > 0 ==> ids[..m][n - 1] == ids[n - 1]); }
    }
  }

  /** How far the loop got: `done` admitted rows are processed and their closed lots stayed under the limit. */
  ghost predicate UnderLimit(args: Args, all: seq<ReplayRow>, done: nat, s: State, lot: Option<Lot>) {
    && done == |s.seen| <= |all|
    && (args.maxLots.Some? && s.lots != [] ==> |s.lots| < args.maxLots.value)
    && (lot.Some? <==> done > 0)
    && LotCount(RowLots(all)[..done]) == |s.lots| + (if lot.Some? then 1 else 0)
    && (lot.Some? ==> lot.value.lotId == RowLots(all)[done - 1])
  }

  predicate LimitBelowLots(args: Args, all: seq<ReplayRow>) {
    args.maxLots.Some? && args.maxLots.value < LotCount(RowLots(all)) && 1 < LotCount(RowLots(all))
  }

  lemma AdmittedPrefix(args: Args, rows: seq<ReplayRow>, done: nat)
    requires done <= |Admitted(args, rows)|
    ensures Admitted(args, rows) <= rows
    ensures done == |Admitted(args, rows)| <==> done == |rows| || (args.maxEvents.Some? && done >= args.maxEvents.value)
  {
  }

  lemma LotCountSnoc(ids: seq<string>, done: nat)
    requires done < |ids|
    ensures LotCount(ids[..done + 1]) == LotCount(ids[..done]) + if done == 0 || ids[done] != ids[done - 1] then 1
      else 0
  {
    assert ids[..done + 1][..done] == ids[..done];
  }

  lemma UnderLimitNext(w: World, args: Args, all: seq<ReplayRow>, done: nat, s: State, lot: Option<Lot>, closed: State)
    requires UnderLimit(args, all, done, s, lot) && done < |all|
    requires closed.seen == s.seen
    requires if Crosses(lot, all[done]) then |closed.lots| == |s.lots| + 1 && !LotLimitReached(args, closed.lots)
      else closed.lots == s.lots
    ensures var taken := TakeEvent(w, closed, lot, all[done]); UnderLimit(args, all, done + 1, taken.0, taken.1)
  {
    LotCountSnoc(RowLots(all), done);
  }

  /** With every admitted row processed, the closed lots and the open one are all the lots there are. */
  lemma NotBelow(args: Args, all: seq<ReplayRow>, s: State, lot: Option<Lot>)
    requires UnderLimit(args, all, |all|, s, lot)
    ensures !LimitBelowLots(args, all)
  {
    assert RowLots(all)[..|all|] == RowLots(all);
  }

  lemma BelowAtCut(args: Args, all: seq<ReplayRow>, done: nat, s: State, lot: Option<Lot>, lots: seq<LotSummary>)
    requires UnderLimit(args, all, done, s, lot) && done < |all| && Crosses(lot, all[done])
    requires |lots| == |s.lots| + 1 && LotLimitReached(args, lots)
    ensures LimitBelowLots(args, all)
  {
    LotCountMonotone(RowLots(all), done);
  }

  lemma NextRow(rows: seq<ReplayRow>, done: nat)
    requires done < |rows|
    ensures rows[done..] != [] && rows[done..][0] == rows[done] && rows[done..][1..] == rows[done + 1..]
  {
  }

  lemma {:induction false} LotLimitFrom(w: World, args: Args, rows: seq<ReplayRow>, done: nat, s: State,
                                        lot: Option<Lot>)
    requires UnderLimit(args, Admitted(args, rows), done, s, lot)
    ensures var o, all := Replay(w, args, rows[done..], s, lot), Admitted(args, rows);
      o.ended == LotLimit <==> o.ended != Stopped && LimitBelowLots(args, all)
    decreases |rows| - done
  {
    var all := Admitted(args, rows);
    AdmittedPrefix(args, rows, done);
    if done == |all| {
      NotBelow(args, all, s, lot);
    } else {
      var row := rows[done];
      NextRow(rows, done);
      var closed := if Crosses(lot, row) then CloseLot(w, args, s, lot.value) else (false, s);
      if Crosses(lot, row) { CloseLotEffects(w, args, s, lot.value); }
      if !closed.0 {
        if Crosses(lot, row) && LotLimitReached(args, closed.1.lots) {
          BelowAtCut(args, all, done, s, lot, closed.1.lots);
        } else {
          UnderLimitNext(w, args, all, done, s, lot, closed.1);
          var taken := TakeEvent(w, closed.1, lot, row);
          LotLimitFrom(w, args, rows, done + 1, taken.0, taken.1);
        }
      }
    }
  }

  /** The finalised lots are those of the events, each once. */
  predicate Conserved(s: State) { s.lots == LotsOf(s.seen) }

  /** The last lot is finalised twice exactly when `max_lots` is below the number of lots among the admitted
      rows (which are more than one) and the lifecycle did not stop the run first. */
  lemma LotConservation(w: World, args: Args, rows: seq<ReplayRow>, initial: Runtime, localization: Runtime)
    ensures var final, o := Run(w, args, rows, initial, localization), Loop(w, args, rows, initial, localization);
      Conserved(final) <==> o.ended == Stopped || !LimitBelowLots(args, Admitted(args, rows))
  {
    FinalizedLots(w, args, rows, initial, localization);
    assert RowLots(Admitted(args, rows))[..0] == [];
    LotLimitFrom(w, args, rows, 0, Start(initial, localization), None);
    assert rows[0..] == rows;
  }

  lemma {:induction false} QuietNeverStops(w: World, args: Args, rows: seq<ReplayRow>, s: State, lot: Option<Lot>)
    requires forall signal, interval :: !w.decide(signal, interval)
    ensures Replay(w, args, rows, s, lot).ended != Stopped
    decreases |rows|
  {
    if rows != [] && !EventLimitReached(args, s.seen) {
      var closed := if Crosses(lot, rows[0]) then CloseLot(w, args, s, lot.value) else (false, s);
      if !closed.0 {
        var taken := TakeEvent(w, closed.1, lot, rows[0]);
        QuietNeverStops(w, args, rows[1..], taken.0, taken.1);
      }
    }
  }

  /** A world whose lifecycle never triggers. */
  function QuietWorld(): World {
    World(
      (row, runtime) => Inference("", "", 0.0, "", None),
      (signal, interval) => false,
      (seen, n, active, localization) => Candidate("", "", ""),
      checkpoint => Metrics(0, 0, None, None, None, None, None, None, None),
      checkpoint => Metrics(0, 0, None, None, None, None, None, None, None))
  }

  /** What a caller can check before the run: every lot is finalised exactly once, whatever inference, training and
      the lifecycle answer, exactly when `max_lots` is not below the number of lots among the admitted rows, or
      they hold only one. */
  lemma LotsConservedIff(args: Args, rows: seq<ReplayRow>, initial: Runtime, localization: Runtime)
    ensures (forall w :: Conserved(Run(w, args, rows, initial, localization)))
      <==> !LimitBelowLots(args, Admitted(args, rows))
  {
    if LimitBelowLots(args, Admitted(args, rows)) {
      var w := QuietWorld();
      LotConservation(w, args, rows, initial, localization);
      QuietNeverStops(w, args, rows, Start(initial, localization), None);
      assert !Conserved(Run(w, args, rows, initial, localization));
    } else {
      forall w ensures Conserved(Run(w, args, rows, initial, localization)) {
        LotConservation(w, args, rows, initial, localization);
      }
    }
  }

  /** A run of two lots cut after the first one finalises that lot twice. */
  lemma LotLimitFinalizesTwice(w: World, args: Args, a: ReplayRow, b: ReplayRow, initial: Runtime,
                               localization: Runtime)
    requires forall signal, interval :: !w.decide(signal, interval)
    requires args.maxLots == Some(1) && args.maxEvents.None? && LotIdOf(a) != LotIdOf(b)
    ensures var final := Run(w, args, [a, b], initial, localization);
      !Conserved(final) && |final.lots| == |LotsOf(final.seen)| + 1
  {
    LotConservation(w, args, [a, b], initial, localization);
    FinalizedLots(w, args, [a, b], initial, localization);
    QuietNeverStops(w, args, [a, b], Start(initial, localization), None);
    var ids := RowLots([a, b]);
    assert ids[..1] == [LotIdOf(a)] && ids[..1][..0] == [];
    assert LotCount(ids) == LotCount(ids[..1]) + 1 == 2;
  }

  /** Without `max_lots` every lot is finalised exactly once. */
  lemma LotConservationWithoutLimit(w: World, args: Args, rows: seq<ReplayRow>, initial: Runtime, localization: Runtime)
    requires args.maxLots.None?
    ensures Conserved(Run(w, args, rows, initial, localization))
  {
    LotConservation(w, args, rows, initial, localization);
  }

  // ---------------------------------------------------------------------------- conforming pieces

  function ConformingOf(lots: seq<LotSummary>): int {
    if lots == [] then 0 else ConformingOf(lots[..|lots| - 1]) + lots[|lots| - 1].conformingValidated
  }

  function Consumed(cycles: seq<Cycle>): int {
    if cycles == [] then 0 else Consumed(cycles[..|cycles| - 1]) + cycles[|cycles| - 1].consumed
  }

  /** Finalised lots feed the total; what the cycles consumed is the part already settled. */
  ghost predicate Accounted(s: State) {
    && s.totalConforming == ConformingOf(s.lots)
    && s.lastCycleConforming == Consumed(s.cycles)
  }

  lemma ConsumedSnoc(cycles: seq<Cycle>, c: Cycle)
    ensures Consumed(cycles + [c]) == Consumed(cycles) + c.consumed
  {
    assert (cycles + [c])[..|cycles|] == cycles;
  }

  lemma FinalizeAccounts(w: World, args: Args, s: State, lot: LotSummary)
    requires Accounted(s)
    ensures var (decision, next) := FinalizeLot(w, args, s, lot);
      Accounted(next) && decision.conformingCount == next.totalConforming - next.lastCycleConforming
  {
    assert (s.lots + [lot])[..|s.lots|] == s.lots;
  }

  lemma CandidateAccounts(w: World, args: Args, s: State, decision: Decision)
    requires Accounted(s) && decision.conformingCount == s.totalConforming - s.lastCycleConforming
    ensures Accounted(RunCandidate(w, args, s, decision))
  {
    var next := RunCandidate(w, args, s, decision);
    RunCandidateEffects(w, args, s, decision);
    assert next.cycles == s.cycles + [LastOf(next.cycles)];
    ConsumedSnoc(s.cycles, LastOf(next.cycles));
    assert next.lots == s.lots && next.totalConforming == s.totalConforming
      && next.lastCycleConforming == s.totalConforming;
  }

  lemma CloseLotAccounts(w: World, args: Args, s: State, lot: Lot)
    requires Accounted(s)
    ensures Accounted(CloseLot(w, args, s, lot).1)
  {
    var (decision, finalized) := FinalizeLot(w, args, s, Summarize(lot.lotId, lot.events));
    FinalizeAccounts(w, args, s, Summarize(lot.lotId, lot.events));
    CandidateAccounts(w, args, finalized.(trigger := Some(decision)), decision);
  }

  lemma {:induction false} ReplayAccounts(w: World, args: Args, rows: seq<ReplayRow>, s: State, lot: Option<Lot>)
    requires Accounted(s)
    ensures Accounted(Replay(w, args, rows, s, lot).s)
    decreases |rows|
  {
    if rows != [] && !EventLimitReached(args, s.seen) {
      var closed := if Crosses(lot, rows[0]) then CloseLot(w, args, s, lot.value) else (false, s);
      if Crosses(lot, rows[0]) { CloseLotAccounts(w, args, s, lot.value); }
      if !closed.0 && !(Crosses(lot, rows[0]) && LotLimitReached(args, closed.1.lots)) {
        var taken := TakeEvent(w, closed.1, lot, rows[0]);
        ReplayAccounts(w, args, rows[1..], taken.0, taken.1);
      }
    }
  }

  lemma {:induction false} ConformingOfRuns(events: seq<CycleEvent>)
    ensures ConformingOf(LotsOf(events)) == CountIf(events, IsConforming)
  {
    RunsAreMaximal(events);
    ConformingOfSummaries(Runs(events));
  }

  lemma {:induction false} ConformingOfSummaries(runs: seq<seq<CycleEvent>>)
    requires forall k :: 0 <= k < |runs| ==> runs[k] != []
    ensures ConformingOf(Summaries(runs)) == CountIf(Concat(runs), IsConforming)
  {
    if runs != [] {
      var m := |runs| - 1;
      ConformingOfSummaries(runs[..m]);
      assert Summaries(runs)[..m] == Summaries(runs[..m]);
      CountIfAppend(Concat(runs[..m]), runs[m], IsConforming);
    }
  }

  /** Each conforming piece is consumed by at most one cycle: what the cycles consumed and what is pending
      add up to the conforming pieces processed (with the last lot counted again after a `max_lots` cut). */
  lemma ConformingConserved(w: World, args: Args, rows: seq<ReplayRow>, initial: Runtime, localization: Runtime)
    ensures var final, o := Run(w, args, rows, initial, localization), Loop(w, args, rows, initial, localization);
      && (o.ended == LotLimit ==> LotsOf(final.seen) != [])
      && final.lastCycleConforming == Consumed(final.cycles)
      && final.totalConforming == CountIf(final.seen, IsConforming)
                                  + (if o.ended == LotLimit then LastOf(LotsOf(final.seen)).conformingValidated else 0)
  {
    var o, final := Loop(w, args, rows, initial, localization), Run(w, args, rows, initial, localization);
    ReplayAccounts(w, args, rows, Start(initial, localization), None);
    if o.lot.Some? { CloseLotAccounts(w, args, o.s, o.lot.value); }
    FinalizedLots(w, args, rows, initial, localization);
    ConformingOfRuns(final.seen);
    if o.ended == LotLimit {
      assert final.lots[..|final.lots| - 1] == LotsOf(final.seen);
    } else {
      assert final.lots == LotsOf(final.seen);
    }
  }

  // ---------------------------------------------------------------------------- model hand-over

  /** The panel whose evaluation decides on decision models. */
  function GateOf(w: World, args: Args): string -> Metrics { if args.dualPromotion then w.gate else w.reference }

  /** What a promotion hands over: the candidate's name and checkpoint, with the thresholds calibrated for it. */
  function HandedOver(evaluate: string -> Metrics, name: string, checkpoint: string): Runtime {
    Runtime(name, checkpoint, evaluate(checkpoint).thresholds)
  }

  /** The decision model of event i: that of the last cycle that promoted one with an activation index of at most i. */
  function RuntimeAt(evaluate: string -> Metrics, initial: Runtime, cycles: seq<Cycle>, i: nat): Runtime {
    if cycles == [] then initial
    else
      var last := cycles[|cycles| - 1];
      if last.decisionPromoted && last.activationEventIndex.Some? && last.activationEventIndex.value <= i
        then HandedOver(evaluate, last.candidateVersion, last.checkpoint)
      else RuntimeAt(evaluate, initial, cycles[..|cycles| - 1], i)
  }

  /** The localization model of the last cycle that promoted one. */
  function LastLocalization(evaluate: string -> Metrics, initial: Runtime, cycles: seq<Cycle>): Runtime {
    if cycles == [] then initial
    else
      var last := cycles[|cycles| - 1];
      if last.localizationPromoted then HandedOver(evaluate, last.candidateVersion, last.localizationCheckpoint)
      else LastLocalization(evaluate, initial, cycles[..|cycles| - 1])
  }

  /** An event is its row, judged by the oracle's label and by what inference answers for that decision model. */
  ghost predicate AnsweredBy(w: World, row: ReplayRow, model: Runtime, e: CycleEvent) {
    var answer := w.infer(row, model);
    && e.eventId == row.eventId && e.lotId == (if row.lotId == "" then "unknown_lot" else row.lotId)
    && e.scenarioPhase == row.scenarioPhase && e.sourceClass == row.sourceClass
    && e.oracleVerdict == (if row.defective then "defective" else "conforme")
    && e.decision == answer.decision && e.roiQualityStatus == answer.roiQualityStatus && e.roiRatio == answer.roiRatio
    && e.viewKey == answer.viewKey && e.roiMask == answer.roiMask
    && e.activeModelVersion == model.version
  }

  /** Version names of the promoted cycles, in order. */
  function PromotedVersions(cycles: seq<Cycle>): seq<string> {
    if cycles == [] then []
    else PromotedVersions(cycles[..|cycles| - 1]) + if LastOf(cycles).decisionPromoted
      then [LastOf(cycles).candidateVersion] else []
  }

  function PromotedLocalizations(cycles: seq<Cycle>): seq<string> {
    if cycles == [] then []
    else PromotedLocalizations(cycles[..|cycles| - 1]) + if LastOf(cycles).localizationPromoted
      then [LastOf(cycles).candidateVersion] else []
  }

  /** Checkpoints of the successive active decision models. */
  function ActiveCheckpoints(initial: string, cycles: seq<Cycle>): (r: seq<string>)
    ensures r != []
  {
    if cycles == [] then [initial]
    else ActiveCheckpoints(initial, cycles[..|cycles| - 1]) + if LastOf(cycles).decisionPromoted
      then [LastOf(cycles).checkpoint] else []
  }

  function GateMetrics(w: World, checkpoints: seq<string>): (r: seq<Metrics>)
    ensures |r| == |checkpoints|
  {
    seq(|checkpoints|, i requires 0 <= i < |checkpoints| => w.gate(checkpoints[i]))
  }

  /** The events seen are the first rows, each answered by the decision model of its time. */
  ghost predicate Answered(w: World, evaluate: string -> Metrics, all: seq<ReplayRow>, initial: Runtime,
                           seen: seq<CycleEvent>,
                           cycles: seq<Cycle>) {
    && |seen| <= |all|
    && forall i :: 0 <= i < |seen| ==> AnsweredBy(w, all[i], RuntimeAt(evaluate, initial, cycles, i), seen[i])
  }

  ghost predicate Handed(w: World, args: Args, all: seq<ReplayRow>, initial: Runtime, localization: Runtime, s: State) {
    && Answered(w, GateOf(w, args), all, initial, s.seen, s.cycles)
    && s.active == RuntimeAt(GateOf(w, args), initial, s.cycles, |s.seen|)
    && s.localization == LastLocalization(w.gate, localization, s.cycles)
    && Activated(s.cycles, |s.seen|)
  }

  ghost predicate Activated(cycles: seq<Cycle>, n: nat) {
    forall k :: 0 <= k < |cycles| ==> cycles[k].activationEventIndex.Some? ==> cycles[k].activationEventIndex.value <= n
  }

  ghost predicate Chained(initial: Runtime, localization: Runtime, s: State) {
    && s.promotionChain == [initial.version] + PromotedVersions(s.cycles)
    && s.active.version == LastOf(s.promotionChain)
    && s.localizationChain == [localization.version] + PromotedLocalizations(s.cycles)
    && s.localization.version == LastOf(s.localizationChain)
    && forall k :: 0 <= k < |s.cycles| ==> s.cycles[k].candidateVersion == CandidateName(k + 1)
  }

  ghost predicate Gated(w: World, args: Args, initial: Runtime, s: State) {
    && s.active.checkpoint == LastOf(ActiveCheckpoints(initial.checkpoint, s.cycles))
    && (args.dualPromotion
        ==> PromotionChain(args.policy, GateMetrics(w, ActiveCheckpoints(initial.checkpoint, s.cycles))))
  }

  lemma {:induction false} RuntimeStable(evaluate: string -> Metrics, initial: Runtime, cycles: seq<Cycle>, i: nat,
                                         j: nat)
    requires Activated(cycles, i) && i <= j
    ensures RuntimeAt(evaluate, initial, cycles, i) == RuntimeAt(evaluate, initial, cycles, j)
  {
    if cycles != [] { RuntimeStable(evaluate, initial, cycles[..|cycles| - 1], i, j); }
  }

  /** What a training cycle does to the hand-over: one new cycle, activated from the next event on. */
  lemma RunCandidateEffects(w: World, args: Args, s: State, decision: Decision)
    ensures var next := RunCandidate(w, args, s, decision);
      && next.seen == s.seen && |next.cycles| == |s.cycles| + 1 && next.cycles[..|s.cycles|] == s.cycles
      && var c := LastOf(next.cycles);
      && c.candidateVersion == CandidateName(|s.cycles| + 1) && c.consumed == decision.conformingCount
      && (c.decisionPromoted ==> c.activationEventIndex == Some(|s.seen|))
      && (c.activationEventIndex.Some? ==> c.activationEventIndex.value == |s.seen|)
      && next.promotionChain == s.promotionChain + (if c.decisionPromoted then [c.candidateVersion] else [])
      && next.localizationChain == s.localizationChain + (if c.localizationPromoted then [c.candidateVersion] else [])
      && next.active == (if c.decisionPromoted then HandedOver(GateOf(w, args), c.candidateVersion, c.checkpoint)
                         else s.active)
      && next.localization == (if c.localizationPromoted
                               then HandedOver(w.gate, c.candidateVersion, c.localizationCheckpoint)
                                 else s.localization)
      && (c.decisionPromoted && args.dualPromotion ==>
            ClassificationPasses(args.policy, w.gate(s.active.checkpoint), w.gate(c.checkpoint)))
  {
  }

  lemma CycleAppended(evaluate: string -> Metrics, initial: Runtime, cycles: seq<Cycle>, c: Cycle, n: nat)
    requires c.activationEventIndex.Some? ==> c.activationEventIndex.value == n
    requires c.decisionPromoted ==> c.activationEventIndex.Some?
    ensures forall i :: 0 <= i < n ==>
      RuntimeAt(evaluate, initial, cycles + [c], i) == RuntimeAt(evaluate, initial, cycles, i)
    ensures RuntimeAt(evaluate, initial, cycles + [c], n)
      == if c.decisionPromoted then HandedOver(evaluate, c.candidateVersion, c.checkpoint)
         else RuntimeAt(evaluate, initial, cycles, n)
    ensures LastLocalization(evaluate, initial, cycles + [c])
      == if c.localizationPromoted then HandedOver(evaluate, c.candidateVersion, c.localizationCheckpoint)
         else LastLocalization(evaluate, initial, cycles)
  {
    assert (cycles + [c])[..|cycles|] == cycles;
  }

  lemma CandidateHanded(w: World, args: Args, all: seq<ReplayRow>, initial: Runtime, localization: Runtime, s: State,
                        decision: Decision)
    requires Handed(w, args, all, initial, localization, s)
    ensures Handed(w, args, all, initial, localization, RunCandidate(w, args, s, decision))
  {
    var next := RunCandidate(w, args, s, decision);
    RunCandidateEffects(w, args, s, decision);
    assert next.cycles == s.cycles + [LastOf(next.cycles)];
    CycleAppended(GateOf(w, args), initial, s.cycles, LastOf(next.cycles), |s.seen|);
    CycleAppended(w.gate, localization, s.cycles, LastOf(next.cycles), |s.seen|);
    forall k | 0 <= k < |next.cycles| && next.cycles[k].activationEventIndex.Some?
      ensures next.cycles[k].activationEventIndex.value <= |s.seen| {
      assert k < |s.cycles| ==> next.cycles[k] == s.cycles[k];
    }
  }

  lemma CandidateChained(w: World, args: Args, initial: Runtime, localization: Runtime, s: State, decision: Decision)
    requires Chained(initial, localization, s)
    ensures Chained(initial, localization, RunCandidate(w, args, s, decision))
  {
    RunCandidateEffects(w, args, s, decision);
    var next := RunCandidate(w, args, s, decision);
    forall k | 0 <= k < |next.cycles| ensures next.cycles[k].candidateVersion == CandidateName(k + 1) {
      assert k < |s.cycles| ==> next.cycles[k] == next.cycles[..|s.cycles|][k];
    }
  }

  lemma CandidateGated(w: World, args: Args, initial: Runtime, s: State, decision: Decision)
    requires Gated(w, args, initial, s)
    ensures Gated(w, args, initial, RunCandidate(w, args, s, decision))
  {
    RunCandidateEffects(w, args, s, decision);
    var next := RunCandidate(w, args, s, decision);
    var before, after := ActiveCheckpoints(initial.checkpoint, s.cycles),
      ActiveCheckpoints(initial.checkpoint, next.cycles);
    if LastOf(next.cycles).decisionPromoted {
      assert after == before + [LastOf(next.cycles).checkpoint];
      if args.dualPromotion { ChainExtends(w, args.policy, before, LastOf(next.cycles).checkpoint); }
    } else {
      assert after == before;
    }
  }

  lemma ChainExtends(w: World, policy: Policy, checkpoints: seq<string>, next: string)
    requires checkpoints != [] && PromotionChain(policy, GateMetrics(w, checkpoints))
    requires ClassificationPasses(policy, w.gate(LastOf(checkpoints)), w.gate(next))
    ensures PromotionChain(policy, GateMetrics(w, checkpoints + [next]))
  {
    var metrics, before := GateMetrics(w, checkpoints + [next]), GateMetrics(w, checkpoints);
    forall i | 0 <= i < |metrics| - 1 ensures ClassificationPasses(policy, metrics[i], metrics[i + 1]) {
      if i < |before| - 1 { assert ClassificationPasses(policy, before[i], before[i + 1]); }
    }
  }

  /** Everything about events, models, chains and the gate that every state of a run satisfies. */
  ghost predicate Invariant(w: World, args: Args, all: seq<ReplayRow>, initial: Runtime, localization: Runtime,
                            s: State) {
    Handed(w, args, all, initial, localization, s) && Chained(initial, localization, s) && Gated(w, args, initial, s)
  }

  lemma CloseLotInvariant(w: World, args: Args, all: seq<ReplayRow>, initial: Runtime, localization: Runtime, s: State,
                          lot: Lot)
    requires Invariant(w, args, all, initial, localization, s)
    ensures Invariant(w, args, all, initial, localization, CloseLot(w, args, s, lot).1)
  {
    var (decision, finalized) := FinalizeLot(w, args, s, Summarize(lot.lotId, lot.events));
    var triggered := finalized.(trigger := Some(decision));
    CandidateHanded(w, args, all, initial, localization, triggered, decision);
    CandidateChained(w, args, initial, localization, triggered, decision);
    CandidateGated(w, args, initial, triggered, decision);
  }

  lemma ObserveAnswers(w: World, row: ReplayRow, model: Runtime)
    ensures AnsweredBy(w, row, model, Observe(w, row, model))
  {
  }

  lemma TakeEventHanded(w: World, args: Args, all: seq<ReplayRow>, initial: Runtime, localization: Runtime, s: State,
                        lot: Option<Lot>)
    requires Handed(w, args, all, initial, localization, s) && |s.seen| < |all|
    ensures Handed(w, args, all, initial, localization, TakeEvent(w, s, lot, all[|s.seen|]).0)
  {
    var next := TakeEvent(w, s, lot, all[|s.seen|]).0;
    ObserveAnswers(w, all[|s.seen|], s.active);
    RuntimeStable(GateOf(w, args), initial, s.cycles, |s.seen|, |s.seen| + 1);
    forall i | 0 <= i < |next.seen|
      ensures AnsweredBy(w, all[i], RuntimeAt(GateOf(w, args), initial, s.cycles, i), next.seen[i]) {
      assert i < |s.seen| ==> next.seen[i] == s.seen[i];
    }
  }

  lemma TakeEventInvariant(w: World, args: Args, all: seq<ReplayRow>, initial: Runtime, localization: Runtime, s: State,
                           lot: Option<Lot>)
    requires Invariant(w, args, all, initial, localization, s) && |s.seen| < |all|
    ensures Invariant(w, args, all, initial, localization, TakeEvent(w, s, lot, all[|s.seen|]).0)
  {
    TakeEventHanded(w, args, all, initial, localization, s, lot);
    assert TakeEvent(w, s, lot, all[|s.seen|]).0 == s.(seen := TakeEvent(w, s, lot, all[|s.seen|]).0.seen);
  }

  ghost function InvariantOf(w: World, args: Args, all: seq<ReplayRow>, initial: Runtime,
                             localization: Runtime): State -> bool {
    (s: State) => Invariant(w, args, all, initial, localization, s)
  }

  lemma RunInvariant(w: World, args: Args, rows: seq<ReplayRow>, initial: Runtime, localization: Runtime)
    ensures Invariant(w, args, rows, initial, localization, Run(w, args, rows, initial, localization))
  {
    var inv := InvariantOf(w, args, rows, initial, localization);
    assert PromotedVersions([]) == [] && PromotedLocalizations([]) == [];
    assert inv(Start(initial, localization));
    forall s, lot | inv(s) ensures inv(CloseLot(w, args, s, lot).1) {
      CloseLotInvariant(w, args, rows, initial, localization, s, lot);
    }
    forall s, lot | inv(s) && |s.seen| < |rows| ensures inv(TakeEvent(w, s, lot, rows[|s.seen|]).0) {
      TakeEventInvariant(w, args, rows, initial, localization, s, lot);
    }
    RunKeeps(w, args, rows, initial, localization, inv);
  }

  /** Model hand-over in every run. Event i is row i, answered by the model that the last promoting cycle with an
      activation index of at most i handed over: its name, its checkpoint and the thresholds calibrated for that
      checkpoint. The run ends with the decision and the localization model of the last promotions, and the chains
      list the initial versions, then one entry per promotion, and end in the active versions. */
  lemma ModelHandOver(w: World, args: Args, rows: seq<ReplayRow>, initial: Runtime, localization: Runtime)
    ensures var s := Run(w, args, rows, initial, localization);
      var gate := if args.dualPromotion then w.gate else w.reference;
      && |s.seen| <= |rows|
      && (forall i :: 0 <= i < |s.seen| ==> AnsweredBy(w, rows[i], RuntimeAt(gate, initial, s.cycles, i), s.seen[i]))
      && s.active == RuntimeAt(gate, initial, s.cycles, |s.seen|)
      && s.localization == LastLocalization(w.gate, localization, s.cycles)
      && s.promotionChain == [initial.version] + PromotedVersions(s.cycles)
      && LastOf(s.promotionChain) == s.active.version
      && s.localizationChain == [localization.version] + PromotedLocalizations(s.cycles)
      && LastOf(s.localizationChain) == s.localization.version
  {
    RunInvariant(w, args, rows, initial, localization);
  }

  /** A model never decides without calibrated thresholds once it was promoted. */
  lemma PromotedModelsAreCalibrated(w: World, args: Args, rows: seq<ReplayRow>, initial: Runtime, localization: Runtime)
    requires initial.thresholds.Some?
    ensures Run(w, args, rows, initial, localization).active.thresholds.Some?
  {
    var o := Loop(w, args, rows, initial, localization);
    ReplayCalibrated(w, args, rows, Start(initial, localization), None);
    if o.lot.Some? { CloseLotCalibrated(w, args, o.s, o.lot.value); }
  }

  lemma CloseLotCalibrated(w: World, args: Args, s: State, lot: Lot)
    requires s.active.thresholds.Some?
    ensures CloseLot(w, args, s, lot).1.active.thresholds.Some?
  {
  }

  lemma {:induction false} ReplayCalibrated(w: World, args: Args, rows: seq<ReplayRow>, s: State, lot: Option<Lot>)
    requires s.active.thresholds.Some?
    ensures Replay(w, args, rows, s, lot).s.active.thresholds.Some?
    decreases |rows|
  {
    if rows != [] && !EventLimitReached(args, s.seen) {
      var closed := if Crosses(lot, rows[0]) then CloseLot(w, args, s, lot.value) else (false, s);
      if Crosses(lot, rows[0]) { CloseLotCalibrated(w, args, s, lot.value); }
      if !closed.0 && !(Crosses(lot, rows[0]) && LotLimitReached(args, closed.1.lots)) {
        var taken := TakeEvent(w, closed.1, lot, rows[0]);
        ReplayCalibrated(w, args, rows[1..], taken.0, taken.1);
      }
    }
  }

  // ---------------------------------------------------------------------------- versions change between lots

  ghost predicate OneVersionPerLot(seen: seq<CycleEvent>) {
    forall i {:trigger seen[i]} :: 0 < i < |seen| && seen[i - 1].lotId == seen[i].lotId
      ==> seen[i - 1].activeModelVersion == seen[i].activeModelVersion
  }

  /** The events of the lot being accumulated carry the active version. */
  ghost predicate Current(s: State, lot: Option<Lot>) {
    lot.Some? ==>
      && s.seen != [] && LastOf(s.seen).lotId == lot.value.lotId
      && LastOf(s.seen).activeModelVersion == s.active.version
  }

  lemma TakenVersions(w: World, seen: seq<CycleEvent>, s: State, lot: Option<Lot>, row: ReplayRow)
    requires s.seen == seen && OneVersionPerLot(seen)
    requires seen != [] && LastOf(seen).lotId == LotIdOf(row) ==> LastOf(seen).activeModelVersion == s.active.version
    ensures OneVersionPerLot(TakeEvent(w, s, lot, row).0.seen)
  {
    var after := TakeEvent(w, s, lot, row).0.seen;
    forall i | 0 < i < |after| && after[i - 1].lotId == after[i].lotId
      ensures after[i - 1].activeModelVersion == after[i].activeModelVersion
    {
      assert i < |seen| ==> after[i] == seen[i];
    }
  }

  lemma {:induction false} ReplayVersionsPerLot(w: World, args: Args, rows: seq<ReplayRow>, s: State, lot: Option<Lot>)
    requires OneVersionPerLot(s.seen) && Current(s, lot) && (lot.None? ==> s.seen == [])
    ensures OneVersionPerLot(Replay(w, args, rows, s, lot).s.seen)
    decreases |rows|
  {
    if rows != [] && !EventLimitReached(args, s.seen) {
      var closed := if Crosses(lot, rows[0]) then CloseLot(w, args, s, lot.value) else (false, s);
      if Crosses(lot, rows[0]) { CloseLotEffects(w, args, s, lot.value); }
      if !closed.0 && !(Crosses(lot, rows[0]) && LotLimitReached(args, closed.1.lots)) {
        var taken := TakeEvent(w, closed.1, lot, rows[0]);
        TakenVersions(w, s.seen, closed.1, lot, rows[0]);
        ReplayVersionsPerLot(w, args, rows[1..], taken.0, taken.1);
      }
    }
  }

  /** A model change is only ever visible between two lots. */
  lemma VersionsChangeBetweenLots(w: World, args: Args, rows: seq<ReplayRow>, initial: Runtime, localization: Runtime)
    ensures OneVersionPerLot(Run(w, args, rows, initial, localization).seen)
  {
    var o := Loop(w, args, rows, initial, localization);
    ReplayVersionsPerLot(w, args, rows, Start(initial, localization), None);
    if o.lot.Some? { CloseLotEffects(w, args, o.s, o.lot.value); }
  }

  // ---------------------------------------------------------------------------- duplicates in the chain

  ghost predicate NoDuplicates(xs: seq<string>) {
    forall i, j :: 0 <= i < j < |xs| ==> xs[i] != xs[j]
  }

  lemma {:induction false} PromotedIndex(cycles: seq<Cycle>, v: string)
    requires v in PromotedVersions(cycles)
    ensures exists k :: 0 <= k < |cycles| && cycles[k].decisionPromoted && cycles[k].candidateVersion == v
  {
    var n := |cycles| - 1;
    if v in PromotedVersions(cycles[..n]) {
      PromotedIndex(cycles[..n], v);
      var k :| 0 <= k < |cycles[..n]| && cycles[..n][k].decisionPromoted && cycles[..n][k].candidateVersion == v;
      assert cycles[k] == cycles[..n][k];
    } else {
      assert cycles[n].decisionPromoted && cycles[n].candidateVersion == v;
    }
  }

  lemma {:induction false} PromotedContains(cycles: seq<Cycle>, k: nat)
    requires k < |cycles| && cycles[k].decisionPromoted
    ensures cycles[k].candidateVersion in PromotedVersions(cycles)
  {
    if k < |cycles| - 1 { PromotedContains(cycles[..|cycles| - 1], k); }
  }

  lemma {:induction false} PromotedDistinct(cycles: seq<Cycle>)
    requires forall k :: 0 <= k < |cycles| ==> cycles[k].candidateVersion == CandidateName(k + 1)
    ensures NoDuplicates(PromotedVersions(cycles))
  {
    if cycles != [] {
      var n := |cycles| - 1;
      PromotedDistinct(cycles[..n]);
      var before := PromotedVersions(cycles[..n]);
      forall i | 0 <= i < |before| ensures before[i] != cycles[n].candidateVersion {
        PromotedIndex(cycles[..n], before[i]);
        var k :| 0 <= k < |cycles[..n]| && cycles[..n][k].decisionPromoted
          && cycles[..n][k].candidateVersion == before[i];
        CandidateNamesDiffer(k + 1, n + 1);
      }
    }
  }

  /** The promotion chain repeats a version exactly when the run started from a model that bears the name of
      one of its own promoted candidates. */
  lemma ChainRepeatsOnlyInitial(w: World, args: Args, rows: seq<ReplayRow>, initial: Runtime, localization: Runtime)
    ensures var s := Run(w, args, rows, initial, localization);
      NoDuplicates(s.promotionChain) <==>
        forall k :: 0 <= k < |s.cycles| && s.cycles[k].decisionPromoted ==> initial.version != CandidateName(k + 1)
  {
    RunInvariant(w, args, rows, initial, localization);
    var s := Run(w, args, rows, initial, localization);
    var promoted := PromotedVersions(s.cycles);
    PromotedDistinct(s.cycles);
    assert s.promotionChain == [initial.version] + promoted;
    if k :| 0 <= k < |s.cycles| && s.cycles[k].decisionPromoted && initial.version == CandidateName(k + 1) {
      PromotedContains(s.cycles, k);
      var j :| 0 <= j < |promoted| && promoted[j] == initial.version;
      assert s.promotionChain[0] == s.promotionChain[j + 1];
    } else {
      forall j | 0 <= j < |promoted| ensures promoted[j] != initial.version {
        PromotedIndex(s.cycles, promoted[j]);
      }
    }
  }

  /** So a run that starts from a model whose version is no candidate name never lists a version twice. */
  lemma ForeignVersionNeverRepeats(w: World, args: Args, rows: seq<ReplayRow>, initial: Runtime, localization: Runtime)
    requires forall n: nat :: n >= 1 ==> initial.version != CandidateName(n)
    ensures NoDuplicates(Run(w, args, rows, initial, localization).promotionChain)
  {
    ChainRepeatsOnlyInitial(w, args, rows, initial, localization);
  }

  // ---------------------------------------------------------------------------- the gate over a whole run

  /** Every dual-promotion run on a fixed panel that requires fewer false negatives: at most as many
      promotions as the initial model misses defects, and a bounded number of good pieces turned red. */
  lemma PromotionsBounded(w: World, args: Args, rows: seq<ReplayRow>, initial: Runtime, localization: Runtime)
    requires args.dualPromotion && !args.policy.p4Objective && args.policy.requireFnImprovement
    ensures var s := Run(w, args, rows, initial, localization);
      var first, last, promotions := w.gate(initial.checkpoint), w.gate(s.active.checkpoint), |s.promotionChain| - 1;
      && promotions <= first.falseNegatives - last.falseNegatives
      && last.goodRed <= first.goodRed + args.policy.maxGoodRedRegression * promotions
      && (0 <= args.policy.maxGoodRedRegression ==>
            last.goodRed <= first.goodRed + args.policy.maxGoodRedRegression * first.falseNegatives)
  {
    RunInvariant(w, args, rows, initial, localization);
    var s := Run(w, args, rows, initial, localization);
    var chain := GateMetrics(w, ActiveCheckpoints(initial.checkpoint, s.cycles));
    CheckpointsFollowVersions(initial.checkpoint, s.cycles);
    RequiredImprovementBoundsChain(args.policy, chain);
    if 0 <= args.policy.maxGoodRedRegression { GoodRedBudget(args.policy, chain); }
  }

  lemma {:induction false} CheckpointsFollowVersions(initial: string, cycles: seq<Cycle>)
    ensures |ActiveCheckpoints(initial, cycles)| == 1 + |PromotedVersions(cycles)|
    ensures ActiveCheckpoints(initial, cycles)[0] == initial
  {
    if cycles != [] { CheckpointsFollowVersions(initial, cycles[..|cycles| - 1]); }
  }

  /** Under an acyclic policy no checkpoint becomes the decision model twice in a run, whatever training and
      evaluation return, as long as all metrics come from one panel. */
  lemma NoCheckpointReturns(w: World, args: Args, rows: seq<ReplayRow>, initial: Runtime, localization: Runtime,
                            defects: nat)
    requires args.dualPromotion && Acyclic(args.policy)
    requires forall c :: OnPanel(w.gate(c), defects)
    ensures var s := Run(w, args, rows, initial, localization);
      NoDuplicates(ActiveCheckpoints(initial.checkpoint, s.cycles))
  {
    RunInvariant(w, args, rows, initial, localization);
    var s := Run(w, args, rows, initial, localization);
    var checkpoints := ActiveCheckpoints(initial.checkpoint, s.cycles);
    var chain := GateMetrics(w, checkpoints);
    NoModelReturns(args.policy, chain, defects);
    forall i, j | 0 <= i < j < |checkpoints| ensures checkpoints[i] != checkpoints[j] {
      assert chain[i] != chain[j];
    }
  }

  /** So it is when the gate metrics of every checkpoint come from calibrating its scores on one panel. */
  lemma CalibratedCheckpointsNeverReturn(w: World, args: Args, rows: seq<ReplayRow>, initial: Runtime,
                                         localization: Runtime,
                                         scores: string -> seq<Record>, defects: nat)
    requires args.dualPromotion && Acyclic(args.policy)
    requires forall c :: Calibrated(w.gate(c), scores(c)) && Defects(scores(c)) == defects
    ensures NoDuplicates(ActiveCheckpoints(initial.checkpoint, Run(w, args, rows, initial, localization).cycles))
  {
    forall c ensures OnPanel(w.gate(c), defects) { CalibratedOnPanel(w.gate(c), scores(c)); }
    NoCheckpointReturns(w, args, rows, initial, localization, defects);
  }

  // ---------------------------------------------------------------------------- number of cycles

  /** `max_cycles` bounds the cycles, except that the first one is never refused. */
  predicate WithinCycles(args: Args, n: nat) {
    args.maxCycles.Some? ==> n <= 1 || n <= args.maxCycles.value
  }

  ghost predicate RoomForCycle(args: Args, s: State) {
    s.cycles == [] || !ReachedMaxCycles(args, s.cycles)
  }

  lemma CloseLotCycles(w: World, args: Args, s: State, lot: Lot)
    requires RoomForCycle(args, s)
    ensures var (stop, next) := CloseLot(w, args, s, lot);
      && |s.cycles| <= |next.cycles| <= |s.cycles| + 1 && WithinCycles(args, |next.cycles|)
      && (!stop ==> RoomForCycle(args, next))
      && (ShouldFinalizeLastLot(args, next) ==> RoomForCycle(args, next))
  {
  }

  lemma {:induction false} ReplayCycles(w: World, args: Args, rows: seq<ReplayRow>, s: State, lot: Option<Lot>)
    requires RoomForCycle(args, s) && WithinCycles(args, |s.cycles|)
    ensures var o := Replay(w, args, rows, s, lot);
      WithinCycles(args, |o.s.cycles|) && (ShouldFinalizeLastLot(args, o.s) ==> RoomForCycle(args, o.s))
    decreases |rows|
  {
    if rows != [] && !EventLimitReached(args, s.seen) {
      if Crosses(lot, rows[0]) { CloseLotCycles(w, args, s, lot.value); }
      var closed := if Crosses(lot, rows[0]) then CloseLot(w, args, s, lot.value) else (false, s);
      if !closed.0 && !(Crosses(lot, rows[0]) && LotLimitReached(args, closed.1.lots)) {
        var taken := TakeEvent(w, closed.1, lot, rows[0]);
        ReplayCycles(w, args, rows[1..], taken.0, taken.1);
      }
    }
  }

  /** A run performs at most `max_cycles` cycles, or one when that is less. */
  lemma CyclesBounded(w: World, args: Args, rows: seq<ReplayRow>, initial: Runtime, localization: Runtime)
    ensures WithinCycles(args, |Run(w, args, rows, initial, localization).cycles|)
  {
    var o := Loop(w, args, rows, initial, localization);
    ReplayCycles(w, args, rows, Start(initial, localization), None);
    if o.lot.Some? && ShouldFinalizeLastLot(args, o.s) { CloseLotCycles(w, args, o.s, o.lot.value); }
  }

  /** In a progressive mode the run stops after a lot only for `max_cycles`, and triggers only with a cycle. */
  lemma ProgressiveCloseLot(w: World, args: Args, s: State, lot: Lot)
    requires Progressive(args.mode)
    ensures var (stop, next) := CloseLot(w, args, s, lot);
      && |s.cycles| <= |next.cycles| <= |s.cycles| + 1
      && (next.trigger.Some? ==> s.trigger.Some? || next.cycles != [])
      && (stop ==> ReachedMaxCycles(args, next.cycles))
  {
  }

  // ---------------------------------------------------------------------------- natural scenarios

  /** `evaluate_lifecycle_signal` of src/iqa/monitoring/lifecycle.py: whether the signal triggers. */
  predicate EvaluateLifecycleSignal(signal: Signal, interval: int) {
    if signal.scenarioId in NATURAL_SCENARIOS then signal.conformingCount >= interval
    else if signal.scenarioId == DRIFT_SCENARIO || signal.scenarioId == P4_DRIFT_SCENARIO then signal.driftConfirmed
    else false
  }

  ghost predicate EnoughEach(cycles: seq<Cycle>, interval: int) {
    forall k :: 0 <= k < |cycles| ==> cycles[k].consumed >= interval
  }

  lemma CloseLotEnough(w: World, args: Args, s: State, lot: Lot)
    requires EnoughEach(s.cycles, args.lifecycleInterval) && args.scenarioId in NATURAL_SCENARIOS
    requires forall signal, interval :: w.decide(signal, interval) == EvaluateLifecycleSignal(signal, interval)
    ensures EnoughEach(CloseLot(w, args, s, lot).1.cycles, args.lifecycleInterval)
  {
    var (decision, finalized) := FinalizeLot(w, args, s, Summarize(lot.lotId, lot.events));
    RunCandidateEffects(w, args, finalized.(trigger := Some(decision)), decision);
    var next := CloseLot(w, args, s, lot).1;
    if decision.trigger && Progressive(args.mode) {
      forall k | 0 <= k < |next.cycles| ensures next.cycles[k].consumed >= args.lifecycleInterval {
        assert k < |s.cycles| ==> next.cycles[k] == next.cycles[..|s.cycles|][k];
      }
    }
  }

  lemma {:induction false} ReplayEnough(w: World, args: Args, rows: seq<ReplayRow>, s: State, lot: Option<Lot>)
    requires EnoughEach(s.cycles, args.lifecycleInterval) && args.scenarioId in NATURAL_SCENARIOS
    requires forall signal, interval :: w.decide(signal, interval) == EvaluateLifecycleSignal(signal, interval)
    ensures EnoughEach(Replay(w, args, rows, s, lot).s.cycles, args.lifecycleInterval)
    decreases |rows|
  {
    if rows != [] && !EventLimitReached(args, s.seen) {
      var closed := if Crosses(lot, rows[0]) then CloseLot(w, args, s, lot.value) else (false, s);
      if Crosses(lot, rows[0]) { CloseLotEnough(w, args, s, lot.value); }
      if !closed.0 && !(Crosses(lot, rows[0]) && LotLimitReached(args, closed.1.lots)) {
        var taken := TakeEvent(w, closed.1, lot, rows[0]);
        ReplayEnough(w, args, rows[1..], taken.0, taken.1);
      }
    }
  }

  lemma {:induction false} ConsumedAtLeast(cycles: seq<Cycle>, interval: int)
    requires EnoughEach(cycles, interval)
    ensures |cycles| * interval <= Consumed(cycles)
  {
    if cycles != [] {
      var n := |cycles| - 1;
      ConsumedAtLeast(cycles[..n], interval);
      assert |cycles| * interval == n * interval + interval;
    }
  }

  /** In a natural scenario every cycle is paid for by `lifecycle_interval` conforming pieces of its own. */
  lemma NaturalCyclesBounded(w: World, args: Args, rows: seq<ReplayRow>, initial: Runtime, localization: Runtime)
    requires args.scenarioId in NATURAL_SCENARIOS && args.maxLots.None?
    requires forall signal, interval :: w.decide(signal, interval) == EvaluateLifecycleSignal(signal, interval)
    ensures var s := Run(w, args, rows, initial, localization);
      && |s.cycles| * args.lifecycleInterval <= Consumed(s.cycles)
      && Consumed(s.cycles) + (s.totalConforming - s.lastCycleConforming) == CountIf(s.seen, IsConforming)
  {
    var o := Loop(w, args, rows, initial, localization);
    ReplayEnough(w, args, rows, Start(initial, localization), None);
    if o.lot.Some? { CloseLotEnough(w, args, o.s, o.lot.value); }
    ConsumedAtLeast(Run(w, args, rows, initial, localization).cycles, args.lifecycleInterval);
    ConformingConserved(w, args, rows, initial, localization);
    LotConservationWithoutLimit(w, args, rows, initial, localization);
    LimitNeeded(w, args, rows, Start(initial, localization), None);
  }

  lemma {:induction false} LimitNeeded(w: World, args: Args, rows: seq<ReplayRow>, s: State, lot: Option<Lot>)
    requires args.maxLots.None?
    ensures Replay(w, args, rows, s, lot).ended != LotLimit
    decreases |rows|
  {
    if rows != [] && !EventLimitReached(args, s.seen) {
      var closed := if Crosses(lot, rows[0]) then CloseLot(w, args, s, lot.value) else (false, s);
      if !closed.0 {
        var taken := TakeEvent(w, closed.1, lot, rows[0]);
        LimitNeeded(w, args, rows[1..], taken.0, taken.1);
      }
    }
  }
}
