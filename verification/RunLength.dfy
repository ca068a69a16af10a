/** How far a replay lifecycle run goes (`run_cycle` in scripts/run_replay_lifecycle_cycle.py): which lot ends it, read
    off the decisions on its lots, and how many rows it processes. */
module RunLength {
  import opened ReplayEvents
  import opened ReplayLifecycle
  import opened LifecycleRuns
  import opened RunHistory

  /** The run may not go on after lot k: it is the `max_lots`-th, or it triggered and either the mode stops at the first
      trigger or this is the `max_cycles`-th. */
  ghost predicate Halts(args: Args, s: State, k: nat)
    requires k < |s.decisions|
  {
    || (args.maxLots.Some? && k + 1 >= args.maxLots.value)
    || (&& s.decisions[k].trigger
        && (|| args.mode == DecisionOnly || args.mode == TrainOnTrigger
            || (args.maxCycles.Some? && |Triggers(s.decisions[..k + 1])| >= args.maxCycles.value)))
  }

  ghost predicate OneCyclePerTrigger(args: Args, s: State) {
    |s.cycles| == (if Progressive(args.mode) then |Triggers(s.decisions)| else 0)
  }

  /** Every lot so far lets the run go on. */
  ghost predicate Unhalted(args: Args, s: State) {
    && |s.decisions| == |s.lots|
    && OneCyclePerTrigger(args, s)
    && forall k :: 0 <= k < |s.decisions| ==> !Halts(args, s, k)
  }

  lemma HaltsStays(args: Args, s: State, next: State, k: nat)
    requires k < |s.decisions| <= |next.decisions| && next.decisions[..|s.decisions|] == s.decisions
    ensures Halts(args, next, k) <==> Halts(args, s, k)
  {
    assert next.decisions[..k + 1] == s.decisions[..k + 1];
    assert next.decisions[k] == s.decisions[k];
  }

  /** Closing a lot adds one decision, and ends the run when that triggers in a mode without cycles, or when the cycle
      it runs is the `max_cycles`-th. */
  lemma ClosedDecision(w: World, args: Args, s: State, lot: Lot)
    requires OneCyclePerTrigger(args, s)
    ensures var (stop, next) := CloseLot(w, args, s, lot);
      && next.seen == s.seen && next.lots == s.lots + [Summarize(lot.lotId, lot.events)]
      && |next.decisions| == |s.decisions| + 1 && next.decisions[..|s.decisions|] == s.decisions
      && OneCyclePerTrigger(args, next)
      && (stop <==> LastOf(next.decisions).trigger
                    && (!Progressive(args.mode) || ReachedMaxCycles(args, next.cycles)))
  {
    var (d, finalized) := FinalizeLot(w, args, s, Summarize(lot.lotId, lot.events));
    if d.trigger && Progressive(args.mode) { CandidateKeepsLots(w, args, finalized.(trigger := Some(d)), d); }
    TriggersSnoc(s.decisions, d);
  }

  /** Closing a lot ends the run, or reaches the lot limit, exactly when the lot halts it. */
  lemma ClosedHalts(w: World, args: Args, s: State, lot: Lot)
    requires Unhalted(args, s)
    ensures var (stop, next) := CloseLot(w, args, s, lot);
      && |next.decisions| == |next.lots| == |s.lots| + 1
      && (forall k :: 0 <= k < |s.lots| ==> !Halts(args, next, k))
      && (Halts(args, next, |s.lots|) <==> stop || LotLimitReached(args, next.lots))
      && OneCyclePerTrigger(args, next)
  {
    ClosedDecision(w, args, s, lot);
    EarlierStay(args, s, CloseLot(w, args, s, lot).1);
  }

  lemma EarlierStay(args: Args, s: State, next: State)
    requires Unhalted(args, s)
    requires |s.decisions| <= |next.decisions| && next.decisions[..|s.decisions|] == s.decisions
    ensures forall k :: 0 <= k < |s.lots| ==> !Halts(args, next, k)
    ensures next.decisions[..|next.decisions|] == next.decisions
  {
    forall k | 0 <= k < |s.lots| ensures !Halts(args, next, k) { HaltsStays(args, s, next, k); }
  }

  /** The loop was cut at a lot boundary by the last lot it closed, the first one that halts the run. */
  ghost predicate CutAt(args: Args, rows: seq<ReplayRow>, s: State) {
    && |s.decisions| == |s.lots| > 0
    && OneCyclePerTrigger(args, s)
    && (forall k :: 0 <= k < |s.lots| - 1 ==> !Halts(args, s, k)) && Halts(args, s, |s.lots| - 1)
    && EventsIn(s.lots) == |s.seen| && BeforeNewLot(args, rows, s.seen)
  }

  /** Admitted rows are left, and the next one starts another lot. */
  ghost predicate BeforeNewLot(args: Args, rows: seq<ReplayRow>, seen: seq<CycleEvent>) {
    && 0 < |seen| < |Admitted(args, rows)| <= |rows|
    && LotIdOf(rows[|seen|]) != LastOf(seen).lotId
  }

  ghost predicate EndsWhere(args: Args, rows: seq<ReplayRow>, o: Outcome) {
    if o.ended == Stopped || o.ended == LotLimit then CutAt(args, rows, o.s)
    else |o.s.seen| == |Admitted(args, rows)| && Unhalted(args, o.s)
  }

  lemma ClosedLots(seen: seq<CycleEvent>, lots: seq<LotSummary>, lot: Lot)
    requires LotsOpen(seen, lots, Some(lot))
    ensures seen != [] && LastOf(seen).lotId == lot.lotId
    ensures LotsClosed(seen, lots + [Summarize(lot.lotId, lot.events)], Some(lot))
    ensures EventsIn(lots + [Summarize(lot.lotId, lot.events)]) == |seen|
  {
    OpenLotEvents(seen, lots, Some(lot));
    EventsInSnoc(lots, Summarize(lot.lotId, lot.events));
  }

  lemma CutExactly(args: Args, rows: seq<ReplayRow>, s: State, stop: bool)
    requires |s.decisions| == |s.lots| > 0 && OneCyclePerTrigger(args, s)
    requires forall k :: 0 <= k < |s.lots| - 1 ==> !Halts(args, s, k)
    requires Halts(args, s, |s.lots| - 1) <==> stop || LotLimitReached(args, s.lots)
    requires EventsIn(s.lots) == |s.seen| && BeforeNewLot(args, rows, s.seen)
    ensures if stop || LotLimitReached(args, s.lots) then CutAt(args, rows, s) else Unhalted(args, s)
  {
  }

  lemma CutAtBoundary(w: World, args: Args, rows: seq<ReplayRow>, s: State, lot: Lot)
    requires Unhalted(args, s) && LotsOpen(s.seen, s.lots, Some(lot))
    requires |s.seen| < |Admitted(args, rows)| <= |rows| && Crosses(Some(lot), rows[|s.seen|])
    ensures var (stop, next) := CloseLot(w, args, s, lot);
      && next.seen == s.seen && LotsClosed(next.seen, next.lots, Some(lot))
      && if stop || LotLimitReached(args, next.lots) then CutAt(args, rows, next) else Unhalted(args, next)
  {
    var (stop, next) := CloseLot(w, args, s, lot);
    ClosedHalts(w, args, s, lot);
    CloseLotEffects(w, args, s, lot);
    ClosedLots(s.seen, s.lots, lot);
    CutExactly(args, rows, next, stop);
  }

  /** A row is taken when the boundary check lets the run go on. */
  lemma NextTaken(w: World, args: Args, rows: seq<ReplayRow>, s: State, lot: Option<Lot>)
    requires |s.seen| < |Admitted(args, rows)| <= |rows| && Unhalted(args, s) && LotsOpen(s.seen, s.lots, lot)
    ensures var row := rows[|s.seen|]; var (stop, closed) := Bounded(w, args, s, lot, row);
      if stop || (Crosses(lot, row) && LotLimitReached(args, closed.lots)) then CutAt(args, rows, closed)
      else var (next, lot') := TakeEvent(w, closed, lot, row);
        |next.seen| == |s.seen| + 1 && Unhalted(args, next) && LotsOpen(next.seen, next.lots, lot')
  {
    var row := rows[|s.seen|];
    if Crosses(lot, row) { CutAtBoundary(w, args, rows, s, lot.value); }
    var (stop, closed) := Bounded(w, args, s, lot, row);
    if !stop && !(Crosses(lot, row) && LotLimitReached(args, closed.lots)) {
      TakeEventKeepsLots(w, closed, lot, row);
      SameLots(args, closed, TakeEvent(w, closed, lot, row).0);
    }
  }

  lemma {:induction false} LengthFrom(w: World, args: Args, rows: seq<ReplayRow>, done: nat, s: State, lot: Option<Lot>)
    requires done == |s.seen| <= |Admitted(args, rows)| <= |rows|
    requires Unhalted(args, s) && LotsOpen(s.seen, s.lots, lot)
    ensures EndsWhere(args, rows, Replay(w, args, rows[done..], s, lot))
    decreases |rows| - done
  {
    AdmittedPrefix(args, rows, done);
    if done < |Admitted(args, rows)| {
      NextRow(rows, done);
      NextTaken(w, args, rows, s, lot);
      var closed := Bounded(w, args, s, lot, rows[done]);
      if !closed.0 && !(Crosses(lot, rows[done]) && LotLimitReached(args, closed.1.lots)) {
        var taken := TakeEvent(w, closed.1, lot, rows[done]);
        LengthFrom(w, args, rows, done + 1, taken.0, taken.1);
      }
    }
  }

  lemma SameLots(args: Args, s: State, next: State)
    requires Unhalted(args, s)
    requires next.decisions == s.decisions && next.lots == s.lots && next.cycles == s.cycles
    ensures Unhalted(args, next)
  {
    forall k | 0 <= k < |next.decisions| ensures !Halts(args, next, k) { HaltsStays(args, s, next, k); }
  }

  /** A lot that halts the run is the last one with rows left: nothing after it is processed. */
  ghost predicate NothingAfter(args: Args, rows: seq<ReplayRow>, s: State, k: nat)
    requires k < |s.lots| == |s.decisions|
  {
    Halts(args, s, k) && ProcessedAt(s, k) < |Admitted(args, rows)| ==> ProcessedAt(s, k) == |s.seen|
  }

  ghost predicate HaltedAt(args: Args, s: State, k: nat)
    requires |s.lots| == |s.decisions|
  {
    k < |s.lots| && Halts(args, s, k) && ProcessedAt(s, k) == |s.seen|
  }

  /** The rows that a run processes, given the decisions on its lots. */
  ghost predicate LengthExact(args: Args, rows: seq<ReplayRow>, s: State) {
    && |s.decisions| == |s.lots| && |s.seen| <= |Admitted(args, rows)|
    && (forall k :: 0 <= k < |s.lots| ==> NothingAfter(args, rows, s, k))
    && (|s.seen| < |Admitted(args, rows)| ==>
        BeforeNewLot(args, rows, s.seen) && exists k: nat :: HaltedAt(args, s, k))
  }

  lemma LoopLength(args: Args, rows: seq<ReplayRow>, o: Outcome)
    requires EndsWhere(args, rows, o)
    ensures LengthExact(args, rows, o.s)
  {
    if o.ended == Stopped || o.ended == LotLimit {
      var k := |o.s.lots| - 1;
      assert o.s.lots[..k + 1] == o.s.lots;
      assert HaltedAt(args, o.s, k);
    }
  }

  /** A further decision on events already processed leaves the length exact. */
  lemma LengthStays(args: Args, rows: seq<ReplayRow>, s: State, next: State)
    requires LengthExact(args, rows, s) && next.seen == s.seen && |next.decisions| == |next.lots| == |s.lots| + 1
    requires next.decisions[..|s.decisions|] == s.decisions && ProcessedAt(next, |s.lots|) == |s.seen|
    requires forall k :: 0 <= k < |s.lots| ==> ProcessedAt(next, k) == ProcessedAt(s, k)
    ensures LengthExact(args, rows, next)
  {
    forall k | 0 <= k < |s.lots| ensures NothingAfter(args, rows, next, k) {
      HaltsStays(args, s, next, k);
      assert NothingAfter(args, rows, s, k);
    }
    if |s.seen| < |Admitted(args, rows)| {
      var k: nat :| HaltedAt(args, s, k);
      HaltsStays(args, s, next, k);
      assert HaltedAt(args, next, k);
    }
  }

  lemma LastLotLength(w: World, args: Args, rows: seq<ReplayRow>, o: Outcome)
    requires LengthExact(args, rows, o.s) && Consistent(args, o) && o.ended != Stopped && o.lot.Some?
    requires OneCyclePerTrigger(args, o.s)
    ensures LengthExact(args, rows, CloseLot(w, args, o.s, o.lot.value).1)
  {
    var lot := o.lot.value;
    var next := CloseLot(w, args, o.s, lot).1;
    LastLotEvents(args, o);
    ClosedDecision(w, args, o.s, lot);
    ProcessedGrows(o.s, next, Summarize(lot.lotId, lot.events));
    LengthStays(args, rows, o.s, next);
  }

  /** Every run processes the rows that `max_events` admits, up to the end of the first lot that halts it: the
      `max_lots`-th, the first that triggers in a mode without cycles, or the `max_cycles`-th that triggers. */
  lemma RowsProcessed(w: World, args: Args, rows: seq<ReplayRow>, initial: Runtime, localization: Runtime)
    ensures LengthExact(args, rows, Run(w, args, rows, initial, localization))
  {
    var start, o := Start(initial, localization), Loop(w, args, rows, initial, localization);
    AdmittedPrefix(args, rows, 0);
    assert rows[0..] == rows && LotsOf([]) == [] && Triggers([]) == [];
    LengthFrom(w, args, rows, 0, start, None);
    ReplayKeepsLots(w, args, rows, start, None);
    LoopLength(args, rows, o);
    if o.lot.Some? && ShouldFinalizeLastLot(args, o.s) { LastLotLength(w, args, rows, o); }
  }
}
