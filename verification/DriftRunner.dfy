/** `run_observation`: the loop that replays rows, fills windows and finalises them
    (scripts/run_drift_observation_replay.py). */
module DriftRunner {
  import opened ReplayEvents
  import opened Sorting
  import opened DriftRows
  import opened DriftLatch
  import opened RoiNovelty
  import opened DriftObservation

  datatype Args = Args(windowSize: int, stableReferenceEvents: int, driftObservationWindows: int,
                       maxEvents: Option<int>)

  datatype ObservationSummary = ObservationSummary(
    windows: seq<WindowSummary>,
    everSuspected: bool,
    everConfirmed: bool,
    firstConfirmedWindowIndex: Option<nat>,
    driftStatus: Status,
    contextRows: seq<DriftRow>)

  datatype Outcome = WindowSizeNotPositive | NoP4RowsSelected | Observed(summary: ObservationSummary)

  function CutAt<T>(xs: seq<T>, maxEvents: Option<int>): seq<T> {
    match maxEvents
    case None => xs
    case Some(n) => Take(xs, AtLeastZero(n))
  }

  function LastCompleteStatus(windows: seq<WindowSummary>, fallback: Status): Status {
    if windows == [] then fallback
    else if windows[|windows| - 1].complete then windows[|windows| - 1].evaluation.status
    else LastCompleteStatus(windows[..|windows| - 1], fallback)
  }

  function FinalStatus(windows: seq<WindowSummary>): Status {
    if windows == [] then Clear else windows[|windows| - 1].evaluation.status
  }

  function Summarise(windows: seq<WindowSummary>, processed: seq<DriftRow>): ObservationSummary {
    var everConfirmed := exists k :: 0 <= k < |windows| && windows[k].complete && windows[k].evaluation.confirmed;
    ObservationSummary(
      windows,
      exists k :: 0 <= k < |windows| && windows[k].complete && windows[k].evaluation.suspected,
      everConfirmed,
      FirstConfirmed(windows),
      if everConfirmed then Confirmed else LastCompleteStatus(windows, FinalStatus(windows)),
      Filter(processed, IsP4Row))
  }

  function Observation(th: Thresholds, args: Args, allRows: seq<DriftRow>, process: DriftRow -> CycleEvent): Outcome {
    if args.windowSize <= 0 then WindowSizeNotPositive
    else
      match SelectRows(allRows, args.stableReferenceEvents, args.driftObservationWindows, args.windowSize)
      case NoP4Selected => NoP4RowsSelected
      case Selected(rows) =>
        var processed := CutAt(rows, args.maxEvents);
        Observed(Summarise(Summaries(th, Windows(Replayed(processed, process), args.windowSize), args.windowSize),
                           processed))
  }

  lemma {:induction false} FirstConfirmedExists(windows: seq<WindowSummary>)
    ensures FirstConfirmed(windows).Some?
      <==> exists k :: 0 <= k < |windows| && windows[k].complete && windows[k].evaluation.confirmed
  {
    if windows != [] {
      FirstConfirmedExists(windows[1..]);
      if k :| 0 <= k < |windows| && windows[k].complete && windows[k].evaluation.confirmed {
        if k > 0 { assert windows[1..][k - 1] == windows[k]; }
      }
      if k :| 0 <= k < |windows[1..]| && windows[1..][k].complete && windows[1..][k].evaluation.confirmed {
        assert windows[k + 1] == windows[1..][k];
      }
    }
  }

  /** The whole run: a lifecycle is triggered exactly when a first confirmed window is named, and that is the
      first complete window of the processed events that is a trigger. */
  lemma LifecycleTriggeredIffTrigger(th: Thresholds, args: Args, allRows: seq<DriftRow>,
                                     process: DriftRow -> CycleEvent)
    requires Observation(th, args, allRows, process).Observed?
    ensures var s := Observation(th, args, allRows, process).summary;
      var rows := SelectRows(allRows, args.stableReferenceEvents, args.driftObservationWindows, args.windowSize).rows;
      var ws := Windows(Replayed(CutAt(rows, args.maxEvents), process), args.windowSize);
      && s.everConfirmed == s.firstConfirmedWindowIndex.Some?
      && IsFirstTrigger(th, ws, args.windowSize, s.firstConfirmedWindowIndex)
  {
    var rows := SelectRows(allRows, args.stableReferenceEvents, args.driftObservationWindows, args.windowSize).rows;
    var events := Replayed(CutAt(rows, args.maxEvents), process);
    FirstConfirmedIsFirstTrigger(th, events, args.windowSize);
    FirstConfirmedExists(Summaries(th, Windows(events, args.windowSize), args.windowSize));
  }

  /** A short observation that starts with m reference windows: no confirmation before window m + 2, however
      inference behaves and wherever `max_events` stops it. */
  lemma ShortObservationNotBefore(th: Thresholds, args: Args, allRows: seq<DriftRow>, process: DriftRow -> CycleEvent,
                                  m: nat)
    requires args.windowSize >= 2 && args.driftObservationWindows >= 2
      && args.stableReferenceEvents == m * args.windowSize
    requires EnoughRows(allRows, m, args.driftObservationWindows, args.windowSize) && KeepsPhase(process)
    ensures Observation(th, args, allRows, process).Observed?
    ensures var s := Observation(th, args, allRows, process).summary;
      s.firstConfirmedWindowIndex.Some? ==> s.firstConfirmedWindowIndex.value >= m + 2
  {
    var w := args.windowSize;
    SelectionTwoPhases(allRows, m, args.driftObservationWindows, w);
    var rows := SelectRows(allRows, m * w, args.driftObservationWindows, w).rows;
    var n := if args.maxEvents.Some? then AtLeastZero(args.maxEvents.value) else |rows|;
    assert CutAt(rows, args.maxEvents) == Take(rows, n);
    AskedForWindows(m, args.driftObservationWindows, w, 0);
    MixedWindowShare(w);
    ReplayedTwoPhases(rows, m * w + (w - MixedP4Count(w)), process, n);
    EarliestConfirmation(th, Replayed(Take(rows, n), process), m, w);
  }

  lemma {:induction false} LastCompleteOfWindows(windows: seq<WindowSummary>, fallback: Status)
    requires forall k :: 0 <= k < |windows| - 1 ==> windows[k].complete
    ensures LastCompleteStatus(windows, fallback)
      == if windows == [] then fallback
         else if windows[|windows| - 1].complete then windows[|windows| - 1].evaluation.status
         else if |windows| == 1 then fallback else windows[|windows| - 2].evaluation.status
  {
  }

  ghost predicate StatusMatches(windows: seq<WindowSummary>) {
    forall k :: 0 <= k < |windows| ==> (windows[k].evaluation.status == Confirmed <==> windows[k].evaluation.confirmed)
  }

  /** The reported status is that of the trigger, except in a run too short for one complete window, whose status is
      that of its partial window. */
  lemma StatusOfWindows(windows: seq<WindowSummary>, processed: seq<DriftRow>)
    requires StatusMatches(windows) && forall k :: 0 <= k < |windows| - 1 ==> windows[k].complete
    ensures var s := Summarise(windows, processed);
      if |windows| == 1 && !windows[0].complete then !s.everConfirmed && s.driftStatus == windows[0].evaluation.status
      else s.driftStatus == Confirmed <==> s.everConfirmed
  {
    LastCompleteOfWindows(windows, FinalStatus(windows));
  }

  lemma ReportsStatus(th: Thresholds, ws: seq<seq<CycleEvent>>, w: nat)
    requires forall k :: 0 <= k < |ws| - 1 ==> |ws[k]| == w
    ensures StatusMatches(Summaries(th, ws, w))
    ensures forall k :: 0 <= k < |ws| - 1 ==> Summaries(th, ws, w)[k].complete
  {
  }

  lemma FirstWindowComplete(events: seq<CycleEvent>, w: nat)
    requires w > 0
    ensures |events| >= w ==> Windows(events, w) != [] && |Windows(events, w)[0]| >= w
    ensures 0 < |events| < w ==> Windows(events, w) == [events]
  {
  }

  lemma PartialWindowReport(th: Thresholds, events: seq<CycleEvent>, w: nat)
    requires 0 < |events| < w
    ensures |Summaries(th, [events], w)| == 1 && !Summaries(th, [events], w)[0].complete
    ensures Summaries(th, [events], w)[0].evaluation.confirmed <==> Trigger(th, AllMetrics(th, [events]), 0)
  {
    ConfirmedWindow(th, [events], w, 0);
  }

  /** A run that is cut before its first window is full, and whose partial window would confirm drift. */
  ghost predicate PartialTrigger(th: Thresholds, events: seq<CycleEvent>, w: nat) {
    0 < |events| < w && Trigger(th, AllMetrics(th, [events]), 0)
  }

  lemma StatusOfEvents(th: Thresholds, events: seq<CycleEvent>, w: nat, processed: seq<DriftRow>)
    requires w > 0
    ensures var s := Summarise(Summaries(th, Windows(events, w), w), processed);
      (s.driftStatus == Confirmed <==> s.everConfirmed) <==> !PartialTrigger(th, events, w)
    ensures PartialTrigger(th, events, w) ==>
      var s := Summarise(Summaries(th, Windows(events, w), w), processed);
        s.driftStatus == Confirmed && !s.everConfirmed
  {
    var ws := Windows(events, w);
    WindowsPartition(events, w);
    ReportsStatus(th, ws, w);
    StatusOfWindows(Summaries(th, ws, w), processed);
    FirstWindowComplete(events, w);
    if 0 < |events| < w { PartialWindowReport(th, events, w); }
  }

  function ProcessedRows(args: Args, allRows: seq<DriftRow>): seq<DriftRow>
    requires args.windowSize > 0
      && SelectRows(allRows, args.stableReferenceEvents, args.driftObservationWindows, args.windowSize).Selected?
  {
    CutAt(SelectRows(allRows, args.stableReferenceEvents, args.driftObservationWindows, args.windowSize).rows,
          args.maxEvents)
  }

  /** The reported status is `confirmed` exactly when the run triggers a lifecycle, if and only if the run is not cut
      inside a first window that would itself confirm drift. */
  lemma StatusAgreesIff(th: Thresholds, args: Args, allRows: seq<DriftRow>, process: DriftRow -> CycleEvent)
    requires Observation(th, args, allRows, process).Observed?
    ensures var s := Observation(th, args, allRows, process).summary;
      (s.driftStatus == Confirmed <==> s.everConfirmed)
      <==> !PartialTrigger(th, Replayed(ProcessedRows(args, allRows), process), args.windowSize)
  {
    StatusOfEvents(th, Replayed(ProcessedRows(args, allRows), process), args.windowSize, ProcessedRows(args, allRows));
  }

  /** Without references no mask is new, and one window is no run of two. */
  lemma PartialWindowNeverTriggers(th: Thresholds, events: seq<CycleEvent>, w: nat)
    requires th.confirmWindows >= 2 && th.novelty > 0.0
    ensures !PartialTrigger(th, events, w)
  {
    if 0 < |events| < w {
      assert [events][..0] == [];
      NoReferencesNoDistances(events);
    }
  }

  lemma {:induction false} NoReferencesNoDistances(events: seq<CycleEvent>)
    ensures Distances([], events) == []
  {
    if events != [] { NoReferencesNoDistances(events[1..]); }
  }

  /** Where confirmation takes two windows and novelty is required, as by default, status and trigger always agree. */
  lemma StatusAgreesWithTrigger(th: Thresholds, args: Args, allRows: seq<DriftRow>, process: DriftRow -> CycleEvent)
    requires Observation(th, args, allRows, process).Observed? && th.confirmWindows >= 2 && th.novelty > 0.0
    ensures var s := Observation(th, args, allRows, process).summary; s.driftStatus == Confirmed <==> s.everConfirmed
  {
    StatusAgreesIff(th, args, allRows, process);
    PartialWindowNeverTriggers(th, Replayed(ProcessedRows(args, allRows), process), args.windowSize);
  }

  /** Where one window is enough, a run of a single red P4 event in windows of two reports `confirmed` and triggers
      nothing. */
  lemma PartialWindowConfirmsWithoutTrigger(th: Thresholds, row: DriftRow, process: DriftRow -> CycleEvent)
    requires th.minWindowEvents <= 1 && th.confirmWindows <= 1 && th.domain <= 1.0 && th.red <= 1.0
    requires IsP4Event(process(row)) && Red(process(row))
    ensures var o := Observation(th, Args(2, 0, 0, None), [row], process);
      o.Observed? && o.summary.driftStatus == Confirmed && !o.summary.everConfirmed
  {
    var args := Args(2, 0, 0, None);
    var events := Replayed([row], process);
    assert events == [process(row)];
    RedP4WindowTriggers(th, [events], 0);
    StatusOfEvents(th, events, 2, [row]);
  }

  /** In windows of one event there is no mixed window: the first window after the m stable ones is all P4, and where
      one red window is enough drift is confirmed there, one window earlier than in longer windows. */
  lemma SingletonWindowConfirmsEarlier(th: Thresholds, allRows: seq<DriftRow>, process: DriftRow -> CycleEvent, m: nat,
                                       d: nat)
    requires th.minWindowEvents <= 1 && th.confirmWindows <= 1 && th.domain <= 1.0 && th.red <= 1.0
    requires d >= 2 && EnoughRows(allRows, m, d, 1) && KeepsPhase(process) && forall row :: Red(process(row))
    ensures var o := Observation(th, Args(1, m, d, None), allRows, process);
      o.Observed? && o.summary.firstConfirmedWindowIndex == Some(m + 1)
  {
    assert m * 1 == m;
    SelectionLinesUpWithWindows(allRows, m, d, 1, process, m);
    MixedWindowShare(1);
    var events := Replayed(SelectRows(allRows, m, d, 1).rows, process);
    var ws := Windows(events, 1);
    forall k | 0 <= k < m ensures CountIf(ws[k], IsP4Event) == 0 {
      SelectionLinesUpWithWindows(allRows, m, d, 1, process, k);
    }
    FullCount(ws[m], IsP4Event);
    WindowsPartition(events, 1);
    forall e | e in ws[m] ensures Red(e) { ConcatMember(ws, m, e); }
    RedP4WindowTriggers(th, ws, m);
    FirstConfirmedIsFirstTrigger(th, events, 1);
    FirstTriggerAt(th, ws, 1, m, FirstConfirmed(Summaries(th, ws, 1)));
  }

  // ---------------------------------------------------------------------------- the loop

  class DriftWindow {
    const index: nat
    var events: seq<CycleEvent>

    constructor (index: nat)
      ensures this.index == index && events == []
    {
      this.index := index;
      events := [];
    }

    method Append(event: CycleEvent)
      modifies this
      ensures events == old(events) + [event]
    {
      events := events + [event];
    }
  }

  /** The loop has finalised the windows `closed` and nothing else. */
  ghost predicate Tracks(th: Thresholds, w: nat, closed: seq<seq<CycleEvent>>, byView: ByView, latch: Latch,
                         summaries: seq<WindowSummary>) {
    byView == References(closed) && latch == FinalLatch(th, AllMetrics(th, closed))
      && summaries == Summaries(th, closed, w)
  }

  lemma TracksNext(th: Thresholds, w: nat, closed: seq<seq<CycleEvent>>, byView: ByView, latch: Latch,
                   summaries: seq<WindowSummary>, window: seq<CycleEvent>)
    requires Tracks(th, w, closed, byView, latch, summaries)
    ensures var m := WindowMetrics(th, byView, window);
      var e := FinalizeWindow(th, m, latch);
      Tracks(th, w, closed + [window], AddAll(byView, Filter(window, IsOutsideP4)), LatchAfter(e, latch),
             summaries + [WindowSummary(|closed| + 1, e, m, DriftScore(th, m), |window| >= w)])
  {
    SummariesGrow(th, closed, w, window);
    SummaryOfLast(th, closed, w, window);
    StateGrows(th, closed, window);
  }

  /** `_finalize_window`, followed by the update of the reference store. */
  method CloseWindow(th: Thresholds, w: nat, window: DriftWindow, reference: RoiMaskReference, latch: Latch,
                     summaries: seq<WindowSummary>, complete: bool, ghost closed: seq<seq<CycleEvent>>)
    returns (next: Latch, more: seq<WindowSummary>)
    requires Tracks(th, w, closed, reference.byView, latch, summaries)
    requires window.index == |closed| + 1 && complete == (|window.events| >= w)
    modifies reference
    ensures Tracks(th, w, closed + [window.events], reference.byView, next, more)
  {
    var events := window.events;
    var roi := reference.Metrics(events, th.nnDistance);
    var total, p4 := |events|, CountIf(events, IsP4Event);
    var metrics := DriftMetrics(
      total, p4, Rate(p4, total), roi.nnDistance, roi.noveltyRate, roi.areaRatio,
      Rate(CountIf(events, Alarmed), total),
      Rate(CountIf(events, Red), total),
      Rate(CountIf(events, UnexpectedRed), CountIf(events, Conforming)),
      Rate(CountIf(events, RoiFailed), total),
      Rate(CountIf(events, MissedDefect), CountIf(events, DefectiveEvent)));
    assert metrics == WindowMetrics(th, reference.byView, events);
    var evaluation := FinalizeWindow(th, metrics, latch);
    TracksNext(th, w, closed, reference.byView, latch, summaries, events);
    more := summaries + [WindowSummary(window.index, evaluation, metrics, DriftScore(th, metrics), complete)];
    next := LatchAfter(evaluation, latch);
    reference.AddEvents(Filter(events, IsOutsideP4));
  }

  lemma FirstWindowFull<T>(window: seq<T>, rest: seq<T>, w: nat)
    requires |window| == w > 0
    ensures Windows(window + rest, w) == [window] + Windows(rest, w)
  {
    var xs := window + rest;
    assert xs[..w] == window && xs[w..] == rest;
    if rest == [] { assert xs == window; }
  }

  /** The closed windows, and those of the open one followed by the remaining events, are all windows. */
  ghost predicate Arranged<T>(w: nat, closed: seq<seq<T>>, open: seq<T>, rest: seq<T>, all: seq<T>)
    requires w > 0
  {
    closed + Windows(open + rest, w) == Windows(all, w)
  }

  lemma ArrangedAppend<T>(w: nat, closed: seq<seq<T>>, open: seq<T>, rest: seq<T>, all: seq<T>)
    requires w > 0 && rest != [] && Arranged(w, closed, open, rest, all)
    ensures Arranged(w, closed, open + [rest[0]], rest[1..], all)
  {
    assert open + rest == (open + [rest[0]]) + rest[1..];
  }

  lemma ArrangedClose<T>(w: nat, closed: seq<seq<T>>, open: seq<T>, rest: seq<T>, all: seq<T>)
    requires w > 0 && rest != [] && Arranged(w, closed, open, rest, all) && |open| + 1 == w
    ensures Arranged(w, closed + [open + [rest[0]]], [], rest[1..], all)
  {
    assert open + rest == (open + [rest[0]]) + rest[1..];
    CloseFullWindow(closed, open + [rest[0]], open, rest, rest[1..], w);
  }

  /** Between two events: the windows closed so far are finalised, the open one is not full, and together with
      the remaining events they make all windows. */
  ghost predicate LoopState(th: Thresholds, w: nat, closed: seq<seq<CycleEvent>>, open: seq<CycleEvent>,
                            rest: seq<CycleEvent>,
                            all: seq<CycleEvent>, byView: ByView, latch: Latch, summaries: seq<WindowSummary>)
    requires w > 0
  {
    && |open| < w
    && Arranged(w, closed, open, rest, all)
    && Tracks(th, w, closed, byView, latch, summaries)
  }

  lemma LoopStart(th: Thresholds, w: nat, all: seq<CycleEvent>)
    requires w > 0
    ensures LoopState(th, w, [], [], all, all, [], INITIAL, [])
  {
    assert [] + all == all;
  }

  lemma LoopAppend(th: Thresholds, w: nat, closed: seq<seq<CycleEvent>>, open: seq<CycleEvent>, rest: seq<CycleEvent>,
                   all: seq<CycleEvent>, byView: ByView, latch: Latch, summaries: seq<WindowSummary>)
    requires w > 0 && rest != [] && LoopState(th, w, closed, open, rest, all, byView, latch, summaries)
    requires |open| + 1 < w
    ensures LoopState(th, w, closed, open + [rest[0]], rest[1..], all, byView, latch, summaries)
  {
    ArrangedAppend(w, closed, open, rest, all);
  }

  lemma CloseFullWindow<T>(closed: seq<seq<T>>, window: seq<T>, open: seq<T>, rest: seq<T>, later: seq<T>, w: nat)
    requires |window| == w > 0 && open + rest == window + later
    ensures closed + Windows(open + rest, w) == (closed + [window]) + Windows([] + later, w)
  {
    FirstWindowFull(window, later, w);
    assert [] + later == later;
    assert closed + ([window] + Windows(later, w)) == (closed + [window]) + Windows(later, w);
  }

  lemma LoopClose(th: Thresholds, w: nat, closed: seq<seq<CycleEvent>>, open: seq<CycleEvent>, rest: seq<CycleEvent>,
                  all: seq<CycleEvent>, byView: ByView, latch: Latch, summaries: seq<WindowSummary>,
                  byView': ByView, latch': Latch, summaries': seq<WindowSummary>)
    requires w > 0 && rest != [] && LoopState(th, w, closed, open, rest, all, byView, latch, summaries)
    requires |open| + 1 == w && Tracks(th, w, closed + [open + [rest[0]]], byView', latch', summaries')
    ensures LoopState(th, w, closed + [open + [rest[0]]], [], rest[1..], all, byView', latch', summaries')
  {
    ArrangedClose(w, closed, open, rest, all);
  }

  lemma LoopEnd(th: Thresholds, w: nat, closed: seq<seq<CycleEvent>>, open: seq<CycleEvent>, all: seq<CycleEvent>,
                byView: ByView, latch: Latch, summaries: seq<WindowSummary>)
    requires w > 0 && LoopState(th, w, closed, open, [], all, byView, latch, summaries)
    ensures Windows(all, w) == if open == [] then closed else closed + [open]
  {
    assert open + [] == open;
  }

  /** One event of the loop: it joins the open window, which is finalised when it is full. */
  method ProcessEvent(th: Thresholds, w: nat, event: CycleEvent, window: DriftWindow, reference: RoiMaskReference,
                      latch: Latch,
                      summaries: seq<WindowSummary>, ghost closed: seq<seq<CycleEvent>>,
                      ghost rest: seq<CycleEvent>, ghost all: seq<CycleEvent>)
    returns (next: Latch, more: seq<WindowSummary>, current: DriftWindow, ghost closed': seq<seq<CycleEvent>>)
    requires w > 0 && rest != [] && rest[0] == event && window.index == |closed| + 1
    requires LoopState(th, w, closed, window.events, rest, all, reference.byView, latch, summaries)
    modifies window, reference
    ensures current == window || fresh(current)
    ensures current.index == |closed'| + 1
    ensures LoopState(th, w, closed', current.events, rest[1..], all, reference.byView, next, more)
  {
    ghost var open, byView := window.events, reference.byView;
    window.Append(event);
    if |window.events| >= w {
      next, more := CloseWindow(th, w, window, reference, latch, summaries, true, closed);
      LoopClose(th, w, closed, open, rest, all, byView, latch, summaries, reference.byView, next, more);
      closed' := closed + [open + [event]];
      current := new DriftWindow(window.index + 1);
    } else {
      LoopAppend(th, w, closed, open, rest, all, byView, latch, summaries);
      next, more, current, closed' := latch, summaries, window, closed;
    }
  }

  /** The window loop over the rows of one run. */
  method ReplayWindows(th: Thresholds, rows: seq<DriftRow>, process: DriftRow -> CycleEvent, w: nat)
    returns (summaries: seq<WindowSummary>)
    requires w > 0
    ensures summaries == Summaries(th, Windows(Replayed(rows, process), w), w)
  {
    ghost var all := Replayed(rows, process);
    ghost var closed: seq<seq<CycleEvent>> := [];
    var latch := INITIAL;
    var window := new DriftWindow(1);
    var reference := new RoiMaskReference();
    summaries := [];
    LoopStart(th, w, all);
    for i := 0 to |rows|
      invariant fresh(window) && fresh(reference) && window.index == |closed| + 1
      invariant LoopState(th, w, closed, window.events, all[i..], all, reference.byView, latch, summaries)
    {
      var event := process(rows[i]);
      assert all[i..][0] == event && all[i..][1..] == all[i + 1..];
      latch, summaries, window, closed := ProcessEvent(th, w, event, window, reference, latch, summaries, closed,
                                                       all[i..], all);
    }
    assert all[|rows|..] == [];
    LoopEnd(th, w, closed, window.events, all, reference.byView, latch, summaries);
    if window.events != [] {
      latch, summaries := CloseWindow(th, w, window, reference, latch, summaries, false, closed);
    }
  }

  /** The rows reached before `max_events` stops the loop. */
  method CutRows(rows: seq<DriftRow>, maxEvents: Option<int>) returns (processed: seq<DriftRow>)
    ensures processed == CutAt(rows, maxEvents)
  {
    var i := 0;
    processed := [];
    while i < |rows| && (maxEvents.None? || i < maxEvents.value)
      invariant i <= |rows| && processed == rows[..i]
      invariant maxEvents.Some? ==> i <= AtLeastZero(maxEvents.value)
    {
      processed := processed + [rows[i]];
      i := i + 1;
    }
  }

  method RunObservation(th: Thresholds, args: Args, allRows: seq<DriftRow>, process: DriftRow -> CycleEvent)
    returns (r: Outcome)
    ensures r == Observation(th, args, allRows, process)
  {
    if args.windowSize <= 0 { return WindowSizeNotPositive; }
    match SelectRows(allRows, args.stableReferenceEvents, args.driftObservationWindows, args.windowSize)
    case NoP4Selected => return NoP4RowsSelected;
    case Selected(rows) =>
      var processed := CutRows(rows, args.maxEvents);
      var windows := ReplayWindows(th, processed, process, args.windowSize);
      r := Observed(Summarise(windows, processed));
  }
}
