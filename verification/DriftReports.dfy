/** What a drift observation reports, read off its events (scripts/run_drift_observation_replay.py and
    scripts/run_monitoring.py): the rates of a window, its status, and the summary of the run. */
module DriftReports {
  import opened ReplayEvents
  import opened Sorting
  import opened Groups
  import opened OrderStatistics
  import opened DriftRows
  import opened DriftLatch
  import opened RoiNovelty
  import opened DriftObservation
  import opened DriftRunner

  // ---------------------------------------------------------------------------- what the rates count

  ghost predicate IsRed(e: CycleEvent) { Lower(e.decision) == "red" }
  ghost predicate IsOrangeOrRed(e: CycleEvent) { Lower(e.decision) == "orange" || Lower(e.decision) == "red" }
  ghost predicate IsConforme(e: CycleEvent) { e.oracleVerdict == "conforme" }
  ghost predicate IsConformeRed(e: CycleEvent) { e.oracleVerdict == "conforme" && Lower(e.decision) == "red" }
  ghost predicate IsDefective(e: CycleEvent) { e.oracleVerdict == "defective" }
  ghost predicate IsDefectiveGreen(e: CycleEvent) { e.oracleVerdict == "defective" && Lower(e.decision) == "green" }
  ghost predicate HasFailedRoi(e: CycleEvent) { Lower(e.roiQualityStatus) == "fail" }
  ghost predicate InP4(e: CycleEvent) {
    e.scenarioPhase == "drift_piece_a_p4_suspected" || e.scenarioPhase == "drift_piece_a_p4_confirmed"
      || e.scenarioPhase == "correction_replay"
  }

  /** `rate` is the share of the events of one set in another one, 0 where that is empty. */
  ghost predicate Share(rate: real, part: set<nat>, whole: set<nat>) {
    if |whole| == 0 then rate == 0.0 else rate * |whole| as real == |part| as real
  }

  lemma RateIsShare<T(!new)>(xs: seq<T>, p: T -> bool, q: T -> bool)
    ensures Share(Rate(CountIf(xs, p), CountIf(xs, q)), Where(xs, p), Where(xs, q))
  {
    CountIsSize(xs, p);
    CountIsSize(xs, q);
    ShareOfSizes(CountIf(xs, p), CountIf(xs, q), Where(xs, p), Where(xs, q));
  }

  lemma ShareOfSizes(part: nat, total: nat, parts: set<nat>, whole: set<nat>)
    requires |parts| == part && |whole| == total
    ensures Share(Rate(part, total), parts, whole)
  {
    RateTimesTotal(part, total);
  }

  lemma RateTimesTotal(part: nat, total: nat)
    ensures total > 0 ==> Rate(part, total) * total as real == part as real
  {
  }

  ghost predicate Any(e: CycleEvent) { true }

  lemma RateOfAll(events: seq<CycleEvent>, p: CycleEvent -> bool)
    ensures Share(Rate(CountIf(events, p), |events|), Where(events, p), Where(events, Any))
  {
    CountIfUniform(events, Any, true);
    RateIsShare(events, p, Any);
  }

  lemma SameWhere(events: seq<CycleEvent>, p: CycleEvent -> bool, q: CycleEvent -> bool)
    requires forall e :: p(e) == q(e)
    ensures Where(events, p) == Where(events, q)
  {
  }

  /** What every rate of a window counts. */
  lemma RatesCount(th: Thresholds, byView: ByView, events: seq<CycleEvent>)
    ensures var m, all := WindowMetrics(th, byView, events), Where(events, Any);
      && m.windowEvents == |events| && m.contextEvents == |Where(events, InP4)|
      && Share(m.domainRatio, Where(events, InP4), all)
      && Share(m.alertRate, Where(events, IsOrangeOrRed), all)
      && Share(m.redRate, Where(events, IsRed), all)
      && Share(m.roiFailRate, Where(events, HasFailedRoi), all)
      && Share(m.unexpectedRedRate, Where(events, IsConformeRed), Where(events, IsConforme))
      && Share(m.oracleFnRate, Where(events, IsDefectiveGreen), Where(events, IsDefective))
  {
    CountIsSize(events, IsP4Event);
    RateOfAll(events, IsP4Event);
    SameWhere(events, IsP4Event, InP4);
    RateOfAll(events, Alarmed);
    SameWhere(events, Alarmed, IsOrangeOrRed);
    RateOfAll(events, Red);
    SameWhere(events, Red, IsRed);
    RateOfAll(events, RoiFailed);
    SameWhere(events, RoiFailed, HasFailedRoi);
    RateIsShare(events, UnexpectedRed, Conforming);
    SameWhere(events, UnexpectedRed, IsConformeRed);
    SameWhere(events, Conforming, IsConforme);
    RateIsShare(events, MissedDefect, DefectiveEvent);
    SameWhere(events, MissedDefect, IsDefectiveGreen);
    SameWhere(events, DefectiveEvent, IsDefective);
  }

  // ---------------------------------------------------------------------------- novelty

  /** Events with a mask that can be compared with a reference. */
  ghost function ComparedIn(byView: ByView): CycleEvent -> bool {
    (e: CycleEvent) => e.roiMask.Some? && ReferencesFor(byView, e.viewKey) != []
  }

  /** Events whose mask is at least this far from every reference it is compared with. */
  ghost predicate FarFromAll(byView: ByView, e: CycleEvent, distance: real) {
    && e.roiMask.Some? && ReferencesFor(byView, e.viewKey) != []
    && forall r :: r in ReferencesFor(byView, e.viewKey) ==> Jaccard(e.roiMask.value, r) >= distance
  }

  ghost function NewIn(byView: ByView, distance: real): CycleEvent -> bool {
    (e: CycleEvent) => FarFromAll(byView, e, distance)
  }

  lemma EventDistanceCounts(byView: ByView, e: CycleEvent, distance: real)
    ensures |EventDistance(byView, e)| == if ComparedIn(byView)(e) then 1 else 0
    ensures CountIf(EventDistance(byView, e), AtLeastAway(distance)) == if NewIn(byView, distance)(e) then 1 else 0
  {
    if ComparedIn(byView)(e) {
      var refs := ReferencesFor(byView, e.viewKey);
      NearestIsMinimum(e.roiMask.value, refs);
      assert EventDistance(byView, e) == [Nearest(e.roiMask.value, refs)];
      CountIfUniform(EventDistance(byView, e), AtLeastAway(distance), Nearest(e.roiMask.value, refs) >= distance);
    }
  }

  function AtLeastAway(distance: real): real -> bool { (d: real) => d >= distance }

  lemma {:induction false} DistancesCount(byView: ByView, events: seq<CycleEvent>, distance: real)
    ensures |Distances(byView, events)| == CountIf(events, ComparedIn(byView))
    ensures CountIf(Distances(byView, events), AtLeastAway(distance)) == CountIf(events, NewIn(byView, distance))
  {
    if events != [] {
      DistancesCount(byView, events[1..], distance);
      EventDistanceCounts(byView, events[0], distance);
      CountIfAppend(EventDistance(byView, events[0]), Distances(byView, events[1..]), AtLeastAway(distance));
    }
  }

  lemma SameCount(xs: seq<real>, distance: real)
    ensures CountIf(xs, d => d >= distance) == CountIf(xs, AtLeastAway(distance))
  {
    var p := (d: real) => d >= distance;
    CountIfImplies(xs, p, AtLeastAway(distance));
    CountIfImplies(xs, AtLeastAway(distance), p);
  }

  /** The novelty rate is the share of new masks among those compared; distance and area ratio are medians. */
  lemma NoveltyCounts(byView: ByView, events: seq<CycleEvent>, distance: real)
    ensures var m := MetricsOf(byView, events, distance);
      && Share(m.noveltyRate, Where(events, NewIn(byView, distance)), Where(events, ComparedIn(byView)))
      && m.areaRatio == (if events == [] then 0.0
                         else Median(seq(|events|, i requires 0 <= i < |events| => events[i].roiRatio)))
      && |Distances(byView, events)| == |Where(events, ComparedIn(byView))|
      && m.nnDistance == (if Distances(byView, events) == [] then 0.0 else Median(Distances(byView, events)))
  {
    DistancesCount(byView, events, distance);
    SameCount(Distances(byView, events), distance);
    CountIsSize(events, ComparedIn(byView));
    RateIsShare(events, NewIn(byView, distance), ComparedIn(byView));
    assert AreaRatios(events) == seq(|events|, i requires 0 <= i < |events| => events[i].roiRatio);
  }

  // ---------------------------------------------------------------------------- the references of a window

  lemma ConcatSnoc(ws: seq<seq<CycleEvent>>, window: seq<CycleEvent>)
    ensures Concat(ws + [window]) == Concat(ws) + window
    decreases |ws|
  {
    if ws == [] {
      assert Concat([window]) == window + Concat([]);
      assert [] + [window] == [window];
    } else {
      ConcatSnoc(ws[1..], window);
      assert (ws + [window])[1..] == ws[1..] + [window];
      assert ws[0] + (Concat(ws[1..]) + window) == (ws[0] + Concat(ws[1..])) + window;
    }
  }

  function MaskOfView(e: CycleEvent, view: string): seq<Mask> {
    if e.viewKey == view && e.roiMask.Some? then [e.roiMask.value] else []
  }

  lemma MasksCons(e: CycleEvent, rest: seq<CycleEvent>, view: string)
    ensures MasksOfView([e] + rest, view) == MaskOfView(e, view) + MasksOfView(rest, view)
  {
    assert ([e] + rest)[1..] == rest;
  }

  lemma {:induction false} MasksAppend(a: seq<CycleEvent>, b: seq<CycleEvent>, view: string)
    ensures MasksOfView(a + b, view) == MasksOfView(a, view) + MasksOfView(b, view)
  {
    if a == [] {
      assert a + b == b;
    } else {
      var e, rest := a[0], a[1..];
      calc {
        MasksOfView(a + b, view);
        { assert a + b == [e] + (rest + b); MasksCons(e, rest + b, view); }
        MaskOfView(e, view) + MasksOfView(rest + b, view);
        { MasksAppend(rest, b, view); }
        MaskOfView(e, view) + (MasksOfView(rest, view) + MasksOfView(b, view));
        (MaskOfView(e, view) + MasksOfView(rest, view)) + MasksOfView(b, view);
        { assert a == [e] + rest; MasksCons(e, rest, view); }
        MasksOfView(a, view) + MasksOfView(b, view);
      }
    }
  }

  /** A window is compared with the masks of the events outside P4 of all windows before it, view by view, in order. */
  lemma {:induction false} ReferencesHold(ws: seq<seq<CycleEvent>>, view: string)
    ensures Lookup(References(ws), view) == MasksOfView(Filter(Concat(ws), IsOutsideP4), view)
  {
    if ws != [] {
      var front, last := ws[..|ws| - 1], ws[|ws| - 1];
      ReferencesHold(front, view);
      StoreContents(References(front), Filter(last, IsOutsideP4), view);
      assert ws == front + [last];
      ConcatSnoc(front, last);
      FilterAppend(Concat(front), last, IsOutsideP4);
      MasksAppend(Filter(Concat(front), IsOutsideP4), Filter(last, IsOutsideP4), view);
    }
  }

  // ---------------------------------------------------------------------------- the status of a window

  /** Enough events, and new masks or P4 events beyond their thresholds. */
  ghost predicate LooksSuspicious(th: Thresholds, m: DriftMetrics) {
    m.windowEvents >= th.minWindowEvents && (m.noveltyRate >= th.novelty || m.domainRatio >= th.domain)
  }

  ghost predicate LooksDegraded(th: Thresholds, m: DriftMetrics) {
    || m.alertRate >= th.alert || m.redRate >= th.red || m.unexpectedRedRate >= th.unexpectedRed
    || m.roiFailRate >= th.roiFail || m.oracleFnRate >= th.oracleFn
  }

  /** Enough events, all of P4, whose masks are new and far from the references or of unusual area. */
  ghost predicate LooksNew(th: Thresholds, m: DriftMetrics) {
    && m.windowEvents >= th.minWindowEvents && 0 < m.windowEvents <= m.contextEvents
    && m.noveltyRate >= th.novelty && (m.nnDistance >= th.nnDistance || m.areaRatio >= th.area)
  }

  /** Enough events, mostly of P4, and at least one degraded rate. */
  ghost predicate LooksDrifted(th: Thresholds, m: DriftMetrics) {
    && m.windowEvents >= th.minWindowEvents && m.domainRatio >= th.domain && m.domainRatio >= 0.8
    && LooksDegraded(th, m)
  }

  /** Windows a to j look drifted, at least `confirm_windows` of them. */
  ghost predicate DriftedSince(th: Thresholds, ms: seq<DriftMetrics>, a: nat, j: nat)
    requires j < |ms|
  {
    a <= j && j + 1 - a >= th.confirmWindows && forall k :: a <= k <= j ==> LooksDrifted(th, ms[k])
  }

  /** What confirms drift at a window, told by its metrics and those before it. */
  lemma TriggerExactly(th: Thresholds, ms: seq<DriftMetrics>, j: nat)
    requires j < |ms|
    ensures Trigger(th, ms, j) <==> LooksNew(th, ms[j]) || exists a: nat :: DriftedSince(th, ms, a, j)
  {
    if LegacyRun(th, ms, j) {
      var a := j + 1 - VotesNeeded(th);
      forall k | a <= k <= j ensures LooksDrifted(th, ms[k]) { assert LegacyVote(th, ms[k]); }
      assert DriftedSince(th, ms, a, j);
    }
    if a: nat :| DriftedSince(th, ms, a, j) {
      forall k | j - VotesNeeded(th) < k <= j ensures LegacyVote(th, ms[k]) { assert LooksDrifted(th, ms[k]); }
    }
  }

  /** The status of a window without the latch: confirmed when it or an earlier window triggered, otherwise suspected
      exactly when it looks suspicious itself. */
  lemma StatusExactly(th: Thresholds, ms: seq<DriftMetrics>, k: nat)
    requires k < |ms| && AllConsistent(ms)
    ensures var triggered := exists j :: 0 <= j <= k && Trigger(th, ms, j);
      && Report(th, ms, k).suspected == LooksSuspicious(th, ms[k])
      && Report(th, ms, k).status
         == if triggered then Confirmed else if LooksSuspicious(th, ms[k]) then Suspected else Clear
  {
    ConfirmedIffTriggered(th, ms, k);
  }

  /** The same for the windows of an observation, whose reports are numbered from 1 and marked complete when full. */
  lemma ReportedWindow(th: Thresholds, ws: seq<seq<CycleEvent>>, w: nat, k: nat)
    requires k < |ws|
    ensures var report, m := Summaries(th, ws, w)[k], WindowMetrics(th, References(ws[..k]), ws[k]);
      && report.index == k + 1 && report.metrics == m && (report.complete <==> |ws[k]| >= w)
      && report.evaluation.suspected == LooksSuspicious(th, m)
      && (report.evaluation.status == Confirmed <==> exists j :: 0 <= j <= k && Trigger(th, AllMetrics(th, ws), j))
      && (report.evaluation.status == Clear
          <==> !LooksSuspicious(th, m) && forall j :: 0 <= j <= k ==> !Trigger(th, AllMetrics(th, ws), j))
      && 0.0 <= report.driftScore <= 1.0
      && (PositiveThresholds(th) ==>
            (report.driftScore == 1.0
             <==> RoiSignals(th, m) || (RoiScore(th, m) == 0.0 && m.domainRatio >= th.domain && Degraded(th, m))))
  {
    AllMetricsConsistent(th, ws);
    StatusExactly(th, AllMetrics(th, ws), k);
    ScoreRange(th, WindowMetrics(th, References(ws[..k]), ws[k]));
    if PositiveThresholds(th) { FullScoreIff(th, WindowMetrics(th, References(ws[..k]), ws[k])); }
  }

  /** A window with too few events is clear as long as nothing was confirmed before it. */
  lemma ShortWindowIsClear(th: Thresholds, ws: seq<seq<CycleEvent>>, w: nat, k: nat)
    requires k < |ws| && |ws[k]| < th.minWindowEvents
    requires forall j :: 0 <= j < k ==> !Trigger(th, AllMetrics(th, ws), j)
    ensures Summaries(th, ws, w)[k].evaluation.status == Clear
  {
    ReportedWindow(th, ws, w, k);
    var ms := AllMetrics(th, ws);
    assert ms[k].windowEvents == |ws[k]|;
    assert !RoiCritical(th, ms[k]) && !LegacyVote(th, ms[k]);
    assert !Trigger(th, ms, k);
  }

  /** A window of enough events that are all P4 is at least suspected, whatever inference answers. */
  lemma FullP4WindowIsSuspected(th: Thresholds, ws: seq<seq<CycleEvent>>, w: nat, k: nat)
    requires k < |ws| && ws[k] != [] && |ws[k]| >= th.minWindowEvents && th.domain <= 1.0
    requires forall e :: e in ws[k] ==> InP4(e)
    ensures Summaries(th, ws, w)[k].evaluation.suspected
    ensures Summaries(th, ws, w)[k].evaluation.status != Clear
  {
    ReportedWindow(th, ws, w, k);
    CountIfUniform(ws[k], IsP4Event, true);
    RateTimesTotal(|ws[k]|, |ws[k]|);
    FullRate(|ws[k]|);
  }

  // ---------------------------------------------------------------------------- calm observations

  /** Every mask of the window equals a reference it is compared with, or has none to be compared with. */
  ghost predicate Known(byView: ByView, events: seq<CycleEvent>) {
    forall e :: e in events && e.roiMask.Some? && ReferencesFor(byView, e.viewKey) != [] ==>
      e.roiMask.value in ReferencesFor(byView, e.viewKey)
  }

  lemma {:induction false} KnownAreNear(byView: ByView, events: seq<CycleEvent>)
    requires Known(byView, events)
    ensures forall d :: d in Distances(byView, events) ==> d == 0.0
  {
    if events != [] {
      assert forall e :: e in events[1..] ==> e in events;
      KnownAreNear(byView, events[1..]);
      var e := events[0];
      if ComparedIn(byView)(e) { NearestZeroIffKnown(e.roiMask.value, ReferencesFor(byView, e.viewKey)); }
    }
  }

  lemma CalmWindow(th: Thresholds, byView: ByView, events: seq<CycleEvent>)
    requires th.novelty > 0.0 && th.domain > 0.0 && th.nnDistance > 0.0
    requires Known(byView, events) && forall e :: e in events ==> !InP4(e)
    ensures var m := WindowMetrics(th, byView, events); m.noveltyRate == 0.0 && m.domainRatio == 0.0
  {
    KnownAreNear(byView, events);
    var distances := Distances(byView, events);
    CountIfUniform(distances, d => d >= th.nnDistance, false);
    assert forall e :: e in events ==> !IsP4Event(e);
    CountIfUniform(events, IsP4Event, false);
    NoShare(|events|);
  }

  lemma CalmNeverTriggers(th: Thresholds, ws: seq<seq<CycleEvent>>, j: nat)
    requires th.novelty > 0.0 && th.domain > 0.0 && th.nnDistance > 0.0 && j < |ws|
    requires Known(References(ws[..j]), ws[j]) && forall e :: e in ws[j] ==> !InP4(e)
    ensures !Trigger(th, AllMetrics(th, ws), j) && !LooksSuspicious(th, AllMetrics(th, ws)[j])
  {
    CalmWindow(th, References(ws[..j]), ws[j]);
    var ms := AllMetrics(th, ws);
    assert !RoiCritical(th, ms[j]) && !LegacyVote(th, ms[j]);
  }

  lemma CalmWindows(th: Thresholds, ws: seq<seq<CycleEvent>>, w: nat, k: nat)
    requires th.novelty > 0.0 && th.domain > 0.0 && th.nnDistance > 0.0 && k < |ws|
    requires forall j :: 0 <= j < |ws| ==> Known(References(ws[..j]), ws[j]) && forall e :: e in ws[j] ==> !InP4(e)
    ensures Summaries(th, ws, w)[k].evaluation.status == Clear && !Summaries(th, ws, w)[k].evaluation.suspected
    ensures !Summaries(th, ws, w)[k].evaluation.confirmed
  {
    forall j | 0 <= j <= k ensures !Trigger(th, AllMetrics(th, ws), j) { CalmNeverTriggers(th, ws, j); }
    CalmNeverTriggers(th, ws, k);
    ReportedWindow(th, ws, w, k);
    ConfirmedWindow(th, ws, w, k);
  }

  lemma {:induction false} AllClear(windows: seq<WindowSummary>, fallback: Status)
    requires fallback == Clear && forall k :: 0 <= k < |windows| ==> windows[k].evaluation.status == Clear
    ensures LastCompleteStatus(windows, fallback) == Clear
  {
    if windows != [] { AllClear(windows[..|windows| - 1], fallback); }
  }

  function WindowsOf(args: Args, allRows: seq<DriftRow>, process: DriftRow -> CycleEvent): seq<seq<CycleEvent>>
    requires args.windowSize > 0
    requires SelectRows(allRows, args.stableReferenceEvents, args.driftObservationWindows, args.windowSize).Selected?
  {
    Windows(Replayed(ProcessedRows(args, allRows), process), args.windowSize)
  }

  lemma ObservationIs(th: Thresholds, args: Args, allRows: seq<DriftRow>, process: DriftRow -> CycleEvent)
    requires Observation(th, args, allRows, process).Observed?
    ensures args.windowSize > 0
    ensures SelectRows(allRows, args.stableReferenceEvents, args.driftObservationWindows, args.windowSize).Selected?
    ensures Observation(th, args, allRows, process).summary
      == Summarise(Summaries(th, WindowsOf(args, allRows, process), args.windowSize), ProcessedRows(args, allRows))
  {
  }

  lemma ClearSummary(windows: seq<WindowSummary>, processed: seq<DriftRow>)
    requires forall k :: 0 <= k < |windows| ==> windows[k].evaluation.status == Clear
    requires forall k :: 0 <= k < |windows| ==> !windows[k].evaluation.suspected && !windows[k].evaluation.confirmed
    ensures var s := Summarise(windows, processed);
      !s.everSuspected && !s.everConfirmed && s.firstConfirmedWindowIndex == None && s.driftStatus == Clear
  {
    FirstConfirmedExists(windows);
    AllClear(windows, FinalStatus(windows));
  }

  /** No event of P4, and no mask that its window could find new. */
  ghost predicate Calm(ws: seq<seq<CycleEvent>>) {
    forall j :: 0 <= j < |ws| ==> Known(References(ws[..j]), ws[j]) && forall e :: e in ws[j] ==> !InP4(e)
  }

  /** An observation without P4 events and without new masks: every window is clear, and so is the run. */
  lemma CalmObservation(th: Thresholds, args: Args, allRows: seq<DriftRow>, process: DriftRow -> CycleEvent)
    requires Observation(th, args, allRows, process).Observed?
    requires th.novelty > 0.0 && th.domain > 0.0 && th.nnDistance > 0.0 && Calm(WindowsOf(args, allRows, process))
    ensures var s := Observation(th, args, allRows, process).summary;
      && (forall k :: 0 <= k < |s.windows| ==> s.windows[k].evaluation.status == Clear)
      && !s.everSuspected && !s.everConfirmed && s.firstConfirmedWindowIndex == None && s.driftStatus == Clear
  {
    var ws, w: nat := WindowsOf(args, allRows, process), args.windowSize;
    ObservationIs(th, args, allRows, process);
    forall k | 0 <= k < |ws|
      ensures var e := Summaries(th, ws, w)[k].evaluation; e.status == Clear && !e.suspected && !e.confirmed
    {
      CalmWindows(th, ws, w, k);
    }
    ClearSummary(Summaries(th, ws, w), ProcessedRows(args, allRows));
  }

  lemma OneMaskAppended(byView: ByView, view: string, usual: Mask)
    requires forall r :: r in Flatten(byView) ==> r == usual
    ensures forall r :: r in Flatten(Append(byView, view, usual)) ==> r == usual
  {
    var before, after := Flatten(byView), Flatten(Append(byView, view, usual));
    LookupAppend(byView, view, usual, view);
    assert multiset(after) == multiset(before) + multiset{usual};
    forall r | r in after ensures r == usual {
      assert multiset(after)[r] > 0;
      assert multiset(before)[r] > 0 || r == usual;
      assert multiset(before)[r] > 0 ==> r in before;
    }
  }

  lemma {:induction false} OneMaskStored(byView: ByView, events: seq<CycleEvent>, usual: Mask)
    requires forall r :: r in Flatten(byView) ==> r == usual
    requires forall e :: e in events && e.roiMask.Some? ==> e.roiMask.value == usual
    ensures forall r :: r in Flatten(AddAll(byView, events)) ==> r == usual
    decreases |events|
  {
    if events != [] {
      var e := events[0];
      assert forall x :: x in events[1..] ==> x in events;
      if e.roiMask.Some? {
        OneMaskAppended(byView, e.viewKey, usual);
        OneMaskStored(Append(byView, e.viewKey, usual), events[1..], usual);
      } else {
        OneMaskStored(byView, events[1..], usual);
      }
    }
  }

  lemma {:induction false} OneMaskReferences(ws: seq<seq<CycleEvent>>, usual: Mask)
    requires forall k :: 0 <= k < |ws| ==> forall e :: e in ws[k] && e.roiMask.Some? ==> e.roiMask.value == usual
    ensures forall r :: r in Flatten(References(ws)) ==> r == usual
  {
    if ws != [] {
      OneMaskReferences(ws[..|ws| - 1], usual);
      OneMaskStored(References(ws[..|ws| - 1]), Filter(ws[|ws| - 1], IsOutsideP4), usual);
    }
  }

  lemma {:induction false} LookupInFlatten(byView: ByView, view: string)
    ensures forall r :: r in Lookup(byView, view) ==> r in Flatten(byView)
  {
    if byView != [] { LookupInFlatten(byView[1..], view); }
  }

  /** Pieces that all look alike are calm: when every mask is the same and no event is of P4, nothing is suspected. */
  lemma UnchangedMasksAreCalm(ws: seq<seq<CycleEvent>>, usual: Mask)
    requires forall k :: 0 <= k < |ws| ==>
      forall e :: e in ws[k] ==> !InP4(e) && (e.roiMask.Some? ==> e.roiMask.value == usual)
    ensures Calm(ws)
  {
    forall j | 0 <= j < |ws| ensures Known(References(ws[..j]), ws[j]) {
      OneMaskReferences(ws[..j], usual);
      forall e | e in ws[j] && e.roiMask.Some? && ReferencesFor(References(ws[..j]), e.viewKey) != []
        ensures e.roiMask.value in ReferencesFor(References(ws[..j]), e.viewKey)
      {
        var refs := ReferencesFor(References(ws[..j]), e.viewKey);
        LookupInFlatten(References(ws[..j]), e.viewKey);
        assert refs[0] in refs;
      }
    }
  }

  // ---------------------------------------------------------------------------- the summary of a run

  /** The summary of every observation: suspected at some time exactly when a complete window looked suspicious; without
      a confirmation the status is that of the last complete window; the context rows are the P4 rows that were
      processed, in order. */
  lemma SummaryExactly(th: Thresholds, args: Args, allRows: seq<DriftRow>, process: DriftRow -> CycleEvent)
    requires Observation(th, args, allRows, process).Observed?
    ensures var ws, rows := WindowsOf(args, allRows, process), ProcessedRows(args, allRows);
      SummarisesRun(th, ws, args.windowSize, rows, Observation(th, args, allRows, process).summary)
  {
    var ws, w: nat := WindowsOf(args, allRows, process), args.windowSize;
    ObservationIs(th, args, allRows, process);
    SummarySummarises(th, ws, Replayed(ProcessedRows(args, allRows), process), w, ProcessedRows(args, allRows));
  }

  ghost predicate SummarisesRun(th: Thresholds, ws: seq<seq<CycleEvent>>, w: nat, rows: seq<DriftRow>,
                                s: ObservationSummary) {
    && |s.windows| == |ws|
    && (s.everSuspected <==>
          exists k :: 0 <= k < |ws| && |ws[k]| >= w
            && LooksSuspicious(th, WindowMetrics(th, References(ws[..k]), ws[k])))
    && (!s.everConfirmed && ws != [] && |ws[0]| >= w ==>
          exists k: nat :: IsLastComplete(ws, w, k)
            && s.driftStatus == if LooksSuspicious(th, WindowMetrics(th, References(ws[..k]), ws[k])) then Suspected
               else Clear)
    && s.contextRows == Filter(rows, IsP4Row)
  }

  lemma SummarySummarises(th: Thresholds, ws: seq<seq<CycleEvent>>, events: seq<CycleEvent>, w: nat,
                          rows: seq<DriftRow>)
    requires w > 0 && ws == Windows(events, w)
    ensures SummarisesRun(th, ws, w, rows, Summarise(Summaries(th, ws, w), rows))
  {
    EverSuspectedIff(th, ws, w, rows);
    if !Summarise(Summaries(th, ws, w), rows).everConfirmed && ws != [] && |ws[0]| >= w {
      var k := UnconfirmedStatus(th, ws, events, w, Summaries(th, ws, w));
    }
  }

  ghost predicate IsLastComplete(ws: seq<seq<CycleEvent>>, w: nat, k: nat) {
    k < |ws| && |ws[k]| >= w && forall j :: k < j < |ws| ==> |ws[j]| < w
  }

  lemma EverSuspectedIff(th: Thresholds, ws: seq<seq<CycleEvent>>, w: nat, rows: seq<DriftRow>)
    ensures Summarise(Summaries(th, ws, w), rows).everSuspected <==>
      exists k :: 0 <= k < |ws| && |ws[k]| >= w && LooksSuspicious(th, WindowMetrics(th, References(ws[..k]), ws[k]))
  {
    var windows := Summaries(th, ws, w);
    forall k | 0 <= k < |ws|
      ensures windows[k].complete == (|ws[k]| >= w)
      ensures windows[k].evaluation.suspected == LooksSuspicious(th, WindowMetrics(th, References(ws[..k]), ws[k]))
    {
      ReportedWindow(th, ws, w, k);
    }
  }

  lemma UnconfirmedStatus(th: Thresholds, ws: seq<seq<CycleEvent>>, events: seq<CycleEvent>, w: nat,
                          windows: seq<WindowSummary>)
    returns (k: nat)
    requires w > 0 && ws == Windows(events, w) && ws != [] && |ws[0]| >= w && windows == Summaries(th, ws, w)
    requires forall k :: 0 <= k < |windows| && windows[k].complete ==> !windows[k].evaluation.confirmed
    ensures IsLastComplete(ws, w, k)
    ensures LastCompleteStatus(windows, FinalStatus(windows))
      == if LooksSuspicious(th, WindowMetrics(th, References(ws[..k]), ws[k])) then Suspected else Clear
  {
    WindowsPartition(events, w);
    ReportsStatus(th, ws, w);
    LastCompleteOfWindows(windows, FinalStatus(windows));
    k := if |ws[|ws| - 1]| >= w then |ws| - 1 else |ws| - 2;
    ReportedWindow(th, ws, w, k);
    assert windows[k].complete;
  }
}
