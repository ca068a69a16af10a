/** The drift observation run: which rows it replays, how they fall into windows, and what the windows
    report (scripts/run_drift_observation_replay.py). */
module DriftObservation {
  import opened ReplayEvents
  import opened Sorting
  import opened DriftRows
  import opened DriftLatch
  import opened RoiNovelty
  import SpreadSampling
  import opened Arithmetic

  // ---------------------------------------------------------------------------- row selection

  /** `xs[:n]` for a non-negative n */
  function Take<T>(xs: seq<T>, n: nat): seq<T> {
    if n <= |xs| then xs[..n] else xs
  }

  /** `xs[a : a + n]` */
  function Slice<T>(xs: seq<T>, a: nat, n: nat): seq<T> {
    if a <= |xs| then Take(xs[a..], n) else []
  }

  function AtLeastZero(n: int): nat { if n < 0 then 0 else n }

  /** `max(1, int(round(window_size * 0.20)))` */
  function MixedP4Count(w: nat): nat {
    var rounded := SpreadSampling.RoundHalfEven(w, 5);
    if rounded < 1 then 1 else rounded
  }

  datatype Selection = Selected(rows: seq<DriftRow>) | NoP4Selected

  function StableRows(rows: seq<DriftRow>): seq<DriftRow> { Filter(rows, IsStableRow) }

  function P4Rows(rows: seq<DriftRow>): seq<DriftRow> { Filter(rows, IsP4Row) }

  /** The stable rows before the P4 rows: the reference windows, then the stable part of a mixed window. */
  function StablePart<T>(stable: seq<T>, reference: nat, mixed: nat): seq<T> {
    Take(stable, reference) + Slice(stable, |Take(stable, reference)|, mixed)
  }

  function P4Part<T>(p4: seq<T>, mixed: nat, confirmed: nat): seq<T> {
    Take(p4, mixed) + Slice(p4, mixed, confirmed)
  }

  /** The P4 rows of the windows after the mixed one. */
  function ConfirmedCount(driftWindows: int, w: nat): nat
    requires driftWindows >= 1
  {
    w * (driftWindows - 1)
  }

  function SelectedStable<T>(stable: seq<T>, stableEvents: nat, driftWindows: int, mixed: nat): seq<T> {
    if driftWindows >= 2 then StablePart(stable, stableEvents, mixed) else Take(stable, stableEvents)
  }

  function SelectedP4<T>(p4: seq<T>, driftWindows: int, w: nat, mixed: nat): seq<T> {
    if driftWindows <= 0 then p4
    else if driftWindows >= 2 then P4Part(p4, mixed, ConfirmedCount(driftWindows, w))
    else Take(p4, driftWindows * w)
  }

  function Chosen(stable: seq<DriftRow>, p4: seq<DriftRow>): Selection {
    if p4 == [] then NoP4Selected else Selected(stable + p4)
  }

  /** `_select_observation_rows` */
  function SelectRows(rows: seq<DriftRow>, stableEvents: int, driftWindows: int, w: nat): Selection {
    if stableEvents <= 0 && driftWindows <= 0 then Selected(rows)
    else
      Chosen(SelectedStable(StableRows(rows), AtLeastZero(stableEvents), driftWindows,
                            AtLeastZero(w - MixedP4Count(w))),
             SelectedP4(P4Rows(rows), driftWindows, w, MixedP4Count(w)))
  }

  lemma TakeThenSlice<T>(xs: seq<T>, a: nat, n: nat)
    ensures StablePart(xs, a, n) == Take(xs, a + n)
    ensures P4Part(xs, a, n) == Take(xs, a + n)
  {
  }

  /** A mixed window is mostly stable rows: fewer than four fifths of it are P4, except in windows of one. */
  lemma MixedWindowShare(w: nat)
    requires w >= 1
    ensures 1 <= MixedP4Count(w) <= w
    ensures 10 * MixedP4Count(w) < 8 * w <==> w >= 2
  {
    SpreadSampling.RoundingError(w, 5);
  }

  /** How many stable rows, and how many P4 rows, a short observation asks for. */
  function AskedStable(stableEvents: int, driftWindows: int, w: nat): nat {
    AtLeastZero(stableEvents) + if driftWindows >= 2 then AtLeastZero(w - MixedP4Count(w)) else 0
  }

  function AskedP4(available: nat, driftWindows: int, w: nat): nat {
    if driftWindows <= 0 then available
    else if driftWindows >= 2 then MixedP4Count(w) + ConfirmedCount(driftWindows, w)
    else driftWindows * w
  }

  lemma SelectedStableIsPrefix<T>(stable: seq<T>, stableEvents: nat, driftWindows: int, mixed: nat)
    ensures SelectedStable(stable, stableEvents, driftWindows, mixed)
      == Take(stable, stableEvents + if driftWindows >= 2 then mixed else 0)
  {
    TakeThenSlice(stable, stableEvents, mixed);
  }

  lemma SelectedP4IsPrefix<T>(p4: seq<T>, driftWindows: int, w: nat, mixed: nat)
    ensures SelectedP4(p4, driftWindows, w, mixed)
      == Take(p4, if driftWindows <= 0 then |p4| else if driftWindows >= 2 then mixed + ConfirmedCount(driftWindows, w)
              else driftWindows * w)
  {
    if driftWindows >= 2 { TakeThenSlice(p4, mixed, ConfirmedCount(driftWindows, w)); }
  }

  /** A short observation replays the first stable rows of the plan, then its first P4 rows; it fails exactly
      when it would replay no P4 row. */
  lemma SelectionIsTwoRuns(rows: seq<DriftRow>, stableEvents: int, driftWindows: int, w: nat)
    requires stableEvents > 0 || driftWindows > 0
    ensures SelectRows(rows, stableEvents, driftWindows, w)
      == Chosen(Take(StableRows(rows), AskedStable(stableEvents, driftWindows, w)),
                Take(P4Rows(rows), AskedP4(|P4Rows(rows)|, driftWindows, w)))
  {
    var stable, p4, mixed := StableRows(rows), P4Rows(rows), MixedP4Count(w);
    assert SelectedStable(stable, AtLeastZero(stableEvents), driftWindows, AtLeastZero(w - mixed))
      == Take(stable, AskedStable(stableEvents, driftWindows, w)) by {
      SelectedStableIsPrefix(stable, AtLeastZero(stableEvents), driftWindows, AtLeastZero(w - mixed));
    }
    assert SelectedP4(p4, driftWindows, w, mixed) == Take(p4, AskedP4(|p4|, driftWindows, w)) by {
      SelectedP4IsPrefix(p4, driftWindows, w, mixed);
    }
  }

  /** Enough stable rows for m pure windows and one mixed one, enough P4 rows for the rest. */
  predicate EnoughRows(rows: seq<DriftRow>, m: nat, d: nat, w: nat) {
    && |StableRows(rows)| >= AskedStable(m * w, d, w)
    && |P4Rows(rows)| >= AskedP4(|P4Rows(rows)|, d, w)
  }

  lemma AskedForWindows(m: nat, d: nat, w: nat, available: nat)
    requires d >= 2 && w >= 1
    ensures AskedStable(m * w, d, w) == m * w + w - MixedP4Count(w)
    ensures AskedStable(m * w, d, w) + AskedP4(available, d, w) == w * (m + d)
  {
    MixedWindowShare(w);
    assert m * w >= 0;
    assert w * (m + d) == m * w + w + ConfirmedCount(d, w);
  }

  lemma TakeLength<T>(xs: seq<T>, n: nat)
    ensures |Take(xs, n)| <= n && (|Take(xs, n)| == n <==> |xs| >= n)
  {
  }

  /** The selection fills exactly m + d windows if and only if there are enough rows. */
  lemma SelectionFillsWindowsIff(rows: seq<DriftRow>, m: nat, d: nat, w: nat)
    requires d >= 2 && w >= 1
    ensures var s := SelectRows(rows, m * w, d, w);
      s.Selected? && |s.rows| == w * (m + d) <==> EnoughRows(rows, m, d, w)
  {
    SelectionIsTwoRuns(rows, m * w, d, w);
    AskedForWindows(m, d, w, |P4Rows(rows)|);
    MixedWindowShare(w);
    TakeLength(StableRows(rows), AskedStable(m * w, d, w));
    TakeLength(P4Rows(rows), AskedP4(|P4Rows(rows)|, d, w));
  }

  /** The first `m` windows' worth of rows and the start of the next window are stable, the rest is P4. */
  ghost predicate TwoPhases(selected: seq<DriftRow>, boundary: nat) {
    forall i :: 0 <= i < |selected| ==> if i < boundary then IsStableRow(selected[i]) else IsP4Row(selected[i])
  }

  lemma TwoRunsTwoPhases(stable: seq<DriftRow>, p4: seq<DriftRow>, a: nat, b: nat)
    requires forall x :: x in stable ==> IsStableRow(x)
    requires forall x :: x in p4 ==> IsP4Row(x)
    requires |stable| >= a
    ensures TwoPhases(Take(stable, a) + Take(p4, b), a)
  {
  }

  lemma SelectionTwoPhases(rows: seq<DriftRow>, m: nat, d: nat, w: nat)
    requires d >= 2 && w >= 1 && EnoughRows(rows, m, d, w)
    ensures SelectRows(rows, m * w, d, w).Selected?
    ensures TwoPhases(SelectRows(rows, m * w, d, w).rows, AskedStable(m * w, d, w))
    ensures |SelectRows(rows, m * w, d, w).rows| == w * (m + d)
  {
    SelectionFillsWindowsIff(rows, m, d, w);
    SelectionIsTwoRuns(rows, m * w, d, w);
    TwoRunsTwoPhases(StableRows(rows), P4Rows(rows), AskedStable(m * w, d, w), AskedP4(|P4Rows(rows)|, d, w));
  }

  lemma TakeOnce<T>(xs: seq<T>, n: nat, x: T)
    ensures multiset(Take(xs, n))[x] <= multiset(xs)[x]
  {
    if n <= |xs| { assert xs == xs[..n] + xs[n..]; }
  }

  /** No row of the plan is replayed more often than it is listed. */
  lemma SelectionUsesRowsOnce(rows: seq<DriftRow>, stableEvents: int, driftWindows: int, w: nat, x: DriftRow)
    requires SelectRows(rows, stableEvents, driftWindows, w).Selected?
    ensures multiset(SelectRows(rows, stableEvents, driftWindows, w).rows)[x] <= multiset(rows)[x]
  {
    if stableEvents > 0 || driftWindows > 0 {
      SelectionIsTwoRuns(rows, stableEvents, driftWindows, w);
      TakeOnce(StableRows(rows), AskedStable(stableEvents, driftWindows, w), x);
      TakeOnce(P4Rows(rows), AskedP4(|P4Rows(rows)|, driftWindows, w), x);
      FilterPermutation(rows, IsStableRow, x);
      FilterPermutation(rows, IsP4Row, x);
      PhasesExclude(x);
    }
  }

  // ---------------------------------------------------------------------------- windows

  /** The replay cut into windows of w events; the last one may be shorter. */
  function Windows<T>(xs: seq<T>, w: nat): seq<seq<T>>
    requires w > 0
  {
    if xs == [] then []
    else if |xs| <= w then [xs]
    else [xs[..w]] + Windows(xs[w..], w)
  }

  function Concat<T>(xss: seq<seq<T>>): seq<T> {
    if xss == [] then [] else xss[0] + Concat(xss[1..])
  }

  /** Every event is in exactly one window, in order; no window is empty, only the last can be short. */
  lemma {:induction false} WindowsPartition<T>(xs: seq<T>, w: nat)
    requires w > 0
    ensures Concat(Windows(xs, w)) == xs
    ensures forall k :: 0 <= k < |Windows(xs, w)| ==> 0 < |Windows(xs, w)[k]| <= w
    ensures forall k :: 0 <= k < |Windows(xs, w)| - 1 ==> |Windows(xs, w)[k]| == w
  {
    if |xs| > w {
      WindowsPartition(xs[w..], w);
      assert Windows(xs, w)[1..] == Windows(xs[w..], w);
      assert xs == xs[..w] + xs[w..];
    }
  }

  lemma NextMultiple(k: nat, w: nat)
    ensures (k + 1) * w == k * w + w
  {
  }

  /** n full windows' worth of events make n full windows; window k starts at event k * w. */
  lemma {:induction false} FullWindows<T>(xs: seq<T>, w: nat, n: nat)
    requires w > 0 && |xs| == n * w
    ensures |Windows(xs, w)| == n
    ensures forall k :: 0 <= k < n ==> |Windows(xs, w)[k]| == w
    decreases n
  {
    if n > 0 {
      NextMultiple(n - 1, w);
      FullWindows(xs[w..], w, n - 1);
      if n == 1 { assert xs[w..] == []; } else { ScaledLe(1, n - 1, w); }
    }
  }

  /** Window k holds the events from position k * w on. */
  lemma {:induction false} WindowElement<T>(xs: seq<T>, w: nat, k: nat, i: nat)
    requires w > 0 && k < |Windows(xs, w)| && i < |Windows(xs, w)[k]|
    ensures k * w + i < |xs| && Windows(xs, w)[k][i] == xs[k * w + i]
    decreases k
  {
    if k > 0 {
      NextMultiple(k - 1, w);
      WindowElement(xs[w..], w, k - 1, i);
    }
  }

  // ---------------------------------------------------------------------------- window metrics

  predicate IsP4Event(e: CycleEvent) { IsP4Phase(e.scenarioPhase) }

  predicate IsOutsideP4(e: CycleEvent) { !IsP4Event(e) }

  predicate Red(e: CycleEvent) { Lower(e.decision) == "red" }

  predicate Alarmed(e: CycleEvent) { Lower(e.decision) == "orange" || Red(e) }

  predicate Conforming(e: CycleEvent) { e.oracleVerdict == CONFORME }

  predicate UnexpectedRed(e: CycleEvent) { Conforming(e) && Red(e) }

  predicate RoiFailed(e: CycleEvent) { Lower(e.roiQualityStatus) == "fail" }

  predicate DefectiveEvent(e: CycleEvent) { e.oracleVerdict == DEFECTIVE }

  predicate MissedDefect(e: CycleEvent) { DefectiveEvent(e) && Lower(e.decision) == "green" }

  function Rate(part: nat, total: nat): real {
    if total == 0 then 0.0 else part as real / total as real
  }

  /** `DriftWindow.metrics`, completed with the ROI metrics against the references seen so far. */
  function WindowMetrics(th: Thresholds, byView: ByView, events: seq<CycleEvent>): DriftMetrics {
    var roi := MetricsOf(byView, events, th.nnDistance);
    var p4, total := CountIf(events, IsP4Event), |events|;
    DriftMetrics(
      total, p4, Rate(p4, total), roi.nnDistance, roi.noveltyRate, roi.areaRatio,
      Rate(CountIf(events, Alarmed), total),
      Rate(CountIf(events, Red), total),
      Rate(CountIf(events, UnexpectedRed), CountIf(events, Conforming)),
      Rate(CountIf(events, RoiFailed), total),
      Rate(CountIf(events, MissedDefect), CountIf(events, DefectiveEvent)))
  }

  lemma WindowMetricsConsistent(th: Thresholds, byView: ByView, events: seq<CycleEvent>)
    ensures Consistent(WindowMetrics(th, byView, events))
  {
  }

  lemma RateInRange(part: nat, total: nat)
    requires part <= total
    ensures 0.0 <= Rate(part, total) <= 1.0
  {
    if total > 0 { FractionMonotone(part as real, total as real, total as real); }
  }

  /** Every rate of a window lies in [0, 1], those over conforming or defective events included, and red events
      are among the alarmed ones. */
  lemma WindowRates(th: Thresholds, byView: ByView, events: seq<CycleEvent>)
    ensures var m := WindowMetrics(th, byView, events);
      && 0.0 <= m.domainRatio <= 1.0 && 0.0 <= m.redRate <= m.alertRate <= 1.0 && 0.0 <= m.roiFailRate <= 1.0
      && 0.0 <= m.unexpectedRedRate <= 1.0 && 0.0 <= m.oracleFnRate <= 1.0
  {
    CountIfImplies(events, Red, Alarmed);
    CountIfImplies(events, UnexpectedRed, Conforming);
    CountIfImplies(events, MissedDefect, DefectiveEvent);
    RateInRange(CountIf(events, IsP4Event), |events|);
    RateInRange(CountIf(events, Alarmed), |events|);
    RateInRange(CountIf(events, Red), |events|);
    RateInRange(CountIf(events, RoiFailed), |events|);
    RateInRange(CountIf(events, UnexpectedRed), CountIf(events, Conforming));
    RateInRange(CountIf(events, MissedDefect), CountIf(events, DefectiveEvent));
    if events != [] {
      FractionMonotone(CountIf(events, Red) as real, CountIf(events, Alarmed) as real, |events| as real);
    }
  }

  /** The reference store after a list of windows: each adds its events outside P4. */
  function References(ws: seq<seq<CycleEvent>>): ByView {
    if ws == [] then [] else AddAll(References(ws[..|ws| - 1]), Filter(ws[|ws| - 1], IsOutsideP4))
  }

  function AllMetrics(th: Thresholds, ws: seq<seq<CycleEvent>>): seq<DriftMetrics> {
    seq(|ws|, k requires 0 <= k < |ws| => WindowMetrics(th, References(ws[..k]), ws[k]))
  }

  lemma AllMetricsConsistent(th: Thresholds, ws: seq<seq<CycleEvent>>)
    ensures AllConsistent(AllMetrics(th, ws))
  {
    forall k | 0 <= k < |ws| ensures Consistent(AllMetrics(th, ws)[k]) {
      WindowMetricsConsistent(th, References(ws[..k]), ws[k]);
    }
  }

  lemma ReferencesSnoc(ws: seq<seq<CycleEvent>>, window: seq<CycleEvent>)
    ensures References(ws + [window]) == AddAll(References(ws), Filter(window, IsOutsideP4))
  {
    assert (ws + [window])[..|ws|] == ws;
  }

  /** Drifted windows never become their own reference: from an all-P4 window on, the store stays put. */
  lemma {:induction false} ReferencesFreezeInDrift(ws: seq<seq<CycleEvent>>, from: nat, to: nat)
    requires from <= to <= |ws|
    requires forall k :: from <= k < to ==> forall e :: e in ws[k] ==> IsP4Event(e)
    ensures References(ws[..to]) == References(ws[..from])
  {
    if from < to {
      ReferencesFreezeInDrift(ws, from, to - 1);
      calc {
        References(ws[..to]);
        { assert ws[..to] == ws[..to - 1] + [ws[to - 1]]; ReferencesSnoc(ws[..to - 1], ws[to - 1]); }
        AddAll(References(ws[..to - 1]), Filter(ws[to - 1], IsOutsideP4));
        { FilterUniform(ws[to - 1], IsOutsideP4, false); }
        AddAll(References(ws[..to - 1]), []);
        References(ws[..to - 1]);
      }
    }
  }

  // ---------------------------------------------------------------------------- the run

  datatype WindowSummary = WindowSummary(index: nat, evaluation: Evaluation, metrics: DriftMetrics, driftScore: real,
                                         complete: bool)

  function SummaryAt(th: Thresholds, ws: seq<seq<CycleEvent>>, w: nat, k: nat): WindowSummary
    requires k < |ws|
  {
    var m := AllMetrics(th, ws)[k];
    WindowSummary(k + 1, Report(th, AllMetrics(th, ws), k), m, DriftScore(th, m), |ws[k]| >= w)
  }

  function Summaries(th: Thresholds, ws: seq<seq<CycleEvent>>, w: nat): seq<WindowSummary> {
    seq(|ws|, k requires 0 <= k < |ws| => SummaryAt(th, ws, w, k))
  }

  lemma MetricsStay(th: Thresholds, ws: seq<seq<CycleEvent>>, window: seq<CycleEvent>, k: nat)
    requires k < |ws|
    ensures AllMetrics(th, ws + [window])[k] == AllMetrics(th, ws)[k]
  {
    assert (ws + [window])[..k] == ws[..k] && (ws + [window])[k] == ws[k];
  }

  lemma MetricsPrefix(th: Thresholds, ws: seq<seq<CycleEvent>>, window: seq<CycleEvent>)
    ensures AllMetrics(th, ws + [window]) == AllMetrics(th, ws) + [WindowMetrics(th, References(ws), window)]
  {
    var before, after := AllMetrics(th, ws), AllMetrics(th, ws + [window]);
    forall k | 0 <= k < |ws| ensures after[k] == before[k] { MetricsStay(th, ws, window, k); }
    assert (ws + [window])[..|ws|] == ws;
    assert after[|ws|] == WindowMetrics(th, References(ws), window);
  }

  /** Later windows do not change what earlier ones reported. */
  lemma SummaryStays(th: Thresholds, ws: seq<seq<CycleEvent>>, w: nat, window: seq<CycleEvent>, k: nat)
    requires k < |ws|
    ensures SummaryAt(th, ws + [window], w, k) == SummaryAt(th, ws, w, k)
  {
    MetricsPrefix(th, ws, window);
    var ms := AllMetrics(th, ws);
    assert (ms + [WindowMetrics(th, References(ws), window)])[..k] == ms[..k];
  }

  function NextEvaluation(th: Thresholds, ws: seq<seq<CycleEvent>>, window: seq<CycleEvent>): Evaluation {
    FinalizeWindow(th, WindowMetrics(th, References(ws), window), FinalLatch(th, AllMetrics(th, ws)))
  }

  lemma SummaryOfLast(th: Thresholds, ws: seq<seq<CycleEvent>>, w: nat, window: seq<CycleEvent>)
    ensures var m := WindowMetrics(th, References(ws), window);
      SummaryAt(th, ws + [window], w, |ws|)
        == WindowSummary(|ws| + 1, NextEvaluation(th, ws, window), m, DriftScore(th, m), |window| >= w)
  {
    MetricsPrefix(th, ws, window);
    var ms := AllMetrics(th, ws);
    assert (ms + [WindowMetrics(th, References(ws), window)])[..|ws|] == ms;
  }

  lemma SummariesGrow(th: Thresholds, ws: seq<seq<CycleEvent>>, w: nat, window: seq<CycleEvent>)
    ensures Summaries(th, ws + [window], w) == Summaries(th, ws, w) + [SummaryAt(th, ws + [window], w, |ws|)]
  {
    forall k | 0 <= k < |ws| ensures SummaryAt(th, ws + [window], w, k) == SummaryAt(th, ws, w, k) {
      SummaryStays(th, ws, w, window, k);
    }
  }

  lemma StateGrows(th: Thresholds, ws: seq<seq<CycleEvent>>, window: seq<CycleEvent>)
    ensures FinalLatch(th, AllMetrics(th, ws + [window]))
      == LatchAfter(NextEvaluation(th, ws, window), FinalLatch(th, AllMetrics(th, ws)))
    ensures References(ws + [window]) == AddAll(References(ws), Filter(window, IsOutsideP4))
  {
    MetricsPrefix(th, ws, window);
    var ms := AllMetrics(th, ws);
    assert (ms + [WindowMetrics(th, References(ws), window)])[..|ms|] == ms;
    assert (ws + [window])[..|ws|] == ws;
  }

  function FirstConfirmed(summaries: seq<WindowSummary>): Option<nat> {
    if summaries == [] then None
    else if summaries[0].complete && summaries[0].evaluation.confirmed then Some(summaries[0].index)
    else FirstConfirmed(summaries[1..])
  }

  /** The first window of the run that is complete and a trigger. */
  ghost predicate IsFirstTrigger(th: Thresholds, ws: seq<seq<CycleEvent>>, w: nat, first: Option<nat>) {
    var ms := AllMetrics(th, ws);
    match first
    case Some(i) =>
      && 1 <= i <= |ws| && |ws[i - 1]| >= w && Trigger(th, ms, i - 1)
      && forall j :: 0 <= j < i - 1 ==> !Trigger(th, ms, j)
    case None => forall j :: 0 <= j < |ws| && |ws[j]| >= w ==> !Trigger(th, ms, j)
  }

  lemma ConfirmedWindow(th: Thresholds, ws: seq<seq<CycleEvent>>, w: nat, k: nat)
    requires k < |ws|
    ensures Summaries(th, ws, w)[k].evaluation.confirmed
      <==> exists j :: 0 <= j <= k && Trigger(th, AllMetrics(th, ws), j)
  {
    AllMetricsConsistent(th, ws);
    ConfirmedIffTriggered(th, AllMetrics(th, ws), k);
  }

  lemma TriggerAt(th: Thresholds, ws: seq<seq<CycleEvent>>, w: nat, k: nat)
    requires k < |ws| && forall i :: 0 <= i < |ws| - 1 ==> |ws[i]| >= w
    requires forall j :: 0 <= j < k ==> |ws[j]| < w || !Trigger(th, AllMetrics(th, ws), j)
    requires |ws[k]| >= w && exists j :: 0 <= j <= k && Trigger(th, AllMetrics(th, ws), j)
    ensures IsFirstTrigger(th, ws, w, Some(k + 1))
  {
    assert forall j :: 0 <= j < k ==> |ws[j]| >= w;
  }

  lemma {:induction false} FirstConfirmedFrom(th: Thresholds, ws: seq<seq<CycleEvent>>, w: nat, k: nat)
    requires k <= |ws| && forall i :: 0 <= i < |ws| - 1 ==> |ws[i]| >= w
    requires forall j :: 0 <= j < k ==> |ws[j]| < w || !Trigger(th, AllMetrics(th, ws), j)
    ensures IsFirstTrigger(th, ws, w, FirstConfirmed(Summaries(th, ws, w)[k..]))
    decreases |ws| - k
  {
    if k < |ws| {
      ConfirmedWindow(th, ws, w, k);
      var s := Summaries(th, ws, w);
      assert s[k..][0] == s[k] && s[k..][1..] == s[k + 1..];
      if s[k].complete && s[k].evaluation.confirmed {
        TriggerAt(th, ws, w, k);
      } else {
        FirstConfirmedFrom(th, ws, w, k + 1);
      }
    }
  }

  /** The index reported as `first_confirmed_window_index` is the first complete window that triggers, and none
      is reported exactly when no complete window triggers. */
  lemma FirstConfirmedIsFirstTrigger(th: Thresholds, events: seq<CycleEvent>, w: nat)
    requires w > 0
    ensures IsFirstTrigger(th, Windows(events, w), w, FirstConfirmed(Summaries(th, Windows(events, w), w)))
  {
    WindowsPartition(events, w);
    FirstConfirmedFrom(th, Windows(events, w), w, 0);
    var s := Summaries(th, Windows(events, w), w);
    assert s[0..] == s;
  }

  // ---------------------------------------------------------------------------- when drift can be confirmed

  function Replayed(rows: seq<DriftRow>, process: DriftRow -> CycleEvent): seq<CycleEvent> {
    seq(|rows|, i requires 0 <= i < |rows| => process(rows[i]))
  }

  /** Whatever inference decides, an event keeps the scenario phase of its row. */
  ghost predicate KeepsPhase(process: DriftRow -> CycleEvent) {
    forall row :: process(row).scenarioPhase == row.scenarioPhase
  }

  /** Events of a two-phase run, possibly cut short: outside P4 up to `boundary`, P4 from there on. */
  ghost predicate TwoPhaseEvents(events: seq<CycleEvent>, boundary: nat) {
    forall i :: 0 <= i < |events| ==> IsP4Event(events[i]) == (i >= boundary)
  }

  lemma PositionBelow(k: nat, w: nat, i: nat, boundary: nat)
    requires i < w && (k + 1) * w <= boundary
    ensures k * w + i < boundary
  {
    NextMultiple(k, w);
  }

  lemma PureElement(events: seq<CycleEvent>, boundary: nat, w: nat, k: nat, i: nat)
    requires w > 0 && TwoPhaseEvents(events, boundary) && k < |Windows(events, w)| && (k + 1) * w <= boundary
    requires i < |Windows(events, w)[k]|
    ensures IsOutsideP4(Windows(events, w)[k][i])
  {
    WindowsPartition(events, w);
    WindowElement(events, w, k, i);
    PositionBelow(k, w, i, boundary);
  }

  lemma PureWindow(events: seq<CycleEvent>, boundary: nat, w: nat, k: nat)
    requires w > 0 && TwoPhaseEvents(events, boundary) && k < |Windows(events, w)| && (k + 1) * w <= boundary
    ensures forall e :: e in Windows(events, w)[k] ==> IsOutsideP4(e)
    ensures CountIf(Windows(events, w)[k], IsP4Event) == 0
  {
    var window := Windows(events, w)[k];
    forall i | 0 <= i < |window| ensures IsOutsideP4(window[i]) { PureElement(events, boundary, w, k, i); }
    CountIfUniform(window, IsP4Event, false);
  }

  lemma P4Window(events: seq<CycleEvent>, boundary: nat, w: nat, k: nat)
    requires w > 0 && TwoPhaseEvents(events, boundary) && k < |Windows(events, w)| && boundary <= k * w
    ensures forall e :: e in Windows(events, w)[k] ==> IsP4Event(e)
    ensures CountIf(Windows(events, w)[k], IsP4Event) == |Windows(events, w)[k]|
  {
    var window := Windows(events, w)[k];
    forall i | 0 <= i < |window| ensures IsP4Event(window[i]) { WindowElement(events, w, k, i); }
    CountIfUniform(window, IsP4Event, true);
  }

  lemma MixedWindow(events: seq<CycleEvent>, w: nat, m: nat, stable: nat)
    requires w > 0 && stable <= w && TwoPhaseEvents(events, m * w + stable)
    requires m < |Windows(events, w)| && |Windows(events, w)[m]| == w
    ensures CountIf(Windows(events, w)[m], IsP4Event) == w - stable
  {
    var window := Windows(events, w)[m];
    forall i | 0 <= i < w ensures IsP4Event(window[i]) == (i >= stable) { WindowElement(events, w, m, i); }
    assert window == window[..stable] + window[stable..];
    CountIfAppend(window[..stable], window[stable..], IsP4Event);
    CountIfUniform(window[..stable], IsP4Event, false);
    CountIfUniform(window[stable..], IsP4Event, true);
  }

  lemma LowShare(part: nat, total: nat)
    requires total > 0 && 10 * part < 8 * total
    ensures Rate(part, total) < DOMAIN_OVERRIDE
  {
    ShareBelow(part as real, total as real);
  }

  lemma ShareBelow(x: real, y: real)
    requires 0.0 < y && x < 0.8 * y
    ensures x / y < 0.8
  {
    var q := x / y;
    assert q * y == x;
    assert (0.8 - q) * y > 0.0;
  }

  /** A complete window before the first all-P4 one holds fewer than four fifths P4 events. */
  lemma EarlyWindowCount(events: seq<CycleEvent>, w: nat, m: nat, stable: nat, k: nat)
    requires 0 < w && stable <= w && 10 * (w - stable) < 8 * w && TwoPhaseEvents(events, m * w + stable)
    requires k <= m && k < |Windows(events, w)| && |Windows(events, w)[k]| == w
    ensures Rate(CountIf(Windows(events, w)[k], IsP4Event), w) < DOMAIN_OVERRIDE
  {
    if k < m {
      ScaledLe(k + 1, m, w);
      PureWindow(events, m * w + stable, w, k);
    } else {
      MixedWindow(events, w, m, stable);
      LowShare(w - stable, w);
    }
  }

  lemma DomainRatioAt(th: Thresholds, ws: seq<seq<CycleEvent>>, k: nat)
    requires k < |ws|
    ensures AllMetrics(th, ws)[k].domainRatio == Rate(CountIf(ws[k], IsP4Event), |ws[k]|)
  {
  }

  /** The first n windows are not mostly P4. */
  ghost predicate FewP4Before(ms: seq<DriftMetrics>, n: nat) {
    forall k :: 0 <= k < |ms| && k < n ==> ms[k].domainRatio < DOMAIN_OVERRIDE
  }

  /** A trigger needs its window to be mostly P4, and a legacy run needs every one of its windows to be. */
  lemma TriggerShare(th: Thresholds, ms: seq<DriftMetrics>, n: nat, j: nat)
    requires AllConsistent(ms) && j < |ms| && Trigger(th, ms, j) && FewP4Before(ms[..j + 1], n)
    ensures j >= n
    ensures RoiCritical(th, ms[j]) || j + 1 >= n + VotesNeeded(th)
  {
    assert forall k :: 0 <= k <= j ==> ms[..j + 1][k] == ms[k];
    if RoiCritical(th, ms[j]) {
      FullWindowHasRatioOne(ms[j]);
    } else {
      assert LegacyVote(th, ms[j - VotesNeeded(th) + 1]) && LegacyVote(th, ms[j]);
    }
  }

  lemma EarlyWindowsFewP4(th: Thresholds, events: seq<CycleEvent>, m: nat, w: nat, stable: nat, n: nat)
    requires 0 < w && stable <= w && 10 * (w - stable) < 8 * w && TwoPhaseEvents(events, m * w + stable)
    requires n <= |Windows(events, w)| && forall k :: 0 <= k < n ==> |Windows(events, w)[k]| == w
    ensures FewP4Before(AllMetrics(th, Windows(events, w))[..n], m + 1)
  {
    var ws := Windows(events, w);
    forall k | 0 <= k < n && k < m + 1 ensures AllMetrics(th, ws)[..n][k].domainRatio < DOMAIN_OVERRIDE {
      EarlyWindowCount(events, w, m, stable, k);
      DomainRatioAt(th, ws, k);
    }
  }

  /** Confirmed too early: before window n + 1, or by degradation alone before `confirm_windows` more. */
  ghost predicate NotBefore(th: Thresholds, ms: seq<DriftMetrics>, first: Option<nat>, n: nat) {
    match first
    case None => true
    case Some(i) => n + 1 <= i <= |ms| && (RoiCritical(th, ms[i - 1]) || i >= n + VotesNeeded(th))
  }

  lemma FirstTriggerNotBefore(th: Thresholds, ws: seq<seq<CycleEvent>>, w: nat, first: Option<nat>, n: nat)
    requires IsFirstTrigger(th, ws, w, first)
    requires first.Some? ==> FewP4Before(AllMetrics(th, ws)[..first.value], n)
    ensures NotBefore(th, AllMetrics(th, ws), first, n)
  {
    AllMetricsConsistent(th, ws);
    if first.Some? { TriggerShare(th, AllMetrics(th, ws), n, first.value - 1); }
  }

  lemma TriggerBounds(th: Thresholds, ws: seq<seq<CycleEvent>>, w: nat, i: nat)
    requires IsFirstTrigger(th, ws, w, Some(i))
    ensures 1 <= i <= |ws| && |ws[i - 1]| >= w
  {
  }

  lemma WindowsUpToFull<T>(events: seq<T>, w: nat, i: nat)
    requires w > 0 && 1 <= i <= |Windows(events, w)| && |Windows(events, w)[i - 1]| >= w
    ensures forall k :: 0 <= k < i ==> |Windows(events, w)[k]| == w
  {
    WindowsPartition(events, w);
  }

  lemma FirstTriggerAfterMixedWindow(th: Thresholds, events: seq<CycleEvent>, m: nat, w: nat, stable: nat,
                                     first: Option<nat>)
    requires 0 < w && stable <= w && 10 * (w - stable) < 8 * w && TwoPhaseEvents(events, m * w + stable)
    requires IsFirstTrigger(th, Windows(events, w), w, first)
    ensures NotBefore(th, AllMetrics(th, Windows(events, w)), first, m + 1)
  {
    if first.Some? {
      TriggerBounds(th, Windows(events, w), w, first.value);
      WindowsUpToFull(events, w, first.value);
      EarlyWindowsFewP4(th, events, m, w, stable, first.value);
    }
    FirstTriggerNotBefore(th, Windows(events, w), w, first, m + 1);
  }

  /** With m stable windows and one mixed window first, drift is never confirmed before window m + 2, and
      only new masks can confirm it before window m + 1 + `confirm_windows`. */
  lemma EarliestConfirmation(th: Thresholds, events: seq<CycleEvent>, m: nat, w: nat)
    requires w >= 2 && MixedP4Count(w) <= w && TwoPhaseEvents(events, m * w + (w - MixedP4Count(w)))
    ensures NotBefore(th, AllMetrics(th, Windows(events, w)), FirstConfirmed(Summaries(th, Windows(events, w), w)),
                      m + 1)
  {
    FirstConfirmedIsFirstTrigger(th, events, w);
    MixedWindowShare(w);
    FirstTriggerAfterMixedWindow(th, events, m, w, w - MixedP4Count(w),
                                 FirstConfirmed(Summaries(th, Windows(events, w), w)));
  }

  lemma ReplayedTwoPhases(rows: seq<DriftRow>, boundary: nat, process: DriftRow -> CycleEvent, n: nat)
    requires TwoPhases(rows, boundary) && KeepsPhase(process)
    ensures TwoPhaseEvents(Replayed(Take(rows, n), process), boundary)
  {
    var events := Replayed(Take(rows, n), process);
    forall i | 0 <= i < |events| ensures IsP4Event(events[i]) == (i >= boundary) {
      PhasesExclude(rows[i]);
    }
  }

  lemma LinedUpWindow(events: seq<CycleEvent>, m: nat, d: nat, w: nat, stable: nat, k: nat)
    requires w >= 1 && stable <= w && |events| == w * (m + d) && TwoPhaseEvents(events, m * w + stable) && k < m + d
    ensures var ws := Windows(events, w);
      && |ws| == m + d && |ws[k]| == w
      && CountIf(ws[k], IsP4Event) == if k < m then 0 else if k == m then w - stable else w
  {
    FullWindows(events, w, m + d);
    if k < m {
      ScaledLe(k + 1, m, w);
      PureWindow(events, m * w + stable, w, k);
    } else if k == m {
      MixedWindow(events, w, m, stable);
    } else {
      ScaledLe(m + 1, k, w);
      NextMultiple(m, w);
      P4Window(events, m * w + stable, w, k);
    }
  }

  /** Selection and windows line up: m pure windows, one mixed window, d - 1 all-P4 windows, all complete. */
  lemma SelectionLinesUpWithWindows(rows: seq<DriftRow>, m: nat, d: nat, w: nat, process: DriftRow -> CycleEvent,
                                    k: nat)
    requires d >= 2 && w >= 1 && EnoughRows(rows, m, d, w) && KeepsPhase(process) && k < m + d
    ensures SelectRows(rows, m * w, d, w).Selected?
    ensures var ws := Windows(Replayed(SelectRows(rows, m * w, d, w).rows, process), w);
      && |ws| == m + d && |ws[k]| == w
      && CountIf(ws[k], IsP4Event) == if k < m then 0 else if k == m then MixedP4Count(w) else w
  {
    SelectionTwoPhases(rows, m, d, w);
    MixedWindowShare(w);
    AskedForWindows(m, d, w, 0);
    var selected := SelectRows(rows, m * w, d, w).rows;
    assert Take(selected, |selected|) == selected;
    ReplayedTwoPhases(selected, AskedStable(m * w, d, w), process, |selected|);
    LinedUpWindow(Replayed(selected, process), m, d, w, w - MixedP4Count(w), k);
  }

  // ---------------------------------------------------------------------------- windows of one event

  lemma RatesOf(th: Thresholds, byView: ByView, window: seq<CycleEvent>)
    ensures var m := WindowMetrics(th, byView, window);
      && m.windowEvents == |window|
      && m.domainRatio == Rate(CountIf(window, IsP4Event), |window|)
      && m.redRate == Rate(CountIf(window, Red), |window|)
  {
  }

  lemma FullRate(n: nat)
    requires n > 0
    ensures Rate(n, n) == 1.0
  {
  }

  lemma FullRatesVote(th: Thresholds, m: DriftMetrics)
    requires m.windowEvents > 0 && m.domainRatio == 1.0 && m.redRate == 1.0
    requires th.minWindowEvents <= 1 && th.domain <= 1.0 && th.red <= 1.0
    ensures LegacyVote(th, m)
  {
  }

  lemma RedP4WindowVotes(th: Thresholds, byView: ByView, window: seq<CycleEvent>)
    requires window != [] && CountIf(window, IsP4Event) == |window| == CountIf(window, Red)
    requires th.minWindowEvents <= 1 && th.domain <= 1.0 && th.red <= 1.0
    ensures LegacyVote(th, WindowMetrics(th, byView, window))
  {
    RatesOf(th, byView, window);
    FullRate(|window|);
    FullRatesVote(th, WindowMetrics(th, byView, window));
  }

  lemma OneVoteTriggers(th: Thresholds, ms: seq<DriftMetrics>, k: nat)
    requires k < |ms| && LegacyVote(th, ms[k]) && th.confirmWindows <= 1
    ensures Trigger(th, ms, k)
  {
  }

  /** A window of P4 events that are all red confirms drift alone where one window is enough. */
  lemma RedP4WindowTriggers(th: Thresholds, ws: seq<seq<CycleEvent>>, k: nat)
    requires k < |ws| && ws[k] != [] && forall e :: e in ws[k] ==> IsP4Event(e) && Red(e)
    requires th.minWindowEvents <= 1 && th.confirmWindows <= 1 && th.domain <= 1.0 && th.red <= 1.0
    ensures Trigger(th, AllMetrics(th, ws), k)
  {
    CountIfUniform(ws[k], IsP4Event, true);
    CountIfUniform(ws[k], Red, true);
    RedP4WindowVotes(th, References(ws[..k]), ws[k]);
    OneVoteTriggers(th, AllMetrics(th, ws), k);
  }

  lemma FirstNotAfter(th: Thresholds, ws: seq<seq<CycleEvent>>, w: nat, m: nat, first: Option<nat>)
    requires m < |ws| && |ws[m]| >= w && Trigger(th, AllMetrics(th, ws), m) && IsFirstTrigger(th, ws, w, first)
    ensures first.Some? && 1 <= first.value <= m + 1
  {
  }

  lemma NoShare(total: nat)
    ensures Rate(0, total) == 0.0
  {
  }

  lemma NoP4FewP4(th: Thresholds, ws: seq<seq<CycleEvent>>, m: nat, n: nat)
    requires n <= |ws| && forall k :: 0 <= k < m && k < |ws| ==> CountIf(ws[k], IsP4Event) == 0
    ensures FewP4Before(AllMetrics(th, ws)[..n], m)
  {
    var ms := AllMetrics(th, ws);
    forall k | 0 <= k < n && k < m ensures ms[k].domainRatio < DOMAIN_OVERRIDE {
      DomainRatioAt(th, ws, k);
      NoShare(|ws[k]|);
    }
    assert forall k :: 0 <= k < n ==> ms[..n][k] == ms[k];
  }

  /** The first window that triggers is window m + 1 when the m windows before it hold no P4 event. */
  lemma FirstTriggerAt(th: Thresholds, ws: seq<seq<CycleEvent>>, w: nat, m: nat, first: Option<nat>)
    requires m < |ws| && |ws[m]| >= w && Trigger(th, AllMetrics(th, ws), m)
    requires forall k :: 0 <= k < m ==> CountIf(ws[k], IsP4Event) == 0
    requires IsFirstTrigger(th, ws, w, first)
    ensures first == Some(m + 1)
  {
    FirstNotAfter(th, ws, w, m, first);
    NoP4FewP4(th, ws, m, first.value);
    FirstTriggerNotBefore(th, ws, w, first, m);
  }

  lemma {:induction false} FullCount<T(!new)>(xs: seq<T>, p: T -> bool)
    requires CountIf(xs, p) == |xs|
    ensures forall x :: x in xs ==> p(x)
  {
    if xs != [] {
      FullCount(xs[1..], p);
      assert forall x :: x in xs ==> x == xs[0] || x in xs[1..];
    }
  }

  lemma ConcatMember<T>(xss: seq<seq<T>>, k: nat, x: T)
    requires k < |xss| && x in xss[k]
    ensures x in Concat(xss)
  {
    if k > 0 { ConcatMember(xss[1..], k - 1, x); }
  }
}
