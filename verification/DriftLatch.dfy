/** The drift latch: how a sequence of observation windows is judged suspected, critical or confirmed
    (scripts/run_monitoring.py and `_finalize_window` in scripts/run_drift_observation_replay.py). */
module DriftLatch {

  /** The `drift` section of the monitoring thresholds. */
  datatype Thresholds = Thresholds(
    minWindowEvents: int,
    confirmWindows: int,
    novelty: real,
    nnDistance: real,
    area: real,
    domain: real,
    alert: real,
    red: real,
    unexpectedRed: real,
    roiFail: real,
    oracleFn: real)

  /** `DEFAULT_DRIFT_THRESHOLDS` */
  const DEFAULT_THRESHOLDS := Thresholds(10, 2, 0.80, 0.50, 0.40, 0.40, 0.50, 0.20, 0.20, 0.10, 0.05)

  /** Below this share of P4 events an unconfirmed window is not reported as critical. */
  const DOMAIN_OVERRIDE := 0.8

  datatype DriftMetrics = DriftMetrics(
    windowEvents: nat,
    contextEvents: nat,
    domainRatio: real,
    nnDistance: real,
    noveltyRate: real,
    areaRatio: real,
    alertRate: real,
    redRate: real,
    unexpectedRedRate: real,
    roiFailRate: real,
    oracleFnRate: real)

  datatype Status = Clear | Suspected | Confirmed

  datatype Evaluation = Evaluation(status: Status, suspected: bool, confirmed: bool, critical: bool, criticalCount: nat)

  /** What one window hands to the next one. */
  datatype Latch = Latch(criticalCount: nat, confirmedOnce: bool)

  const INITIAL := Latch(0, false)

  // ---------------------------------------------------------------------------- one window

  predicate EnoughEvents(th: Thresholds, m: DriftMetrics) { m.windowEvents >= th.minWindowEvents }

  predicate Degraded(th: Thresholds, m: DriftMetrics) {
    || m.alertRate >= th.alert
    || m.redRate >= th.red
    || m.unexpectedRedRate >= th.unexpectedRed
    || m.roiFailRate >= th.roiFail
    || m.oracleFnRate >= th.oracleFn
  }

  predicate RoiSignals(th: Thresholds, m: DriftMetrics) {
    m.noveltyRate >= th.novelty && (m.nnDistance >= th.nnDistance || m.areaRatio >= th.area)
  }

  predicate RoiCritical(th: Thresholds, m: DriftMetrics) {
    EnoughEvents(th, m) && m.contextEvents >= m.windowEvents > 0 && RoiSignals(th, m)
  }

  predicate LegacyCritical(th: Thresholds, m: DriftMetrics) {
    EnoughEvents(th, m) && m.domainRatio >= th.domain && Degraded(th, m)
  }

  predicate Suspicious(th: Thresholds, m: DriftMetrics) {
    EnoughEvents(th, m) && (m.noveltyRate >= th.novelty || m.domainRatio >= th.domain)
  }

  function StatusOf(confirmed: bool, suspected: bool): Status {
    if confirmed then Confirmed else if suspected then Suspected else Clear
  }

  /** `evaluate_drift_metrics` */
  function EvaluateDrift(th: Thresholds, m: DriftMetrics, latch: Latch): Evaluation {
    var critical := RoiCritical(th, m) || LegacyCritical(th, m);
    var next := if critical then latch.criticalCount + 1 else 0;
    var confirmed := latch.confirmedOnce || RoiCritical(th, m) || (LegacyCritical(th, m) && next >= th.confirmWindows);
    Evaluation(StatusOf(confirmed, Suspicious(th, m)), Suspicious(th, m), confirmed, critical, next)
  }

  /** The evaluation `_finalize_window` reports, after the override for windows with few P4 events. */
  function FinalizeWindow(th: Thresholds, m: DriftMetrics, latch: Latch): Evaluation {
    var e := EvaluateDrift(th, m, latch);
    if m.domainRatio < DOMAIN_OVERRIDE && !latch.confirmedOnce then
      e.(critical := false, confirmed := false, criticalCount := 0, status := StatusOf(false, e.suspected))
    else e
  }

  function LatchAfter(e: Evaluation, latch: Latch): Latch {
    Latch(e.criticalCount, latch.confirmedOnce || e.confirmed)
  }

  // ---------------------------------------------------------------------------- a sequence of windows

  function FinalLatch(th: Thresholds, ms: seq<DriftMetrics>): Latch {
    if ms == [] then INITIAL
    else
      var latch := FinalLatch(th, ms[..|ms| - 1]);
      LatchAfter(FinalizeWindow(th, ms[|ms| - 1], latch), latch)
  }

  /** The evaluation reported for window i. */
  function Report(th: Thresholds, ms: seq<DriftMetrics>, i: nat): Evaluation
    requires i < |ms|
  {
    FinalizeWindow(th, ms[i], FinalLatch(th, ms[..i]))
  }

  lemma LatchStep(th: Thresholds, ms: seq<DriftMetrics>, i: nat)
    requires i < |ms|
    ensures FinalLatch(th, ms[..i + 1]) == LatchAfter(Report(th, ms, i), FinalLatch(th, ms[..i]))
  {
    assert ms[..i + 1][..i] == ms[..i];
  }

  /** The counts of a window agree with its domain ratio. */
  ghost predicate Consistent(m: DriftMetrics) {
    && m.contextEvents <= m.windowEvents
    && (m.windowEvents > 0 ==> m.domainRatio == m.contextEvents as real / m.windowEvents as real)
  }

  lemma FullWindowHasRatioOne(m: DriftMetrics)
    requires Consistent(m) && m.contextEvents >= m.windowEvents > 0
    ensures m.domainRatio == 1.0
  {
  }

  /** Once a window is confirmed, every later window is. */
  lemma {:induction false} ConfirmationLatches(th: Thresholds, ms: seq<DriftMetrics>, i: nat, j: nat)
    requires i <= j < |ms|
    ensures Report(th, ms, i).confirmed ==>
      Report(th, ms, j).confirmed && Report(th, ms, j).status == Confirmed && FinalLatch(th, ms[..j + 1]).confirmedOnce
  {
    LatchStep(th, ms, j);
    if i < j { ConfirmationLatches(th, ms, i, j - 1); }
  }

  /** The counter is the length of the run of windows reported critical that ends at this window. */
  lemma {:induction false} CounterIsCriticalRun(th: Thresholds, ms: seq<DriftMetrics>, i: nat)
    requires i < |ms|
    ensures var c := Report(th, ms, i).criticalCount;
      && c <= i + 1
      && (forall j :: i - c < j <= i ==> Report(th, ms, j).critical)
      && (c <= i ==> !Report(th, ms, i - c).critical)
  {
    if i > 0 {
      LatchStep(th, ms, i - 1);
      CounterIsCriticalRun(th, ms, i - 1);
    } else {
      assert ms[..0] == [];
    }
  }

  // ---------------------------------------------------------------------------- what confirms drift

  predicate LegacyVote(th: Thresholds, m: DriftMetrics) {
    LegacyCritical(th, m) && m.domainRatio >= DOMAIN_OVERRIDE
  }

  function VotesNeeded(th: Thresholds): nat {
    if th.confirmWindows <= 1 then 1 else th.confirmWindows
  }

  ghost predicate LegacyRun(th: Thresholds, ms: seq<DriftMetrics>, j: nat)
    requires j < |ms|
  {
    VotesNeeded(th) <= j + 1 && forall k :: j - VotesNeeded(th) < k <= j ==> LegacyVote(th, ms[k])
  }

  /** Window j alone tells that drift is confirmed, whatever the latch did before: either its masks are new
      and all its events are P4, or it ends enough consecutive degraded windows that are mostly P4. */
  ghost predicate Trigger(th: Thresholds, ms: seq<DriftMetrics>, j: nat)
    requires j < |ms|
  {
    RoiCritical(th, ms[j]) || LegacyRun(th, ms, j)
  }

  ghost predicate AllConsistent(ms: seq<DriftMetrics>) {
    forall i :: 0 <= i < |ms| ==> Consistent(ms[i])
  }

  /** While nothing is confirmed, the counter is the length of the current run of legacy votes. */
  lemma {:induction false} UnconfirmedCounter(th: Thresholds, ms: seq<DriftMetrics>, n: nat)
    requires n <= |ms| && AllConsistent(ms)
    ensures var c := FinalLatch(th, ms[..n]).criticalCount;
      !FinalLatch(th, ms[..n]).confirmedOnce ==>
      && c <= n
      && (forall k :: n - c <= k < n ==> LegacyVote(th, ms[k]))
      && (c < n ==> !LegacyVote(th, ms[n - c - 1]))
  {
    if n > 0 {
      LatchStep(th, ms, n - 1);
      UnconfirmedCounter(th, ms, n - 1);
    }
  }

  /** One step: with nothing confirmed before, a window is confirmed exactly when it is a trigger. */
  lemma FirstConfirmationIsTrigger(th: Thresholds, ms: seq<DriftMetrics>, i: nat)
    requires i < |ms| && AllConsistent(ms)
    ensures !FinalLatch(th, ms[..i]).confirmedOnce ==> (Report(th, ms, i).confirmed <==> Trigger(th, ms, i))
  {
    UnconfirmedCounter(th, ms, i);
    if FinalLatch(th, ms[..i]).confirmedOnce {
    } else if RoiCritical(th, ms[i]) {
      FullWindowHasRatioOne(ms[i]);
    } else {
      var c := FinalLatch(th, ms[..i]).criticalCount;
      if LegacyRun(th, ms, i) && c < i {
        assert !LegacyVote(th, ms[i - c - 1]);
      }
      assert Report(th, ms, i).confirmed ==> forall k :: i - c <= k <= i ==> LegacyVote(th, ms[k]);
    }
  }

  /** The latch, described without its state: a window is confirmed exactly when it or an earlier window is
      a trigger. */
  lemma {:induction false} ConfirmedIffTriggered(th: Thresholds, ms: seq<DriftMetrics>, i: nat)
    requires i < |ms| && AllConsistent(ms)
    ensures Report(th, ms, i).confirmed <==> exists j :: 0 <= j <= i && Trigger(th, ms, j)
    ensures Report(th, ms, i).confirmed == FinalLatch(th, ms[..i + 1]).confirmedOnce
  {
    LatchStep(th, ms, i);
    if i > 0 { ConfirmedIffTriggered(th, ms, i - 1); }
    FirstConfirmationIsTrigger(th, ms, i);
  }

  /** The override never hides a window whose events are all P4 and whose masks are new. */
  lemma OverrideKeepsRoiCritical(th: Thresholds, m: DriftMetrics, latch: Latch)
    requires Consistent(m) && RoiCritical(th, m)
    ensures FinalizeWindow(th, m, latch) == EvaluateDrift(th, m, latch)
    ensures FinalizeWindow(th, m, latch).confirmed
      && FinalizeWindow(th, m, latch).criticalCount == latch.criticalCount + 1
  {
    FullWindowHasRatioOne(m);
  }

  /** A window reported critical is also suspected; a clear window resets the counter. */
  lemma ClearWindowResets(th: Thresholds, m: DriftMetrics, latch: Latch)
    ensures var e := FinalizeWindow(th, m, latch);
      && (e.critical ==> e.suspected)
      && (e.status == Clear <==> !e.confirmed && !e.suspected)
      && (e.status == Clear ==> e.criticalCount == 0)
  {
  }

  // ---------------------------------------------------------------------------- the reported score

  function ScoreRatio(value: real, critical: real): (r: real)
    ensures 0.0 <= r <= 1.0
    ensures critical > 0.0 ==> (r == 1.0 <==> value >= critical) && (r == 0.0 <==> value <= 0.0)
  {
    if critical <= 0.0 then 0.0 else Clamp(value / critical)
  }

  function Clamp(x: real): real {
    if x < 0.0 then 0.0 else if x > 1.0 then 1.0 else x
  }

  function Max(x: real, y: real): real {
    if x >= y then x else y
  }

  function DegradationScore(th: Thresholds, m: DriftMetrics): real {
    Max(ScoreRatio(m.alertRate, th.alert),
        Max(ScoreRatio(m.redRate, th.red),
            Max(ScoreRatio(m.unexpectedRedRate, th.unexpectedRed),
                Max(ScoreRatio(m.roiFailRate, th.roiFail), ScoreRatio(m.oracleFnRate, th.oracleFn)))))
  }

  function RoiScore(th: Thresholds, m: DriftMetrics): real {
    ScoreRatio(m.noveltyRate, th.novelty) * Max(ScoreRatio(m.nnDistance, th.nnDistance),
                                                ScoreRatio(m.areaRatio, th.area))
  }

  function DriftScore(th: Thresholds, m: DriftMetrics): real {
    if RoiScore(th, m) > 0.0 then RoiScore(th, m)
    else ScoreRatio(m.domainRatio, th.domain) * DegradationScore(th, m)
  }

  predicate PositiveThresholds(th: Thresholds) {
    && th.novelty > 0.0 && th.nnDistance > 0.0 && th.area > 0.0 && th.domain > 0.0 && th.alert > 0.0
    && th.red > 0.0 && th.unexpectedRed > 0.0 && th.roiFail > 0.0 && th.oracleFn > 0.0
  }

  lemma UnitProduct(x: real, y: real)
    requires 0.0 <= x <= 1.0 && 0.0 <= y <= 1.0
    ensures 0.0 <= x * y <= 1.0
    ensures x * y == 1.0 <==> x == 1.0 && y == 1.0
  {
    assert x * y <= x by { assert x * (1.0 - y) >= 0.0; }
    assert x * y <= y by { assert y * (1.0 - x) >= 0.0; }
  }

  lemma DegradationInRange(th: Thresholds, m: DriftMetrics)
    ensures 0.0 <= DegradationScore(th, m) <= 1.0
  {
  }

  lemma ScoreRange(th: Thresholds, m: DriftMetrics)
    ensures 0.0 <= RoiScore(th, m) <= 1.0 && 0.0 <= DriftScore(th, m) <= 1.0
  {
    var distance := Max(ScoreRatio(m.nnDistance, th.nnDistance), ScoreRatio(m.areaRatio, th.area));
    assert 0.0 <= distance <= 1.0;
    UnitProduct(ScoreRatio(m.noveltyRate, th.novelty), distance);
    DegradationInRange(th, m);
    UnitProduct(ScoreRatio(m.domainRatio, th.domain), DegradationScore(th, m));
  }

  lemma RoiScoreFull(th: Thresholds, m: DriftMetrics)
    requires PositiveThresholds(th)
    ensures RoiScore(th, m) == 1.0 <==> RoiSignals(th, m)
  {
    UnitProduct(ScoreRatio(m.noveltyRate, th.novelty),
                Max(ScoreRatio(m.nnDistance, th.nnDistance), ScoreRatio(m.areaRatio, th.area)));
  }

  lemma DegradationScoreFull(th: Thresholds, m: DriftMetrics)
    requires PositiveThresholds(th)
    ensures DegradationScore(th, m) == 1.0 <==> Degraded(th, m)
    ensures 0.0 <= DegradationScore(th, m) <= 1.0
  {
  }

  lemma LegacyScoreFull(th: Thresholds, m: DriftMetrics)
    requires PositiveThresholds(th)
    ensures ScoreRatio(m.domainRatio, th.domain) * DegradationScore(th, m) == 1.0
      <==> m.domainRatio >= th.domain && Degraded(th, m)
  {
    DegradationScoreFull(th, m);
    UnitProduct(ScoreRatio(m.domainRatio, th.domain), DegradationScore(th, m));
  }

  /** When the score reaches 1. A critical window does not always: a small but positive ROI score replaces
      the full score of a window that is critical for its degradation. */
  lemma FullScoreIff(th: Thresholds, m: DriftMetrics)
    requires PositiveThresholds(th)
    ensures DriftScore(th, m) == 1.0
      <==> RoiSignals(th, m) || (RoiScore(th, m) == 0.0 && m.domainRatio >= th.domain && Degraded(th, m))
  {
    RoiScoreFull(th, m);
    LegacyScoreFull(th, m);
    ScoreRange(th, m);
  }

  lemma CriticalWindowFullScoreIff(th: Thresholds, m: DriftMetrics)
    requires PositiveThresholds(th) && (RoiCritical(th, m) || LegacyCritical(th, m))
    ensures DriftScore(th, m) == 1.0 <==> RoiSignals(th, m) || RoiScore(th, m) == 0.0
  {
    FullScoreIff(th, m);
  }

  /** Every P4 event of these two windows alarms, and their masks differ a little from the references: the second
      window is confirmed, but its score is 0.0125 instead of 1. */
  lemma ConfirmedWindowWithLowScore(m: DriftMetrics)
    requires m == DriftMetrics(30, 30, 1.0, 0.05, 0.1, 0.0, 1.0, 1.0, 1.0, 0.0, 0.0)
    ensures Consistent(m) && DriftScore(DEFAULT_THRESHOLDS, m) == 0.0125
    ensures Report(DEFAULT_THRESHOLDS, [m, m], 1).critical && Report(DEFAULT_THRESHOLDS, [m, m], 1).confirmed
  {
    assert LegacyVote(DEFAULT_THRESHOLDS, m);
    assert LegacyRun(DEFAULT_THRESHOLDS, [m, m], 1);
    assert Trigger(DEFAULT_THRESHOLDS, [m, m], 1);
    ConfirmedIffTriggered(DEFAULT_THRESHOLDS, [m, m], 1);
  }
}
