/** Which promotion policies let a replaced model come back (scripts/run_replay_lifecycle_cycle.py, the gate in
    `evaluate_dual_reference_promotion_comparison` on calibrated metrics): exactly those that are not `Acyclic`. */
module PolicyCycles {
  import opened ReplayEvents
  import opened Sorting
  import opened OrderStatistics
  import opened Arithmetic
  import opened Calibration
  import opened PromotionGate

  // ---------------------------------------------------------------------------- two models on one panel

  /** 20 k + 1 good pieces that score 0, 1, …, 20 k. */
  function GoodPieces(k: nat): seq<Record> {
    seq(20 * k + 1, i requires 0 <= i < 20 * k + 1 => Record(i as real, false))
  }

  function DefectsAt(n: nat, score: real): seq<Record> {
    seq(n, i requires 0 <= i < n => Record(score, true))
  }

  /** d - 1 defects with one score, and one with the lowest score of all. */
  function OneMissed(d: nat, k: nat, score: real): seq<Record>
    requires d >= 2
  {
    GoodPieces(k) + (DefectsAt(d - 1, score) + DefectsAt(1, 0.0))
  }

  /** The better ranking: d - 1 defects above every good piece, one with the lowest score. */
  function RanksWell(d: nat, k: nat): seq<Record>
    requires d >= 2
  {
    OneMissed(d, k, (20 * k + 1) as real)
  }

  /** The worse ranking: d - 1 defects at the orange threshold, below k good pieces, one with the lowest score. */
  function RanksBadly(d: nat, k: nat): seq<Record>
    requires d >= 2
  {
    OneMissed(d, k, (19 * k) as real)
  }

  /** The same ranking by a model that misses another defect. */
  function RanksWellToo(d: nat, k: nat): seq<Record>
    requires d >= 2
  {
    GoodPieces(k) + (DefectsAt(1, 0.0) + DefectsAt(d - 1, (20 * k + 1) as real))
  }

  /** The model that misses nothing: all defects sit exactly at the orange threshold, below k good pieces. */
  function MissesNothing(d: nat, k: nat): seq<Record> {
    GoodPieces(k) + DefectsAt(d, (19 * k) as real)
  }

  /** The same images in the same order, scored by two models. */
  predicate SamePanel(a: seq<Record>, b: seq<Record>) {
    |a| == |b| && forall i :: 0 <= i < |a| ==> a[i].defective == b[i].defective
  }

  lemma WitnessesShareAPanel(d: nat, k: nat)
    requires d >= 2
    ensures SamePanel(RanksWell(d, k), MissesNothing(d, k))
  {
  }

  // ---------------------------------------------------------------------------- their thresholds

  function Ramp(n: nat): seq<real> {
    seq(n, i requires 0 <= i < n => i as real)
  }

  lemma {:induction false} AllGoodScores(images: seq<Record>, scores: seq<real>)
    requires |images| == |scores| && forall i :: 0 <= i < |images| ==> images[i] == Record(scores[i], false)
    ensures GoodScores(images) == scores
  {
    if images != [] { AllGoodScores(images[1..], scores[1..]); }
  }

  lemma {:induction false} NoGoodScores(images: seq<Record>)
    requires forall r :: r in images ==> r.defective
    ensures GoodScores(images) == []
  {
    if images != [] { NoGoodScores(images[1..]); }
  }

  lemma PanelGoodScores(k: nat, defects: seq<Record>)
    requires forall r :: r in defects ==> r.defective
    ensures GoodScores(GoodPieces(k) + defects) == Ramp(20 * k + 1)
  {
    AllGoodScores(GoodPieces(k), Ramp(20 * k + 1));
    NoGoodScores(defects);
    GoodScoresAppend(GoodPieces(k), defects);
  }

  lemma OrangePosition(k: nat)
    ensures Position(20 * k + 1, ORANGE_QUANTILE) == (19 * k) as real
  {
  }

  lemma RampSorted(n: nat)
    ensures Ascending(Ramp(n)) == Ramp(n)
  {
    SortedFixed(Ramp(n), RealLe);
  }

  lemma RampQuantile(k: nat)
    requires k >= 1
    ensures InterpolatedQuantile(Ramp(20 * k + 1), ORANGE_QUANTILE) == (19 * k) as real
  {
    var s := Ramp(20 * k + 1);
    RampSorted(20 * k + 1);
    OrangePosition(k);
    assert |s| == 20 * k + 1 && InterpolatedQuantile(s, ORANGE_QUANTILE) == At(s, (19 * k) as real);
    RampAt(s, 19 * k);
  }

  lemma RampAt(s: seq<real>, i: nat)
    requires i < |s| && s[i] == i as real
    ensures At(s, i as real) == i as real
  {
    assert (i as real).Floor == i;
  }

  lemma PanelThresholds(k: nat, defects: seq<Record>)
    requires k >= 1 && forall r :: r in defects ==> r.defective
    ensures GoodScores(GoodPieces(k) + defects) != []
    ensures var t := CalibratedThresholds(GoodPieces(k) + defects).value;
      t.orange == (19 * k) as real && t == CalibratedThresholds(GoodPieces(k)).value
    ensures GoodRed(GoodPieces(k) + defects, CalibratedThresholds(GoodPieces(k)).value)
         == GoodRed(GoodPieces(k), CalibratedThresholds(GoodPieces(k)).value)
  {
    PanelGoodScores(k, defects);
    PanelGoodScores(k, []);
    assert GoodPieces(k) + [] == GoodPieces(k);
    RampQuantile(k);
    GoodRedCountsGoodScores(GoodPieces(k) + defects, CalibratedThresholds(GoodPieces(k)).value);
    GoodRedCountsGoodScores(GoodPieces(k), CalibratedThresholds(GoodPieces(k)).value);
  }

  // ---------------------------------------------------------------------------- their metrics

  function MissedAt(t: Thresholds): Record -> bool { (r: Record) => r.defective && !(r.score >= t.orange) }

  lemma {:induction false} FalseNegativesAre(images: seq<Record>, t: Thresholds)
    ensures FalseNegatives(images, t) == CountIf(images, MissedAt(t))
  {
    if images != [] { FalseNegativesAre(images[1..], t); }
  }

  function IsDefect(r: Record): bool { r.defective }

  lemma {:induction false} DefectsAre(images: seq<Record>)
    ensures Defects(images) == CountIf(images, IsDefect)
  {
    if images != [] { DefectsAre(images[1..]); }
  }

  lemma CountInDefects(n: nat, score: real, p: Record -> bool)
    ensures CountIf(DefectsAt(n, score), p) == if p(Record(score, true)) then n else 0
  {
    CountIfUniform(DefectsAt(n, score), p, p(Record(score, true)));
  }

  lemma NoneAmongGood(k: nat, p: Record -> bool)
    requires forall r: Record :: p(r) ==> r.defective
    ensures CountIf(GoodPieces(k), p) == 0
  {
    CountIfUniform(GoodPieces(k), p, false);
  }

  lemma GoodReaching(k: nat, from: nat)
    requires from <= 20 * k + 1
    ensures CountIf(GoodPieces(k), Reaching(from as real)) == 20 * k + 1 - from
  {
    var goods, p := GoodPieces(k), Reaching(from as real);
    assert goods == goods[..from] + goods[from..];
    CountIfAppend(goods[..from], goods[from..], p);
    CountIfUniform(goods[..from], p, false);
    CountIfUniform(goods[from..], p, true);
  }

  lemma PanelDefects(k: nat, defects: seq<Record>)
    requires forall r :: r in defects ==> r.defective
    ensures Defects(GoodPieces(k) + defects) == |defects|
  {
    DefectsAre(GoodPieces(k) + defects);
    CountIfAppend(GoodPieces(k), defects, IsDefect);
    NoneAmongGood(k, IsDefect);
    CountIfUniform(defects, IsDefect, true);
  }

  lemma MissesNothingFalseNegatives(d: nat, k: nat, t: Thresholds)
    requires t.orange == (19 * k) as real
    ensures FalseNegatives(MissesNothing(d, k), t) == 0
  {
    FalseNegativesAre(MissesNothing(d, k), t);
    CountIfAppend(GoodPieces(k), DefectsAt(d, (19 * k) as real), MissedAt(t));
    NoneAmongGood(k, MissedAt(t));
    CountInDefects(d, (19 * k) as real, MissedAt(t));
  }

  lemma OneMissedCount(d: nat, k: nat, score: real, p: Record -> bool)
    requires d >= 2
    ensures CountIf(OneMissed(d, k, score), p)
      == CountIf(GoodPieces(k), p) + (if p(Record(score, true)) then d - 1 else 0)
        + (if p(Record(0.0, true)) then 1 else 0)
  {
    CountIfAppend(GoodPieces(k), DefectsAt(d - 1, score) + DefectsAt(1, 0.0), p);
    CountIfAppend(DefectsAt(d - 1, score), DefectsAt(1, 0.0), p);
    CountInDefects(d - 1, score, p);
    CountInDefects(1, 0.0, p);
  }

  lemma OneMissedFalseNegatives(d: nat, k: nat, score: real, t: Thresholds)
    requires d >= 2 && k >= 1 && score >= t.orange == (19 * k) as real
    ensures FalseNegatives(OneMissed(d, k, score), t) == 1
  {
    FalseNegativesAre(OneMissed(d, k, score), t);
    OneMissedCount(d, k, score, MissedAt(t));
    NoneAmongGood(k, MissedAt(t));
  }

  lemma {:induction false} PrecisionSumNone(images: seq<Record>, some: seq<Record>)
    requires forall r :: r in some ==> !r.defective
    ensures PrecisionSum(images, some) == 0.0
  {
    if some != [] { PrecisionSumNone(images, some[1..]); }
  }

  lemma {:induction false} PrecisionSumAt(images: seq<Record>, n: nat, score: real)
    ensures PrecisionSum(images, DefectsAt(n, score)) == n as real * Precision(images, score)
  {
    if n > 0 {
      PrecisionSumAt(images, n - 1, score);
      assert DefectsAt(n, score)[1..] == DefectsAt(n - 1, score);
    }
  }

  lemma PanelPrecisionSum(images: seq<Record>, k: nat, defects: seq<Record>)
    ensures PrecisionSum(images, GoodPieces(k) + defects) == PrecisionSum(images, defects)
  {
    PrecisionSumAppend(images, GoodPieces(k), defects);
    PrecisionSumNone(images, GoodPieces(k));
  }

  /** Every defect is found among d + k + 1 images. */
  lemma MissesNothingPrecision(d: nat, k: nat)
    ensures Precision(MissesNothing(d, k), (19 * k) as real) == d as real / (d + k + 1) as real
  {
    var score := (19 * k) as real;
    CountIfAppend(GoodPieces(k), DefectsAt(d, score), Reaching(score));
    CountIfAppend(GoodPieces(k), DefectsAt(d, score), DefectReaching(score));
    GoodReaching(k, 19 * k);
    NoneAmongGood(k, DefectReaching(score));
    CountInDefects(d, score, Reaching(score));
    CountInDefects(d, score, DefectReaching(score));
  }

  lemma ShareOfProduct(d: real, x: real)
    requires d != 0.0
    ensures d * x / d == x
  {
  }

  lemma ApOfEqualPrecisions(images: seq<Record>, d: nat, precision: real)
    requires Defects(images) == d && 0 < d < |images| && PrecisionSum(images, images) == d as real * precision
    ensures AveragePrecision(images) == Some(precision)
  {
    ShareOfProduct(d as real, precision);
  }

  lemma PrecisionIs(images: seq<Record>, t: real, found: nat, n: nat)
    requires CountIf(images, DefectReaching(t)) == found && CountIf(images, Reaching(t)) == n > 0
    ensures Precision(images, t) == found as real / n as real
  {
  }

  lemma MissesNothingSum(d: nat, k: nat)
    ensures PrecisionSum(MissesNothing(d, k), MissesNothing(d, k))
      == d as real * Precision(MissesNothing(d, k), (19 * k) as real)
  {
    PanelPrecisionSum(MissesNothing(d, k), k, DefectsAt(d, (19 * k) as real));
    PrecisionSumAt(MissesNothing(d, k), d, (19 * k) as real);
  }

  lemma MissesNothingAp(d: nat, k: nat)
    requires d >= 2
    ensures AveragePrecision(MissesNothing(d, k)) == Some(d as real / (d + k + 1) as real)
  {
    PanelDefects(k, DefectsAt(d, (19 * k) as real));
    MissesNothingSum(d, k);
    MissesNothingPrecision(d, k);
    ApOfEqualPrecisions(MissesNothing(d, k), d, d as real / (d + k + 1) as real);
  }

  lemma HighScore(k: nat, score: real)
    requires score == (20 * k + 1) as real
    ensures Reaching(score)(Record(score, true)) && !Reaching(score)(Record(0.0, true))
    ensures DefectReaching(score)(Record(score, true)) && !DefectReaching(score)(Record(0.0, true))
  {
  }

  lemma RanksWellPrecision(d: nat, k: nat, score: real)
    requires d >= 2 && score == (20 * k + 1) as real
    ensures Precision(RanksWell(d, k), score) == 1.0
  {
    GoodReaching(k, 20 * k + 1);
    NoneAmongGood(k, DefectReaching(score));
    HighScore(k, score);
    OneMissedCount(d, k, score, Reaching(score));
    OneMissedCount(d, k, score, DefectReaching(score));
    PrecisionIs(RanksWell(d, k), score, d - 1, d - 1);
    SelfShare((d - 1) as real);
  }

  lemma SelfShare(x: real)
    requires x != 0.0
    ensures x / x == 1.0
  {
  }

  lemma RanksWellAp(d: nat, k: nat)
    requires d >= 2
    ensures AveragePrecision(RanksWell(d, k)).Some?
    ensures AveragePrecision(RanksWell(d, k)).value >= 1.0 - 1.0 / d as real
  {
    var images, score := RanksWell(d, k), (20 * k + 1) as real;
    var high, low := DefectsAt(d - 1, score), DefectsAt(1, 0.0);
    PanelDefects(k, high + low);
    PanelPrecisionSum(images, k, high + low);
    PrecisionSumAppend(images, high, low);
    PrecisionSumAt(images, d - 1, score);
    RanksWellPrecision(d, k, score);
    PrecisionSumRange(images, low);
    AllButOne(d as real, PrecisionSum(images, images));
  }

  lemma AllButOne(d: real, sum: real)
    requires d > 0.0 && sum >= d - 1.0
    ensures sum / d >= 1.0 - 1.0 / d
  {
    FractionMonotone(d - 1.0, sum, d);
    assert (d - 1.0) / d == d / d - 1.0 / d;
  }

  lemma CrossMultiplied(a: int, b: int, c: int, e: int)
    requires 0 < b && 0 < e && a * e <= c * b
    ensures a as real / b as real <= c as real / e as real
  {
    var q := c as real / e as real;
    assert q * e as real == c as real;
    assert (q * b as real - a as real) * e as real == (c * b - a * e) as real;
    FractionMonotone(a as real, q * b as real, b as real);
    assert q * b as real / b as real == q;
  }

  /** With the scores of RanksBadly no defect is found with a better precision than those of MissesNothing. */
  lemma RanksBadlyPrecision(d: nat, k: nat)
    requires d >= 2 && k >= 1
    ensures Precision(RanksBadly(d, k), (19 * k) as real) <= d as real / (d + k + 1) as real
    ensures Precision(RanksBadly(d, k), 0.0) <= d as real / (d + k + 1) as real
  {
    BadPrecisionAt(d, k, 19 * k, d - 1, d + k);
    OneFewerShare(d, d + k);
    BadPrecisionAt(d, k, 0, d, d + 20 * k + 1);
    SmallerShare(d, d + 20 * k + 1, d + k + 1);
  }

  lemma OneFewerShare(d: nat, n: nat)
    requires 0 < n && d <= n + 1
    ensures (d - 1) as real / n as real <= d as real / (n + 1) as real
  {
    OneFewer(d, n);
    CrossMultiplied(d - 1, n, d, n + 1);
  }

  lemma SmallerShare(d: nat, n: nat, m: nat)
    requires 0 < m <= n
    ensures d as real / n as real <= d as real / m as real
  {
    ScaledLe(m, n, d);
    CrossMultiplied(d, n, d, m);
  }

  lemma OneFewer(d: int, n: int)
    requires d <= n + 1
    ensures (d - 1) * (n + 1) <= d * n
  {
  }

  lemma BadPrecisionAt(d: nat, k: nat, from: nat, found: nat, n: nat)
    requires d >= 2 && k >= 1 && from <= 19 * k
    requires found == (if from == 0 then d else d - 1) && (from == 0 || from == 19 * k)
    requires n == 20 * k + 1 - from + found
    ensures Precision(RanksBadly(d, k), from as real) == found as real / n as real
  {
    var score := from as real;
    GoodReaching(k, from);
    NoneAmongGood(k, DefectReaching(score));
    OneMissedCount(d, k, (19 * k) as real, Reaching(score));
    OneMissedCount(d, k, (19 * k) as real, DefectReaching(score));
    PrecisionIs(RanksBadly(d, k), score, found, n);
  }

  lemma SumBelow(d: nat, high: real, low: real, x: real)
    requires d >= 2 && high <= x && low <= x
    ensures (d - 1) as real * high + 1.0 * low <= d as real * x
  {
    assert (d - 1) as real * (x - high) >= 0.0;
  }

  lemma RanksBadlySum(d: nat, k: nat, x: real)
    requires d >= 2 && Precision(RanksBadly(d, k), (19 * k) as real) <= x && Precision(RanksBadly(d, k), 0.0) <= x
    ensures PrecisionSum(RanksBadly(d, k), RanksBadly(d, k)) <= d as real * x
  {
    var images, score := RanksBadly(d, k), (19 * k) as real;
    var high, low := DefectsAt(d - 1, score), DefectsAt(1, 0.0);
    PanelPrecisionSum(images, k, high + low);
    PrecisionSumAppend(images, high, low);
    PrecisionSumAt(images, d - 1, score);
    PrecisionSumAt(images, 1, 0.0);
    SumBelow(d, Precision(images, score), Precision(images, 0.0), x);
  }

  lemma MeanBelow(d: real, sum: real, x: real)
    requires d > 0.0 && sum <= d * x
    ensures sum / d <= x
  {
    FractionMonotone(sum, d * x, d);
    ShareOfProduct(d, x);
  }

  lemma RanksBadlyAp(d: nat, k: nat)
    requires d >= 2 && k >= 1
    ensures AveragePrecision(RanksBadly(d, k)).Some?
    ensures AveragePrecision(RanksBadly(d, k)).value <= d as real / (d + k + 1) as real
  {
    var images, x := RanksBadly(d, k), d as real / (d + k + 1) as real;
    PanelDefects(k, DefectsAt(d - 1, (19 * k) as real) + DefectsAt(1, 0.0));
    RanksBadlyPrecision(d, k);
    RanksBadlySum(d, k, x);
    MeanBelow(d as real, PrecisionSum(images, images), x);
  }

  lemma BadMetrics(d: nat, k: nat)
    requires d >= 2 && k >= 1
    ensures SamePanel(RanksWell(d, k), RanksBadly(d, k)) && GoodScores(RanksBadly(d, k)) != []
      && GoodScores(RanksWell(d, k)) != []
    ensures var well, badly := CalibratedMetrics(RanksWell(d, k)), CalibratedMetrics(RanksBadly(d, k));
      && well.falseNegatives == badly.falseNegatives == 1 && well.goodRed == badly.goodRed
      && badly.imageAp.Some? && badly.imageAp.value <= d as real / (d + k + 1) as real
  {
    WitnessMetrics(d, k);
    PanelThresholds(k, DefectsAt(d - 1, (20 * k + 1) as real) + DefectsAt(1, 0.0));
    PanelThresholds(k, DefectsAt(d - 1, (19 * k) as real) + DefectsAt(1, 0.0));
    OneMissedFalseNegatives(d, k, (19 * k) as real, CalibratedThresholds(GoodPieces(k)).value);
    RanksBadlyAp(d, k);
  }

  // ---------------------------------------------------------------------------- how large a panel

  lemma NonNegativeShare(x: real, y: real)
    requires 0.0 <= x && 0.0 < y
    ensures 0.0 <= x / y
  {
    FractionMonotone(0.0, x, y);
    assert 0.0 / y == 0.0;
  }

  /** A panel large enough for any AP margin below 1. */
  function EnoughDefects(margin: real): (d: nat)
    requires margin < 1.0
    ensures d >= 2
  {
    NonNegativeShare(2.0, 1.0 - margin);
    (2.0 / (1.0 - margin)).Floor + 2
  }

  function EnoughGood(margin: real, d: nat): (k: nat)
    requires margin < 1.0
    ensures k >= 1
  {
    NonNegativeShare(2.0 * d as real, 1.0 - margin);
    (2.0 * d as real / (1.0 - margin)).Floor + 1
  }

  /** n above 2 x / e makes x / n less than half of e. */
  lemma BelowHalf(x: real, n: real, e: real)
    requires 0.0 < e && 0.0 < n && 2.0 * x / e < n
    ensures x / n < e / 2.0
  {
    var q, r := 2.0 * x / e, x / n;
    assert q * e == 2.0 * x;
    assert (n - q) * e > 0.0;
    assert 2.0 * x < n * e;
    assert r * n == x;
    assert (e / 2.0 - r) * n > 0.0;
  }

  lemma LargerTotal(x: real, n: real, n': real)
    requires 0.0 <= x && 0.0 < n <= n'
    ensures x / n' <= x / n
  {
    var q := x / n;
    assert q * n == x && q >= 0.0;
    assert q * n <= q * n';
    FractionMonotone(x, q * n', n');
    assert q * n' / n' == q;
  }

  lemma MarginReached(margin: real)
    requires margin < 1.0
    ensures var d := EnoughDefects(margin);
      var k := EnoughGood(margin, d);
      1.0 - 1.0 / d as real - d as real / (d + k + 1) as real > margin
  {
    var e, d := 1.0 - margin, EnoughDefects(margin);
    var k := EnoughGood(margin, d);
    BelowHalf(1.0, d as real, e);
    BelowHalf(d as real, k as real, e);
    LargerTotal(d as real, k as real, (d + k + 1) as real);
  }

  /** The metrics a panel of this size gives the two models. */
  lemma WitnessMetrics(d: nat, k: nat)
    requires d >= 2 && k >= 1
    ensures GoodScores(RanksWell(d, k)) != [] && GoodScores(MissesNothing(d, k)) != []
    ensures var a, b := CalibratedMetrics(RanksWell(d, k)), CalibratedMetrics(MissesNothing(d, k));
      && a.falseNegatives == 1 && b.falseNegatives == 0 && a.goodRed == b.goodRed
      && a.imageAp.Some? && a.imageAp.value >= 1.0 - 1.0 / d as real
      && b.imageAp == Some(d as real / (d + k + 1) as real)
  {
    var t := CalibratedThresholds(GoodPieces(k));
    PanelThresholds(k, DefectsAt(d - 1, (20 * k + 1) as real) + DefectsAt(1, 0.0));
    PanelThresholds(k, DefectsAt(d, (19 * k) as real));
    OneMissedFalseNegatives(d, k, (20 * k + 1) as real, t.value);
    MissesNothingFalseNegatives(d, k, t.value);
    RanksWellAp(d, k);
    MissesNothingAp(d, k);
  }

  // ---------------------------------------------------------------------------- different models, equal metrics

  /** No count tells the two lists apart. */
  ghost predicate SameCounts(a: seq<Record>, b: seq<Record>) {
    |a| == |b| && forall p: Record -> bool :: CountIf(a, p) == CountIf(b, p)
  }

  lemma TwinCounts(d: nat, k: nat)
    requires d >= 2
    ensures SameCounts(RanksWell(d, k), RanksWellToo(d, k))
  {
    var high, low := DefectsAt(d - 1, (20 * k + 1) as real), DefectsAt(1, 0.0);
    forall p: Record -> bool ensures CountIf(RanksWell(d, k), p) == CountIf(RanksWellToo(d, k), p) {
      CountIfAppend(GoodPieces(k), high + low, p);
      CountIfAppend(high, low, p);
      CountIfAppend(GoodPieces(k), low + high, p);
      CountIfAppend(low, high, p);
    }
  }

  lemma {:induction false} TwinPrecisionSum(a: seq<Record>, b: seq<Record>, some: seq<Record>)
    requires SameCounts(a, b)
    ensures PrecisionSum(a, some) == PrecisionSum(b, some)
  {
    if some != [] { TwinPrecisionSum(a, b, some[1..]); }
  }

  lemma TwinAp(d: nat, k: nat)
    requires d >= 2
    ensures AveragePrecision(RanksWellToo(d, k)) == AveragePrecision(RanksWell(d, k))
  {
    var a, b := RanksWell(d, k), RanksWellToo(d, k);
    var high, low := DefectsAt(d - 1, (20 * k + 1) as real), DefectsAt(1, 0.0);
    TwinCounts(d, k);
    DefectsAre(a);
    DefectsAre(b);
    PanelPrecisionSum(a, k, high + low);
    PanelPrecisionSum(b, k, low + high);
    PrecisionSumAppend(a, high, low);
    PrecisionSumAppend(b, low, high);
    TwinPrecisionSum(a, b, high);
    TwinPrecisionSum(a, b, low);
  }

  lemma TwinMetrics(d: nat, k: nat)
    requires d >= 2 && k >= 1
    ensures RanksWell(d, k) != RanksWellToo(d, k) && SamePanel(RanksWell(d, k), RanksWellToo(d, k))
    ensures GoodScores(RanksWell(d, k)) != [] && GoodScores(RanksWellToo(d, k)) != []
    ensures CalibratedMetrics(RanksWellToo(d, k)) == CalibratedMetrics(RanksWell(d, k))
  {
    var a, b := RanksWell(d, k), RanksWellToo(d, k);
    var high, low := DefectsAt(d - 1, (20 * k + 1) as real), DefectsAt(1, 0.0);
    assert a[20 * k + 1].score == (20 * k + 1) as real && b[20 * k + 1].score == 0.0;
    PanelThresholds(k, high + low);
    PanelThresholds(k, low + high);
    var t := CalibratedThresholds(GoodPieces(k)).value;
    TwinCounts(d, k);
    FalseNegativesAre(a, t);
    FalseNegativesAre(b, t);
    DefectsAre(a);
    DefectsAre(b);
    RecallFromFalseNegatives(a, t);
    RecallFromFalseNegatives(b, t);
    TwinAp(d, k);
  }

  // ---------------------------------------------------------------------------- which policies swap

  /** Two different models a and b, calibrated on one panel, replace each other. */
  ghost predicate Swap(policy: Policy, a: seq<Record>, b: seq<Record>) {
    && a != b && SamePanel(a, b) && GoodScores(a) != [] && GoodScores(b) != []
    && ClassificationPasses(policy, CalibratedMetrics(a), CalibratedMetrics(b))
    && ClassificationPasses(policy, CalibratedMetrics(b), CalibratedMetrics(a))
  }

  /** Without the false-negative requirement and with an AP margin below 1, a model that misses nothing and one
      that ranks better replace each other. */
  lemma RankingSwap(policy: Policy)
    requires !policy.p4Objective && !policy.requireFnImprovement && policy.maxGoodRedRegression >= 0
      && policy.minApDelta < 1.0
    ensures var d := EnoughDefects(policy.minApDelta);
      var k := EnoughGood(policy.minApDelta, d);
      Swap(policy, RanksWell(d, k), MissesNothing(d, k))
  {
    var d := EnoughDefects(policy.minApDelta);
    var k := EnoughGood(policy.minApDelta, d);
    WitnessesShareAPanel(d, k);
    assert RanksWell(d, k)[20 * k + 1].score == (20 * k + 1) as real;
    assert MissesNothing(d, k)[20 * k + 1].score == (19 * k) as real;
    WitnessMetrics(d, k);
    MarginReached(policy.minApDelta);
  }

  /** With a negative margin two models with equal metrics replace each other. */
  lemma NegativeMarginSwap(policy: Policy, d: nat, k: nat)
    requires policy.maxGoodRedRegression >= 0 && (policy.p4Objective || !policy.requireFnImprovement)
    requires policy.minRecallDelta < 0.0 || policy.minApDelta < 0.0
    requires d >= 2 && k >= 1
    ensures Swap(policy, RanksWell(d, k), RanksWellToo(d, k))
  {
    TwinMetrics(d, k);
    WitnessMetrics(d, k);
  }

  /** Every policy that is not acyclic lets two decision models of one panel replace each other for ever. */
  lemma OtherPoliciesCycle(policy: Policy) returns (a: seq<Record>, b: seq<Record>)
    requires !Acyclic(policy)
    ensures Swap(policy, a, b)
  {
    if policy.p4Objective || policy.minApDelta >= 1.0 {
      NegativeMarginSwap(policy, 2, 1);
      a, b := RanksWell(2, 1), RanksWellToo(2, 1);
    } else {
      RankingSwap(policy);
      var d := EnoughDefects(policy.minApDelta);
      a, b := RanksWell(d, EnoughGood(policy.minApDelta, d)), MissesNothing(d, EnoughGood(policy.minApDelta, d));
    }
  }

  lemma {:induction false} SamePanelDefects(a: seq<Record>, b: seq<Record>)
    requires SamePanel(a, b)
    ensures Defects(a) == Defects(b)
  {
    if a != [] {
      assert forall i :: 0 <= i < |a[1..]| ==> a[1..][i] == a[i + 1] && b[1..][i] == b[i + 1];
      SamePanelDefects(a[1..], b[1..]);
    }
  }

  /** Exactly the acyclic policies never let two decision models of one panel replace each other. */
  lemma AcyclicExactly(policy: Policy)
    ensures Acyclic(policy) <==> forall a, b :: !Swap(policy, a, b)
  {
    if Acyclic(policy) {
      forall a, b ensures !Swap(policy, a, b) {
        if Swap(policy, a, b) {
          var m, n := CalibratedMetrics(a), CalibratedMetrics(b);
          SamePanelDefects(a, b);
          CalibratedOnPanel(m, a);
          CalibratedOnPanel(n, b);
          AcyclicStep(policy, m, n, Defects(a));
          AcyclicStep(policy, n, m, Defects(a));
          assert false;
        }
      }
    } else {
      var a, b := OtherPoliciesCycle(policy);
    }
  }

  // ---------------------------------------------------------------------------- a candidate every policy accepts

  /** A model that gives every good piece the same score and the only defect a lower one. */
  function TellsNothing(k: nat): seq<Record> {
    seq(20 * k + 1, i requires 0 <= i < 20 * k + 1 => Record(1.0, false)) + DefectsAt(1, 0.0)
  }

  lemma FlatQuantile(s: seq<real>, q: real)
    requires s != [] && 0.0 <= q <= 1.0 && forall i :: 0 <= i < |s| ==> s[i] == 1.0
    ensures InterpolatedQuantile(s, q) == 1.0
  {
    SortedFixed(s, RealLe);
  }

  lemma TellsNothingMetrics(k: nat)
    ensures GoodScores(TellsNothing(k)) != []
    ensures var m := CalibratedMetrics(TellsNothing(k)); m.falseNegatives == 1 && m.goodRed == 20 * k + 1
  {
    var goods := seq(20 * k + 1, i requires 0 <= i < 20 * k + 1 => Record(1.0, false));
    var flat: seq<real> := seq(20 * k + 1, i => 1.0);
    AllGoodScores(goods, flat);
    GoodScoresAppend(goods, DefectsAt(1, 0.0));
    NoGoodScores(DefectsAt(1, 0.0));
    FlatQuantile(flat, ORANGE_QUANTILE);
    FlatQuantile(flat, RED_QUANTILE);
    assert GoodScores(TellsNothing(k)) == flat + [] == flat;
    var t := CalibratedThresholds(TellsNothing(k)).value;
    FlatCounts(k, t, goods, flat);
  }

  lemma FlatCounts(k: nat, t: Thresholds, goods: seq<Record>, flat: seq<real>)
    requires t == Thresholds(1.0, 1.0) && TellsNothing(k) == goods + DefectsAt(1, 0.0)
    requires GoodScores(TellsNothing(k)) == flat && |flat| == 20 * k + 1 && forall x :: x in flat ==> x == 1.0
    requires forall r :: r in goods ==> !r.defective
    ensures FalseNegatives(TellsNothing(k), t) == 1 && GoodRed(TellsNothing(k), t) == 20 * k + 1
  {
    FalseNegativesAre(TellsNothing(k), t);
    CountIfAppend(goods, DefectsAt(1, 0.0), MissedAt(t));
    CountIfUniform(goods, MissedAt(t), false);
    CountInDefects(1, 0.0, MissedAt(t));
    GoodRedCountsGoodScores(TellsNothing(k), t);
    CountIfUniform(flat, AtLeast(t.red), true);
  }

  lemma MissesNothingGoodRed(k: nat)
    requires k >= 1
    ensures GoodScores(MissesNothing(1, k)) != []
    ensures var m := CalibratedMetrics(MissesNothing(1, k)); m.falseNegatives == 0 && m.goodRed <= k + 1
  {
    var defects := DefectsAt(1, (19 * k) as real);
    PanelThresholds(k, defects);
    var t := CalibratedThresholds(MissesNothing(1, k)).value;
    MissesNothingFalseNegatives(1, k, t);
    GoodReaching(k, 19 * k);
    RedAtMostReaching(GoodPieces(k), t);
  }

  lemma {:induction false} RedAtMostReaching(images: seq<Record>, t: Thresholds)
    requires t.orange <= t.red
    ensures GoodRed(images, t) <= CountIf(images, Reaching(t.orange))
  {
    if images != [] { RedAtMostReaching(images[1..], t); }
  }

  function EnoughTied(policy: Policy): (k: nat)
    ensures k >= 1 && k >= -policy.maxGoodRedRegression
  {
    if policy.maxGoodRedRegression >= -1 then 1 else -policy.maxGoodRedRegression
  }

  /** Whatever the policy, some model on some panel replaces another. */
  lemma EveryPolicyPromotes(policy: Policy)
    ensures var k := EnoughTied(policy);
      && SamePanel(TellsNothing(k), MissesNothing(1, k))
      && GoodScores(TellsNothing(k)) != [] && GoodScores(MissesNothing(1, k)) != []
      && ClassificationPasses(policy, CalibratedMetrics(TellsNothing(k)), CalibratedMetrics(MissesNothing(1, k)))
  {
    TellsNothingMetrics(EnoughTied(policy));
    MissesNothingGoodRed(EnoughTied(policy));
  }
}
