/** Threshold calibration on the good scores of a panel: the two interpolated quantiles of the repository
    and what they fix about the decision counts. Scores and quantile levels are exact reals. */
module Calibration {
  import opened ReplayEvents
  import opened Sorting
  import opened OrderStatistics
  import opened Arithmetic

  /** Value at the real position p of an ordered list, interpolated between neighbours. */
  function At(s: seq<real>, p: real): real
    requires s != [] && 0.0 <= p <= (|s| - 1) as real
  {
    var lower := p.Floor;
    var upper := if lower + 1 <= |s| - 1 then lower + 1 else |s| - 1;
    Interpolate(s[lower], s[upper], p - lower as real)
  }

  function Interpolate(low: real, high: real, f: real): real {
    low + (high - low) * f
  }

  /** Where the q-quantile of n ordered scores lies. */
  function Position(n: nat, q: real): (p: real)
    requires n > 0 && 0.0 <= q <= 1.0
    ensures 0.0 <= p <= (n - 1) as real
  {
    (n - 1) as real * q
  }

  /** `_interpolated_quantile` of scripts/run_replay_lifecycle_cycle.py */
  function InterpolatedQuantile(values: seq<real>, q: real): real
    requires values != [] && 0.0 <= q <= 1.0
  {
    if |values| == 1 then Ascending(values)[0] else At(Ascending(values), Position(|values|, q))
  }

  function Ceiling(p: real): int {
    if p == p.Floor as real then p.Floor else p.Floor + 1
  }

  /** `quantile` of scripts/analyze_replay_classification.py */
  function Quantile(values: seq<real>, q: real): Option<real>
    requires 0.0 <= q <= 1.0
  {
    if values == [] then None
    else
      var ordered := Ascending(values);
      if |ordered| == 1 then Some(ordered[0])
      else
        Some(WeightedAt(ordered, Position(|ordered|, q)))
  }

  function WeightedAt(ordered: seq<real>, pos: real): real
    requires ordered != [] && 0.0 <= pos <= (|ordered| - 1) as real
  {
    var lower, upper := pos.Floor, Ceiling(pos);
    if lower == upper then ordered[lower]
    else ordered[lower] * (upper as real - pos) + ordered[upper] * (pos - lower as real)
  }

  /** Two ways of writing the same interpolation. */
  lemma WeightsAgree(a: real, b: real, f: real)
    ensures Interpolate(a, b, f) == a * (1.0 - f) + b * f
    ensures Interpolate(a, b, 0.0) == a
  {
  }

  lemma InterpolationsAgree(s: seq<real>, pos: real)
    requires s != [] && 0.0 <= pos <= (|s| - 1) as real
    ensures WeightedAt(s, pos) == At(s, pos)
  {
    var lower := pos.Floor;
    var upper := if lower + 1 <= |s| - 1 then lower + 1 else |s| - 1;
    WeightsAgree(s[lower], s[upper], pos - lower as real);
    if pos != lower as real {
      assert Ceiling(pos) == upper && upper as real - pos == 1.0 - (pos - lower as real);
    }
  }

  lemma QuantilesAgree(values: seq<real>, q: real)
    requires values != [] && 0.0 <= q <= 1.0
    ensures Quantile(values, q) == Some(InterpolatedQuantile(values, q))
  {
    InterpolationsAgree(Ascending(values), Position(|values|, q));
  }

  /** Between the ranks i and i + 1 the quantile moves on a straight line from one score to the next. */
  lemma QuantileInterpolates(values: seq<real>, q: real, i: nat, f: real)
    requires i + 1 < |values| && 0.0 <= q <= 1.0 && 0.0 <= f <= 1.0 && (|values| - 1) as real * q == i as real + f
    ensures var s := Ascending(values);
      InterpolatedQuantile(values, q) == s[i] * (1.0 - f) + s[i + 1] * f
  {
    var s, p := Ascending(values), i as real + f;
    assert Position(|values|, q) == p;
    if f < 1.0 {
      assert p.Floor == i;
      WeightsAgree(s[i], s[i + 1], f);
    } else {
      assert p == (i + 1) as real && p.Floor == i + 1;
      var upper := if i + 2 <= |s| - 1 then i + 2 else |s| - 1;
      WeightsAgree(s[i + 1], s[upper], 0.0);
    }
  }

  lemma Between(low: real, high: real, f: real)
    requires low <= high && 0.0 <= f <= 1.0
    ensures low <= Interpolate(low, high, f) <= high
    ensures low < high && 0.0 < f ==> low < Interpolate(low, high, f)
  {
    ScaleMonotone(high - low, 0.0, f);
    ScaleMonotone(high - low, f, 1.0);
    if low < high && 0.0 < f { InterpolateAbove(low, high, f); }
  }

  lemma InterpolateAbove(low: real, high: real, f: real)
    requires low < high && 0.0 < f
    ensures low < Interpolate(low, high, f)
  {
    var step := high - low;
    assert 0.0 < step * f;
  }

  lemma ScaleMonotone(k: real, f: real, f': real)
    requires 0.0 <= k && f <= f'
    ensures k * f <= k * f' && k * 0.0 == 0.0 && k * 1.0 == k
  {
  }

  lemma InterpolateMonotone(low: real, high: real, f: real, f': real)
    requires low <= high && f <= f'
    ensures Interpolate(low, high, f) <= Interpolate(low, high, f')
  {
    ScaleMonotone(high - low, f, f');
  }

  /** The interpolated value lies between the elements at the floor and at the ceiling of the position. */
  lemma AtBounds(s: seq<real>, p: real)
    requires Ordered(s, RealLe) && s != [] && 0.0 <= p <= (|s| - 1) as real
    ensures 0 <= p.Floor <= Ceiling(p) < |s|
    ensures s[p.Floor] <= At(s, p) <= s[Ceiling(p)]
    ensures s[p.Floor] < s[Ceiling(p)] ==> s[p.Floor] < At(s, p)
  {
    var lower, upper := p.Floor, Ceiling(p);
    if lower != upper {
      assert RealLe(s[lower], s[upper]);
      Between(s[lower], s[upper], p - lower as real);
    } else {
      WeightsAgree(s[lower], s[if lower + 1 <= |s| - 1 then lower + 1 else |s| - 1], 0.0);
    }
  }

  lemma AtMonotone(s: seq<real>, p: real, p': real)
    requires Ordered(s, RealLe) && s != [] && 0.0 <= p <= p' <= (|s| - 1) as real
    ensures At(s, p) <= At(s, p')
  {
    AtBounds(s, p);
    AtBounds(s, p');
    if p.Floor < p'.Floor {
      assert Ceiling(p) == p'.Floor || RealLe(s[Ceiling(p)], s[p'.Floor]);
    } else if p.Floor < |s| - 1 {
      var lower := p.Floor;
      assert RealLe(s[lower], s[lower + 1]);
      InterpolateMonotone(s[lower], s[lower + 1], p - lower as real, p' - lower as real);
    }
  }

  lemma PositionMonotone(n: nat, q: real, q': real)
    requires n > 0 && 0.0 <= q <= q' <= 1.0
    ensures Position(n, q) <= Position(n, q')
  {
    ScaleMonotone((n - 1) as real, q, q');
  }

  /** A higher quantile level never gives a lower threshold. */
  lemma QuantileMonotone(values: seq<real>, q: real, q': real)
    requires values != [] && 0.0 <= q <= q' <= 1.0
    ensures InterpolatedQuantile(values, q) <= InterpolatedQuantile(values, q')
  {
    AscendingProperties(values);
    if |values| > 1 {
      PositionMonotone(|values|, q, q');
      AtMonotone(Ascending(values), Position(|values|, q), Position(|values|, q'));
    }
  }

  /** Rank of the quantile: the ceiling of its position. */
  function Rank(n: nat, q: real): nat
    requires n > 0 && 0.0 <= q <= 1.0
  {
    Ceiling(Position(n, q))
  }

  function AtLeast(t: real): real -> bool { (x: real) => x >= t }

  lemma AllReach(s: seq<real>, c: nat, t: real)
    requires Ordered(s, RealLe) && c < |s| && t <= s[c]
    ensures CountIf(s[c..], AtLeast(t)) == |s| - c
  {
    forall x | x in s[c..] ensures AtLeast(t)(x) {
      var i :| c <= i < |s| && s[i] == x;
      assert i == c || RealLe(s[c], s[i]);
    }
    CountIfUniform(s[c..], AtLeast(t), true);
  }

  lemma NoneReaches(s: seq<real>, c: nat, t: real)
    requires Ordered(s, RealLe) && 0 < c <= |s| && s[c - 1] < t
    ensures CountIf(s[..c], AtLeast(t)) == 0
  {
    forall x | x in s[..c] ensures !AtLeast(t)(x) {
      var i :| 0 <= i < c && s[i] == x;
      assert i == c - 1 || RealLe(s[i], s[c - 1]);
    }
    CountIfUniform(s[..c], AtLeast(t), false);
  }

  lemma LastReaches(s: seq<real>, t: real)
    requires s != [] && t <= s[|s| - 1]
    ensures CountIf(s, AtLeast(t)) >= 1
  {
    var front, last := s[..|s| - 1], [s[|s| - 1]];
    assert s == front + last;
    CountIfAppend(front, last, AtLeast(t));
    CountIfUniform(last, AtLeast(t), true);
  }

  /** In an ordered list whose element c reaches t, exactly n - c elements reach t when c is the first that does. */
  lemma CountReaching(s: seq<real>, c: nat, t: real)
    requires Ordered(s, RealLe) && c < |s| && t <= s[c]
    ensures CountIf(s, AtLeast(t)) >= |s| - c
    ensures CountIf(s, AtLeast(t)) == |s| - c <==> c == 0 || s[c - 1] < t
  {
    assert s == s[..c] + s[c..];
    CountIfAppend(s[..c], s[c..], AtLeast(t));
    AllReach(s, c, t);
    if c > 0 {
      if s[c - 1] < t { NoneReaches(s, c, t); } else { LastReaches(s[..c], t); }
    }
  }

  /** No tie at the quantile's rank: the element of that rank is above the one before it. */
  predicate UntiedAtRank(values: seq<real>, q: real)
    requires values != [] && 0.0 <= q <= 1.0
  {
    UntiedAt(Ascending(values), Rank(|values|, q))
  }

  predicate UntiedAt(s: seq<real>, c: nat) {
    0 < c < |s| ==> s[c - 1] < s[c]
  }

  lemma ScoresReachingPosition(s: seq<real>, p: real)
    requires Ordered(s, RealLe) && s != [] && 0.0 <= p <= (|s| - 1) as real
    ensures var c, reaching := Ceiling(p), CountIf(s, AtLeast(At(s, p)));
      reaching >= |s| - c && (reaching == |s| - c <==> UntiedAt(s, c))
  {
    AtBounds(s, p);
    var c := Ceiling(p);
    CountReaching(s, c, At(s, p));
    if c > 0 && c == p.Floor {
      assert At(s, p) == s[c];
    }
  }

  /** At least n - ceil((n-1)q) scores reach the q-quantile, and exactly that many when, and only when, the
      scores are not tied at that rank. */
  lemma ScoresReachingQuantile(values: seq<real>, q: real)
    requires values != [] && 0.0 <= q <= 1.0
    ensures var reaching := CountIf(values, AtLeast(InterpolatedQuantile(values, q)));
      && reaching >= |values| - Rank(|values|, q)
      && (reaching == |values| - Rank(|values|, q) <==> UntiedAtRank(values, q))
  {
    AscendingProperties(values);
    var t := InterpolatedQuantile(values, q);
    CountIfPermutation(Ascending(values), values, AtLeast(t));
    QuantileIsAt(values, q);
    ScoresReachingPosition(Ascending(values), Position(|values|, q));
  }

  /** The special case of a single score is no exception. */
  lemma QuantileIsAt(values: seq<real>, q: real)
    requires values != [] && 0.0 <= q <= 1.0
    ensures InterpolatedQuantile(values, q) == At(Ascending(values), Position(|values|, q))
  {
    if |values| == 1 {
      assert Position(|values|, q) == 0.0;
      WeightsAgree(Ascending(values)[0], Ascending(values)[0], 0.0);
    }
  }

  // ---------------------------------------------------------------------------- panels

  /** One evaluated image; images without a score are dropped before calibration. */
  datatype Record = Record(score: real, defective: bool)

  datatype Thresholds = Thresholds(orange: real, red: real)

  const ORANGE_QUANTILE := 0.95
  const RED_QUANTILE := 0.99

  function GoodScores(images: seq<Record>): seq<real> {
    if images == [] then []
    else (if images[0].defective then [] else [images[0].score]) + GoodScores(images[1..])
  }

  /** `thresholds_from_evaluation_scores` with its default quantile levels. */
  function CalibratedThresholds(images: seq<Record>): Option<Thresholds> {
    var good := GoodScores(images);
    if good == [] then None
    else
      var orange := InterpolatedQuantile(good, ORANGE_QUANTILE);
      var red := InterpolatedQuantile(good, RED_QUANTILE);
      Some(Thresholds(orange, if orange > red then orange else red))
  }

  function FalseNegatives(images: seq<Record>, t: Thresholds): nat {
    CountIf(images, (r: Record) => r.defective && !(r.score >= t.orange))
  }

  function GoodRed(images: seq<Record>, t: Thresholds): nat {
    CountIf(images, (r: Record) => !r.defective && r.score >= t.red)
  }

  function Defects(images: seq<Record>): nat {
    CountIf(images, (r: Record) => r.defective)
  }

  /** `image_recall`: detected defects over defects, 1 without defects. */
  function Recall(images: seq<Record>, t: Thresholds): real {
    if Defects(images) == 0 then 1.0
    else CountIf(images, (r: Record) => r.defective && r.score >= t.orange) as real / Defects(images) as real
  }

  ghost function Missed(t: Thresholds): Record -> bool { (r: Record) => r.defective && r.score < t.orange }

  ghost function FalselyRed(t: Thresholds): Record -> bool { (r: Record) => !r.defective && t.red <= r.score }

  /** False negatives are the defects below orange, good-red images the good ones from red on. */
  lemma PanelCounts(images: seq<Record>, t: Thresholds)
    ensures FalseNegatives(images, t) == |Where(images, Missed(t))|
    ensures GoodRed(images, t) == |Where(images, FalselyRed(t))|
  {
    MissedCount(images, t);
    FalselyRedCount(images, t);
    CountIsSize(images, Missed(t));
    CountIsSize(images, FalselyRed(t));
  }

  lemma {:induction false} MissedCount(images: seq<Record>, t: Thresholds)
    ensures FalseNegatives(images, t) == CountIf(images, Missed(t))
  {
    if images != [] { MissedCount(images[1..], t); }
  }

  lemma {:induction false} FalselyRedCount(images: seq<Record>, t: Thresholds)
    ensures GoodRed(images, t) == CountIf(images, FalselyRed(t))
  {
    if images != [] { FalselyRedCount(images[1..], t); }
  }

  lemma {:induction false} DetectedPlusMissed(images: seq<Record>, t: Thresholds)
    ensures CountIf(images, (r: Record) => r.defective && r.score >= t.orange) + FalseNegatives(images, t)
      == Defects(images)
  {
    if images != [] { DetectedPlusMissed(images[1..], t); }
  }

  /** Recall is one minus the missed share of the defects. */
  lemma RecallFromFalseNegatives(images: seq<Record>, t: Thresholds)
    ensures FalseNegatives(images, t) <= Defects(images)
    ensures Recall(images, t) == RecallOf(FalseNegatives(images, t), Defects(images))
  {
    DetectedPlusMissed(images, t);
    if Defects(images) != 0 { ShareOfRest(Defects(images) - FalseNegatives(images, t), Defects(images)); }
  }

  function RecallOf(missed: nat, defects: nat): real {
    if defects == 0 then 1.0 else 1.0 - missed as real / defects as real
  }

  lemma ShareOfRest(x: nat, y: nat)
    requires x <= y && y != 0
    ensures x as real / y as real == RecallOf(y - x, y)
  {
    SharesAddUp(x as real, (y - x) as real);
  }

  lemma SharesAddUp(a: real, b: real)
    requires a + b != 0.0
    ensures a / (a + b) == 1.0 - b / (a + b)
  {
    var c := a + b;
    assert a / c + b / c == (a + b) / c == 1.0;
  }

  lemma {:induction false} GoodRedCountsGoodScores(images: seq<Record>, t: Thresholds)
    ensures GoodRed(images, t) == CountIf(GoodScores(images), AtLeast(t.red))
  {
    if images != [] {
      GoodRedCountsGoodScores(images[1..], t);
      CountIfAppend(if images[0].defective then [] else [images[0].score], GoodScores(images[1..]), AtLeast(t.red));
    }
  }

  /** The good images a calibrated model turns red: the panel size alone decides the number, unless scores tie. */
  lemma CalibratedGoodRed(images: seq<Record>)
    requires GoodScores(images) != []
    ensures CalibratedThresholds(images).Some?
    ensures var t, good := CalibratedThresholds(images).value, GoodScores(images);
      && t.orange <= t.red
      && GoodRed(images, t) >= |good| - Rank(|good|, RED_QUANTILE)
      && (GoodRed(images, t) == |good| - Rank(|good|, RED_QUANTILE) <==> UntiedAtRank(good, RED_QUANTILE))
  {
    var good := GoodScores(images);
    QuantileMonotone(good, ORANGE_QUANTILE, RED_QUANTILE);
    ScoresReachingQuantile(good, RED_QUANTILE);
    GoodRedCountsGoodScores(images, CalibratedThresholds(images).value);
  }

  /** The ceiling of m - m / d is m minus the whole multiples of d. */
  lemma CeilingOfRest(m: nat, d: nat, p: real)
    requires d > 0 && p * d as real == (m * d - m) as real
    ensures Ceiling(p) == m - m / d
  {
    var k, rest := m / d, m % d;
    assert m == k * d + rest;
    var x := p - (m - k) as real;
    assert x * d as real == p * d as real - ((m - k) * d) as real;
    assert (m - k) * d == m * d - k * d;
    assert x * d as real == -(rest as real);
    QuotientRange(x, rest, d);
    if rest == 0 { assert p == (m - k) as real; } else { assert (m - k - 1) as real < p < (m - k) as real; }
  }

  lemma RealCancel(x: real, y: real, k: real)
    requires k > 0.0 && x * k < y * k
    ensures x < y
  {
    assert (y - x) * k == y * k - x * k;
  }

  lemma QuotientRange(x: real, rest: nat, d: nat)
    requires 0 <= rest < d && x * d as real == -(rest as real)
    ensures if rest == 0 then x == 0.0 else -1.0 < x < 0.0
  {
    if rest > 0 {
      RealCancel(x, 0.0, d as real);
      RealCancel(-1.0, x, d as real);
    }
  }

  lemma CalibratedRanks(n: nat)
    requires n > 0
    ensures Rank(n, ORANGE_QUANTILE) == n - 1 - (n - 1) / 20
    ensures Rank(n, RED_QUANTILE) == n - 1 - (n - 1) / 100
  {
    CeilingOfRest(n - 1, 20, Position(n, ORANGE_QUANTILE));
    CeilingOfRest(n - 1, 100, Position(n, RED_QUANTILE));
  }

  /** What calibration does to n good images: with scores that do not tie at the rank, one image and one more for every
      hundred further ones turns red, and one and one more for every twenty further ones reaches orange. */
  lemma CalibratedShares(images: seq<Record>)
    requires GoodScores(images) != []
    ensures CalibratedThresholds(images).Some?
    ensures var t, good := CalibratedThresholds(images).value, GoodScores(images);
      var red, alerted := CountIf(good, AtLeast(t.red)), CountIf(good, AtLeast(t.orange));
      && red == GoodRed(images, t)
      && red >= 1 + (|good| - 1) / 100 && (red == 1 + (|good| - 1) / 100 <==> UntiedAtRank(good, 0.99))
      && alerted >= 1 + (|good| - 1) / 20 && (alerted == 1 + (|good| - 1) / 20 <==> UntiedAtRank(good, 0.95))
  {
    var good := GoodScores(images);
    QuantileMonotone(good, ORANGE_QUANTILE, RED_QUANTILE);
    ScoresReachingQuantile(good, RED_QUANTILE);
    ScoresReachingQuantile(good, ORANGE_QUANTILE);
    GoodRedCountsGoodScores(images, CalibratedThresholds(images).value);
    CalibratedRanks(|good|);
  }

  /** Two models calibrated on the same panel: the active model's scores tie at the red rank exactly when
      the candidate, untied, turns fewer good images red. */
  lemma SamePanelGoodRedDelta(active: seq<Record>, candidate: seq<Record>)
    requires |GoodScores(active)| == |GoodScores(candidate)| > 0
    requires UntiedAtRank(GoodScores(candidate), RED_QUANTILE)
    ensures CalibratedThresholds(active).Some? && CalibratedThresholds(candidate).Some?
    ensures var delta := GoodRed(candidate, CalibratedThresholds(candidate).value)
                       - GoodRed(active, CalibratedThresholds(active).value);
      delta <= 0 && (delta == 0 <==> UntiedAtRank(GoodScores(active), RED_QUANTILE))
  {
    CalibratedGoodRed(active);
    CalibratedGoodRed(candidate);
  }

  // ---------------------------------------------------------------------------- average precision

  function Reaching(t: real): Record -> bool { (r: Record) => r.score >= t }

  function DefectReaching(t: real): Record -> bool { (r: Record) => r.defective && r.score >= t }

  /** Precision of the images that score at least t. */
  function Precision(images: seq<Record>, t: real): real {
    if CountIf(images, Reaching(t)) == 0 then 0.0
    else CountIf(images, DefectReaching(t)) as real / CountIf(images, Reaching(t)) as real
  }

  /** Precisions at the scores of the defects among `some`. */
  function PrecisionSum(images: seq<Record>, some: seq<Record>): real {
    if some == [] then 0.0
    else (if some[0].defective then Precision(images, some[0].score) else 0.0) + PrecisionSum(images, some[1..])
  }

  /** `average_precision_score`: the mean, over the defects, of the precision at their score; not computed on a
      panel of one class. Tied images count together. */
  function AveragePrecision(images: seq<Record>): Option<real> {
    if Defects(images) == 0 || Defects(images) == |images| then None
    else Some(PrecisionSum(images, images) / Defects(images) as real)
  }

  lemma PrecisionRange(images: seq<Record>, t: real)
    ensures 0.0 <= Precision(images, t) <= 1.0
  {
    CountIfImplies(images, DefectReaching(t), Reaching(t));
    if CountIf(images, Reaching(t)) != 0 {
      ShareRange(CountIf(images, DefectReaching(t)) as real, CountIf(images, Reaching(t)) as real);
    }
  }

  lemma {:induction false} PrecisionSumRange(images: seq<Record>, some: seq<Record>)
    ensures 0.0 <= PrecisionSum(images, some) <= Defects(some) as real
  {
    if some != [] {
      PrecisionRange(images, some[0].score);
      PrecisionSumRange(images, some[1..]);
    }
  }

  /** Average precision lies in [0, 1]. */
  lemma AveragePrecisionRange(images: seq<Record>)
    ensures AveragePrecision(images).Some? ==> 0.0 <= AveragePrecision(images).value <= 1.0
  {
    PrecisionSumRange(images, images);
    if AveragePrecision(images).Some? {
      ShareRange(PrecisionSum(images, images), Defects(images) as real);
    }
  }

  /** A defect is ranked perfectly when no good image scores as much as it does. */
  ghost predicate AboveAllGood(images: seq<Record>, t: real) {
    forall g :: g in images && !g.defective ==> g.score < t
  }

  lemma {:induction false} ReachedByDefectsOnly(images: seq<Record>, t: real)
    ensures CountIf(images, DefectReaching(t)) <= CountIf(images, Reaching(t))
    ensures CountIf(images, DefectReaching(t)) == CountIf(images, Reaching(t)) <==> AboveAllGood(images, t)
  {
    if images != [] {
      var rest := images[1..];
      ReachedByDefectsOnly(rest, t);
      assert images == [images[0]] + rest;
      assert AboveAllGood(images, t) <==> AboveAllGood(rest, t) && (!images[0].defective ==> images[0].score < t);
    }
  }

  lemma FullShare(x: real, y: real)
    requires y != 0.0
    ensures x / y == 1.0 <==> x == y
  {
    assert x / y * y == x;
  }

  lemma ReachingItself(images: seq<Record>, d: Record)
    requires d in images
    ensures CountIf(images, Reaching(d.score)) > 0
  {
    var k :| 0 <= k < |images| && images[k] == d;
    CountIfRemove(images, k, Reaching(d.score));
  }

  lemma PerfectPrecision(images: seq<Record>, d: Record)
    requires d in images
    ensures Precision(images, d.score) == 1.0 <==> AboveAllGood(images, d.score)
  {
    ReachedByDefectsOnly(images, d.score);
    ReachingItself(images, d);
    FullShare(CountIf(images, DefectReaching(d.score)) as real, CountIf(images, Reaching(d.score)) as real);
  }

  ghost predicate Separated(images: seq<Record>, some: seq<Record>) {
    forall d :: d in some && d.defective ==> AboveAllGood(images, d.score)
  }

  lemma {:induction false} PerfectSum(images: seq<Record>, some: seq<Record>)
    requires forall d :: d in some ==> d in images
    ensures PrecisionSum(images, some) == Defects(some) as real <==> Separated(images, some)
  {
    if some != [] {
      var rest := some[1..];
      PerfectSum(images, rest);
      PrecisionSumRange(images, rest);
      PrecisionRange(images, some[0].score);
      PerfectPrecision(images, some[0]);
      assert some == [some[0]] + rest;
      assert Separated(images, some)
        <==> Separated(images, rest) && (some[0].defective ==> AboveAllGood(images, some[0].score));
    }
  }

  /** Average precision is 1 exactly when every defect scores above every good image: a tie costs. */
  lemma PerfectRankingIff(images: seq<Record>)
    requires AveragePrecision(images).Some?
    ensures AveragePrecision(images).value == 1.0
      <==> forall d, g :: d in images && g in images && d.defective && !g.defective ==> g.score < d.score
  {
    PerfectSum(images, images);
    FullShare(PrecisionSum(images, images), Defects(images) as real);
    assert Separated(images, images)
      <==> forall d, g :: d in images && g in images && d.defective && !g.defective ==> g.score < d.score;
  }

  lemma {:induction false} PrecisionSumAppend(images: seq<Record>, a: seq<Record>, b: seq<Record>)
    ensures PrecisionSum(images, a + b) == PrecisionSum(images, a) + PrecisionSum(images, b)
  {
    if a == [] {
      assert a + b == b;
    } else {
      PrecisionSumAppend(images, a[1..], b);
      assert (a + b)[0] == a[0] && (a + b)[1..] == a[1..] + b;
    }
  }

  lemma GoodScoresCons(r: Record, rest: seq<Record>)
    ensures GoodScores([r] + rest) == (if r.defective then [] else [r.score]) + GoodScores(rest)
  {
    assert ([r] + rest)[1..] == rest;
  }

  lemma {:induction false} GoodScoresAppend(a: seq<Record>, b: seq<Record>)
    ensures GoodScores(a + b) == GoodScores(a) + GoodScores(b)
  {
    if a == [] {
      assert a + b == b;
    } else {
      var r, rest := a[0], a[1..];
      var head := if r.defective then [] else [r.score];
      calc {
        GoodScores(a + b);
        { assert a + b == [r] + (rest + b); }
        GoodScores([r] + (rest + b));
        { GoodScoresCons(r, rest + b); }
        head + GoodScores(rest + b);
        { GoodScoresAppend(rest, b); }
        head + (GoodScores(rest) + GoodScores(b));
        head + GoodScores(rest) + GoodScores(b);
        { GoodScoresCons(r, rest); assert a == [r] + rest; }
        GoodScores(a) + GoodScores(b);
      }
    }
  }
}
