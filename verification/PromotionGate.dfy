/** The dual promotion gate (`evaluate_dual_reference_promotion_comparison` in
    scripts/run_replay_lifecycle_cycle.py): what a chain of promotions can do to the metrics of the
    active classification model on one fixed gate panel. */
module PromotionGate {
  import opened ReplayEvents
  import opened Calibration
  import opened Arithmetic

  /** Metrics of one checkpoint on the gate panel. `thresholds` is None when calibration found no good score. */
  datatype Metrics = Metrics(
    falseNegatives: nat,
    goodRed: nat,
    imageRecall: Option<real>,
    imageAp: Option<real>,
    pixelAupimo: Option<real>,
    pixelAp: Option<real>,
    pixelAuroc: Option<real>,
    imageAuroc: Option<real>,
    thresholds: Option<Thresholds>)

  datatype Policy = Policy(
    p4Objective: bool,
    requireFnImprovement: bool,
    minRecallDelta: real,
    minApDelta: real,
    maxGoodRedRegression: int,
    localizationMinDelta: real,
    promotionMinDelta: real)

  /** Both values are known and the candidate's exceeds the active one's by more than `min`. */
  predicate Improves(active: Option<real>, candidate: Option<real>, min: real) {
    active.Some? && candidate.Some? && candidate.value - active.value > min
  }

  predicate ClassificationMetricOk(policy: Policy, active: Metrics, candidate: Metrics) {
    var fnImproved := candidate.falseNegatives < active.falseNegatives;
    var recallImproved := Improves(active.imageRecall, candidate.imageRecall, policy.minRecallDelta);
    var apImproved := Improves(active.imageAp, candidate.imageAp, policy.minApDelta);
    if policy.p4Objective then
      fnImproved || (candidate.falseNegatives <= active.falseNegatives && (recallImproved || apImproved))
    else if policy.requireFnImprovement then fnImproved
    else fnImproved || recallImproved || apImproved
  }

  predicate GoodRedOk(policy: Policy, active: Metrics, candidate: Metrics) {
    candidate.goodRed - active.goodRed <= policy.maxGoodRedRegression
  }

  predicate ClassificationPasses(policy: Policy, active: Metrics, candidate: Metrics) {
    && ClassificationMetricOk(policy, active, candidate)
    && GoodRedOk(policy, active, candidate)
    && candidate.thresholds.Some? && active.thresholds.Some?
  }

  /** The first metric of a priority list that both models have decides by its delta. */
  predicate SelectedImproves(pairs: seq<(Option<real>, Option<real>)>, min: real) {
    if pairs == [] then false
    else if pairs[0].0.Some? && pairs[0].1.Some? then Improves(pairs[0].0, pairs[0].1, min)
    else SelectedImproves(pairs[1..], min)
  }

  function LocalizationPairs(active: Metrics, candidate: Metrics): seq<(Option<real>, Option<real>)> {
    [(active.pixelAupimo, candidate.pixelAupimo), (active.pixelAp, candidate.pixelAp),
     (active.pixelAuroc, candidate.pixelAuroc)]
  }

  predicate LocalizationPasses(policy: Policy, active: Metrics, candidate: Metrics) {
    || SelectedImproves(LocalizationPairs(active, candidate), policy.localizationMinDelta)
    || (policy.p4Objective && candidate.falseNegatives < active.falseNegatives)
  }

  function BusinessPairs(active: Metrics, candidate: Metrics): seq<(Option<real>, Option<real>)> {
    [(active.pixelAupimo, candidate.pixelAupimo), (active.pixelAp, candidate.pixelAp),
     (active.imageAp, candidate.imageAp), (active.imageAuroc, candidate.imageAuroc)]
  }

  /** The single gate (`evaluate_reference_promotion_comparison` without dual promotion). */
  predicate ReferencePasses(policy: Policy, active: Metrics, candidate: Metrics) {
    && SelectedImproves(BusinessPairs(active, candidate), policy.promotionMinDelta)
    && candidate.thresholds.Some? && active.thresholds.Some?
    && candidate.falseNegatives <= active.falseNegatives
    && GoodRedOk(policy, active, candidate)
  }

  // ---------------------------------------------------------------------------- promotion chains

  /** The metrics of successive active models: each was promoted over the one before it. */
  ghost predicate PromotionChain(policy: Policy, chain: seq<Metrics>) {
    && chain != []
    && forall i :: 0 <= i < |chain| - 1 ==> ClassificationPasses(policy, chain[i], chain[i + 1])
  }

  /** Requiring fewer false negatives bounds the number of promotions by the false negatives of the first
      model, and every promotion pays at most the allowed number of good pieces turned red. */
  lemma {:induction false} RequiredImprovementBoundsChain(policy: Policy, chain: seq<Metrics>)
    requires PromotionChain(policy, chain) && !policy.p4Objective && policy.requireFnImprovement
    ensures forall i, j :: 0 <= i < j < |chain| ==> chain[j].falseNegatives < chain[i].falseNegatives
    ensures |chain| - 1 <= chain[0].falseNegatives - chain[|chain| - 1].falseNegatives
    ensures chain[|chain| - 1].goodRed <= chain[0].goodRed + policy.maxGoodRedRegression * (|chain| - 1)
  {
    if |chain| > 1 {
      var n := |chain| - 1;
      var shorter := chain[..n];
      RequiredImprovementBoundsChain(policy, shorter);
      assert ClassificationPasses(policy, chain[n - 1], chain[n - 1 + 1]);
      assert shorter[n - 1] == chain[n - 1];
      assert policy.maxGoodRedRegression * n == policy.maxGoodRedRegression * (n - 1) + policy.maxGoodRedRegression;
      forall i, j | 0 <= i < j < |chain| ensures chain[j].falseNegatives < chain[i].falseNegatives {
        if j == n {
          assert i == n - 1 || shorter[n - 1].falseNegatives < shorter[i].falseNegatives;
        } else {
          assert shorter[j].falseNegatives < shorter[i].falseNegatives;
        }
      }
    }
  }

  lemma ProductMonotone(k: int, a: int, b: int)
    requires 0 <= k && a <= b
    ensures k * a <= k * b
  {
    assert k * (b - a) >= 0;
  }

  /** With a non-negative allowance, good pieces turned red never exceed the first model's by more than the
      allowance for each of its false negatives. */
  lemma GoodRedBudget(policy: Policy, chain: seq<Metrics>)
    requires PromotionChain(policy, chain) && !policy.p4Objective && policy.requireFnImprovement
    requires 0 <= policy.maxGoodRedRegression
    ensures |chain| - 1 <= chain[0].falseNegatives
    ensures chain[|chain| - 1].goodRed <= chain[0].goodRed + policy.maxGoodRedRegression * chain[0].falseNegatives
  {
    RequiredImprovementBoundsChain(policy, chain);
    ProductMonotone(policy.maxGoodRedRegression, |chain| - 1, chain[0].falseNegatives);
  }

  /** Metrics as `compute_decision_metrics` produces them on a panel with this many defects: the recall
      follows from the false negatives, and an average precision lies in [0, 1]. */
  predicate OnPanel(m: Metrics, defects: nat) {
    && m.falseNegatives <= defects
    && m.imageRecall == Some(RecallOf(m.falseNegatives, defects))
    && (m.imageAp.Some? ==> 0.0 <= m.imageAp.value <= 1.0)
  }

  lemma RecallDependsOnMissed(missed: nat, missed': nat, defects: nat)
    requires missed <= missed' <= defects
    ensures RecallOf(missed', defects) <= RecallOf(missed, defects)
  {
    if defects > 0 { FractionMonotone(missed as real, missed' as real, defects as real); }
  }

  /** An improved recall on the same panel means fewer false negatives. */
  lemma RecallImprovesWithFewerMisses(active: Metrics, candidate: Metrics, defects: nat, min: real)
    requires OnPanel(active, defects) && OnPanel(candidate, defects) && 0.0 <= min
    requires Improves(active.imageRecall, candidate.imageRecall, min)
    ensures candidate.falseNegatives < active.falseNegatives
  {
    if active.falseNegatives <= candidate.falseNegatives {
      RecallDependsOnMissed(active.falseNegatives, candidate.falseNegatives, defects);
    }
  }

  /** Fewer false negatives, or as many with a higher average precision. */
  predicate Better(active: Metrics, candidate: Metrics) {
    || candidate.falseNegatives < active.falseNegatives
    || (candidate.falseNegatives == active.falseNegatives && Improves(active.imageAp, candidate.imageAp, 0.0))
  }

  /** Under the P4 objective every promotion is a strict lexicographic improvement. */
  lemma P4PromotionIsBetter(policy: Policy, active: Metrics, candidate: Metrics, defects: nat)
    requires policy.p4Objective && 0.0 <= policy.minRecallDelta && 0.0 <= policy.minApDelta
    requires OnPanel(active, defects) && OnPanel(candidate, defects)
    requires ClassificationPasses(policy, active, candidate)
    ensures Better(active, candidate)
  {
    if Improves(active.imageRecall, candidate.imageRecall, policy.minRecallDelta) {
      RecallImprovesWithFewerMisses(active, candidate, defects, policy.minRecallDelta);
    }
  }

  lemma RecallGain(missed: nat, missed': nat, defects: nat, min: real)
    requires missed <= defects && missed' <= defects && defects > 0
    ensures RecallOf(missed', defects) - RecallOf(missed, defects) > min
       <==> (missed - missed') as real > min * defects as real
  {
    var d, gain := defects as real, RecallOf(missed', defects) - RecallOf(missed, defects);
    assert missed as real / d * d == missed as real && missed' as real / d * d == missed' as real;
    assert gain == missed as real / d - missed' as real / d;
    assert gain * d == missed as real / d * d - missed' as real / d * d;
    if gain > min { Scaled(min, gain, d); } else { ScaledAtMost(gain, min, d); }
  }

  lemma Scaled(x: real, y: real, d: real)
    requires x < y && d > 0.0
    ensures x * d < y * d
  {
    assert (y - x) * d == y * d - x * d;
  }

  lemma ScaledAtMost(x: real, y: real, d: real)
    requires x <= y && d > 0.0
    ensures x * d <= y * d
  {
  }

  /** The classification gate on a panel with defects, told by misses: with a recall margin that is not negative, a
      higher recall never promotes what fewer misses would not. */
  lemma ClassificationOnPanel(policy: Policy, active: Metrics, candidate: Metrics, defects: nat)
    requires OnPanel(active, defects) && OnPanel(candidate, defects) && defects > 0
    ensures var fewer, asMany := candidate.falseNegatives < active.falseNegatives,
        candidate.falseNegatives == active.falseNegatives;
      var caught := active.falseNegatives - candidate.falseNegatives;
      var recalled := caught as real > policy.minRecallDelta * defects as real;
      var sharper := active.imageAp.Some? && candidate.imageAp.Some?
        && candidate.imageAp.value - active.imageAp.value > policy.minApDelta;
      ClassificationPasses(policy, active, candidate)
      <==> && active.thresholds.Some? && candidate.thresholds.Some?
           && candidate.goodRed <= active.goodRed + policy.maxGoodRedRegression
           && (if policy.p4Objective then fewer || (asMany && (policy.minRecallDelta < 0.0 || sharper))
               else if policy.requireFnImprovement then fewer
               else fewer || (policy.minRecallDelta < 0.0 && recalled) || sharper)
  {
    var a, c := active.falseNegatives, candidate.falseNegatives;
    RecallGain(a, c, defects, policy.minRecallDelta);
    if policy.minRecallDelta >= 0.0 && Improves(active.imageRecall, candidate.imageRecall, policy.minRecallDelta) {
      RecallImprovesWithFewerMisses(active, candidate, defects, policy.minRecallDelta);
    }
  }

  // ---------------------------------------------------------------------------- no model comes back

  /** The policies under which promotions follow a strict order. */
  predicate Acyclic(policy: Policy) {
    || policy.maxGoodRedRegression < 0
    || (if policy.p4Objective then policy.minRecallDelta >= 0.0 && policy.minApDelta >= 0.0
        else policy.requireFnImprovement || (policy.minRecallDelta >= 0.0 && policy.minApDelta >= 1.0))
  }

  /** What strictly falls along a chain under an acyclic policy. */
  predicate Below(policy: Policy, active: Metrics, candidate: Metrics) {
    if policy.maxGoodRedRegression < 0 then candidate.goodRed < active.goodRed
    else if policy.p4Objective then Better(active, candidate)
    else candidate.falseNegatives < active.falseNegatives
  }

  lemma AcyclicStep(policy: Policy, active: Metrics, candidate: Metrics, defects: nat)
    requires Acyclic(policy)
    requires OnPanel(active, defects) && OnPanel(candidate, defects)
    requires ClassificationPasses(policy, active, candidate)
    ensures Below(policy, active, candidate)
  {
    if policy.maxGoodRedRegression < 0 {
    } else if policy.p4Objective {
      P4PromotionIsBetter(policy, active, candidate, defects);
    } else if !policy.requireFnImprovement
      && Improves(active.imageRecall, candidate.imageRecall, policy.minRecallDelta) {
      RecallImprovesWithFewerMisses(active, candidate, defects, policy.minRecallDelta);
    }
  }

  lemma {:induction false} ChainFalls(policy: Policy, chain: seq<Metrics>, defects: nat, i: nat, j: nat)
    requires Acyclic(policy) && PromotionChain(policy, chain) && forall m :: m in chain ==> OnPanel(m, defects)
    requires i < j < |chain|
    ensures Below(policy, chain[i], chain[j])
    decreases j
  {
    AcyclicStep(policy, chain[j - 1], chain[j - 1 + 1], defects);
    if i < j - 1 { ChainFalls(policy, chain, defects, i, j - 1); }
  }

  /** Under an acyclic policy no model is ever promoted twice in a run. */
  lemma NoModelReturns(policy: Policy, chain: seq<Metrics>, defects: nat)
    requires Acyclic(policy) && PromotionChain(policy, chain) && forall m :: m in chain ==> OnPanel(m, defects)
    ensures forall i, j :: 0 <= i < j < |chain| ==> chain[i] != chain[j]
  {
    forall i, j | 0 <= i < j < |chain| ensures chain[i] != chain[j] { ChainFalls(policy, chain, defects, i, j); }
  }

  // ---------------------------------------------------------------------------- calibrated metrics

  /** The classification metrics of a model are those of its scores on a panel, after calibration on the good
      scores; its pixel metrics may be anything. */
  predicate Calibrated(m: Metrics, images: seq<Record>) {
    && GoodScores(images) != []
    && var t := CalibratedThresholds(images).value;
      && m.falseNegatives == FalseNegatives(images, t)
      && m.goodRed == GoodRed(images, t)
      && m.imageRecall == Some(Recall(images, t))
      && m.imageAp == AveragePrecision(images)
      && m.thresholds == Some(t)
  }

  /** Such metrics without any pixel metric. */
  function CalibratedMetrics(images: seq<Record>): (m: Metrics)
    requires GoodScores(images) != []
    ensures Calibrated(m, images)
  {
    var t := CalibratedThresholds(images).value;
    Metrics(FalseNegatives(images, t), GoodRed(images, t), Some(Recall(images, t)), AveragePrecision(images), None,
            None, None, None, Some(t))
  }

  lemma CalibratedOnPanel(m: Metrics, images: seq<Record>)
    requires Calibrated(m, images)
    ensures OnPanel(m, Defects(images))
  {
    RecallFromFalseNegatives(images, CalibratedThresholds(images).value);
    AveragePrecisionRange(images);
  }

  /** When the candidate's good scores do not tie at the red rank, the good-red guard cannot reject it. */
  lemma UntiedCandidatePassesGoodRedGuard(policy: Policy, active: seq<Record>, candidate: seq<Record>, a: Metrics,
                                          c: Metrics)
    requires 0 <= policy.maxGoodRedRegression && Calibrated(a, active) && Calibrated(c, candidate)
    requires |GoodScores(active)| == |GoodScores(candidate)|
    requires UntiedAtRank(GoodScores(candidate), RED_QUANTILE)
    ensures GoodRedOk(policy, a, c)
  {
    SamePanelGoodRedDelta(active, candidate);
  }
}
