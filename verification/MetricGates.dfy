/** The two gates of `run_replay_lifecycle_cycle.py` that compare one metric: localization under dual promotion, and
    the single reference gate. Both decide by the first metric of a priority list that the two models have. */
module MetricGates {
  import opened ReplayEvents
  import opened Calibration
  import opened Arithmetic
  import opened PromotionGate
  import opened PolicyCycles

  // ---------------------------------------------------------------------------- the deciding metric

  function LocalizationMetrics(m: Metrics): seq<Option<real>> { [m.pixelAupimo, m.pixelAp, m.pixelAuroc] }

  function BusinessMetrics(m: Metrics): seq<Option<real>> { [m.pixelAupimo, m.pixelAp, m.imageAp, m.imageAuroc] }

  /** Both models have the same metrics, as on one panel evaluated with one profile. */
  predicate Alike(xs: seq<Option<real>>, ys: seq<Option<real>>) {
    |xs| == |ys| && forall i :: 0 <= i < |xs| ==> (xs[i].Some? <==> ys[i].Some?)
  }

  /** Scores and areas lie in [0, 1]. */
  predicate UnitValues(xs: seq<Option<real>>) {
    forall i :: 0 <= i < |xs| ==> (xs[i].Some? ==> 0.0 <= xs[i].value <= 1.0)
  }

  /** The first metric a model has. */
  function Deciding(xs: seq<Option<real>>): Option<real> {
    if xs == [] then None else if xs[0].Some? then xs[0] else Deciding(xs[1..])
  }

  function Paired(xs: seq<Option<real>>, ys: seq<Option<real>>): seq<(Option<real>, Option<real>)>
    requires |xs| == |ys|
  {
    seq(|xs|, i requires 0 <= i < |xs| => (xs[i], ys[i]))
  }

  lemma {:induction false} DecidingDecides(xs: seq<Option<real>>, ys: seq<Option<real>>, min: real)
    requires Alike(xs, ys)
    ensures SelectedImproves(Paired(xs, ys), min) <==> Improves(Deciding(xs), Deciding(ys), min)
  {
    if xs != [] && xs[0].None? {
      assert Alike(xs[1..], ys[1..]) by {
        forall i | 0 <= i < |xs[1..]| ensures xs[1..][i].Some? <==> ys[1..][i].Some? {
          assert xs[1..][i] == xs[i + 1] && ys[1..][i] == ys[i + 1];
        }
      }
      DecidingDecides(xs[1..], ys[1..], min);
      assert Paired(xs, ys)[1..] == Paired(xs[1..], ys[1..]);
    }
  }

  lemma {:induction false} DecidingInRange(xs: seq<Option<real>>)
    requires UnitValues(xs)
    ensures Deciding(xs).Some? ==> 0.0 <= Deciding(xs).value <= 1.0
  {
    if xs != [] && xs[0].None? {
      assert forall i :: 0 <= i < |xs[1..]| ==> xs[1..][i] == xs[i + 1];
      DecidingInRange(xs[1..]);
    }
  }

  /** No value in [0, 1] exceeds another by more than 1. */
  lemma {:induction false} NoUnitImprovement(xs: seq<Option<real>>, ys: seq<Option<real>>, min: real)
    requires |xs| == |ys| && UnitValues(xs) && UnitValues(ys) && min >= 1.0
    ensures !SelectedImproves(Paired(xs, ys), min)
  {
    if xs != [] && !(xs[0].Some? && ys[0].Some?) {
      assert forall i :: 0 <= i < |xs[1..]| ==> xs[1..][i] == xs[i + 1] && ys[1..][i] == ys[i + 1];
      NoUnitImprovement(xs[1..], ys[1..], min);
      assert Paired(xs, ys)[1..] == Paired(xs[1..], ys[1..]);
    }
  }

  lemma SecondDecides(pairs: seq<(Option<real>, Option<real>)>, min: real)
    requires |pairs| >= 2 && !(pairs[0].0.Some? && pairs[0].1.Some?) && pairs[1].0.Some? && pairs[1].1.Some?
    ensures SelectedImproves(pairs, min) <==> Improves(pairs[1].0, pairs[1].1, min)
  {
    assert pairs[1..][0] == pairs[1];
  }

  lemma ThirdDecides(pairs: seq<(Option<real>, Option<real>)>, min: real)
    requires |pairs| >= 3 && !(pairs[0].0.Some? && pairs[0].1.Some?) && !(pairs[1].0.Some? && pairs[1].1.Some?)
    requires pairs[2].0.Some? && pairs[2].1.Some?
    ensures SelectedImproves(pairs, min) <==> Improves(pairs[2].0, pairs[2].1, min)
  {
    assert pairs[1..][0] == pairs[1] && pairs[1..][1] == pairs[2];
    SecondDecides(pairs[1..], min);
  }

  lemma FirstOfPairs(first: (Option<real>, Option<real>), rest: seq<(Option<real>, Option<real>)>, min: real)
    ensures SelectedImproves([first] + rest, min)
      == if first.0.Some? && first.1.Some? then first.1.value - first.0.value > min else SelectedImproves(rest, min)
  {
    assert ([first] + rest)[1..] == rest;
  }

  /** Localization promotes by AUPIMO where both models have it, else by pixel AP, else by pixel AUROC; under the P4
      objective also by fewer misses; without a shared metric by nothing else. */
  lemma LocalizationPriority(policy: Policy, active: Metrics, candidate: Metrics)
    ensures var margin := policy.localizationMinDelta;
      LocalizationPasses(policy, active, candidate)
      <==> || (policy.p4Objective && candidate.falseNegatives < active.falseNegatives)
           || (if active.pixelAupimo.Some? && candidate.pixelAupimo.Some?
                 then candidate.pixelAupimo.value - active.pixelAupimo.value > margin
               else if active.pixelAp.Some? && candidate.pixelAp.Some?
                 then candidate.pixelAp.value - active.pixelAp.value > margin
               else active.pixelAuroc.Some? && candidate.pixelAuroc.Some?
                    && candidate.pixelAuroc.value - active.pixelAuroc.value > margin)
  {
    var a, b, c := (active.pixelAupimo, candidate.pixelAupimo), (active.pixelAp, candidate.pixelAp),
      (active.pixelAuroc, candidate.pixelAuroc);
    FirstOfPairs(a, [b, c], policy.localizationMinDelta);
    FirstOfPairs(b, [c], policy.localizationMinDelta);
    FirstOfPairs(c, [], policy.localizationMinDelta);
    assert LocalizationPairs(active, candidate) == [a] + [b, c] && [b, c] == [b] + [c] && [c] == [c] + [];
  }

  /** The single gate decides by AUPIMO where both models have it, else by pixel AP, image AP, image AUROC; without a
      shared metric it never promotes, nor with more misses or too many more good images called red. */
  lemma ReferencePriority(policy: Policy, active: Metrics, candidate: Metrics)
    ensures var margin := policy.promotionMinDelta;
      ReferencePasses(policy, active, candidate)
      <==> && candidate.thresholds.Some? && active.thresholds.Some?
           && candidate.falseNegatives <= active.falseNegatives
           && candidate.goodRed <= active.goodRed + policy.maxGoodRedRegression
           && (if active.pixelAupimo.Some? && candidate.pixelAupimo.Some?
                 then candidate.pixelAupimo.value - active.pixelAupimo.value > margin
               else if active.pixelAp.Some? && candidate.pixelAp.Some?
                 then candidate.pixelAp.value - active.pixelAp.value > margin
               else if active.imageAp.Some? && candidate.imageAp.Some?
                 then candidate.imageAp.value - active.imageAp.value > margin
               else active.imageAuroc.Some? && candidate.imageAuroc.Some?
                    && candidate.imageAuroc.value - active.imageAuroc.value > margin)
  {
    var a, b := (active.pixelAupimo, candidate.pixelAupimo), (active.pixelAp, candidate.pixelAp);
    var c, d := (active.imageAp, candidate.imageAp), (active.imageAuroc, candidate.imageAuroc);
    FirstOfPairs(a, [b, c, d], policy.promotionMinDelta);
    FirstOfPairs(b, [c, d], policy.promotionMinDelta);
    FirstOfPairs(c, [d], policy.promotionMinDelta);
    FirstOfPairs(d, [], policy.promotionMinDelta);
    assert BusinessPairs(active, candidate) == [a] + [b, c, d] && [b, c, d] == [b] + [c, d];
    assert [c, d] == [c] + [d] && [d] == [d] + [];
  }

  // ---------------------------------------------------------------------------- localization

  ghost predicate UnitLocalization(chain: seq<Metrics>) {
    forall m :: m in chain ==> UnitValues(LocalizationMetrics(m))
  }

  /** The metrics of successive active localization models. */
  ghost predicate LocalizationChain(policy: Policy, chain: seq<Metrics>) {
    forall i :: 0 <= i < |chain| - 1 ==> LocalizationPasses(policy, chain[i], chain[i + 1])
  }

  /** Metrics from one panel. */
  ghost predicate OneLocalizationPanel(chain: seq<Metrics>) {
    && (forall m, n :: m in chain && n in chain ==> Alike(LocalizationMetrics(m), LocalizationMetrics(n)))
    && UnitLocalization(chain)
  }

  /** The policies under which localization promotions follow a strict order. With the P4 objective fewer false
      negatives are enough, whatever they cost in pixel metrics. */
  predicate LocalizationAcyclic(policy: Policy) {
    if policy.p4Objective then policy.localizationMinDelta >= 1.0 else policy.localizationMinDelta >= 0.0
  }

  lemma LocalizationDecides(policy: Policy, active: Metrics, candidate: Metrics)
    requires Alike(LocalizationMetrics(active), LocalizationMetrics(candidate))
    ensures LocalizationPasses(policy, active, candidate)
      <==> || Improves(Deciding(LocalizationMetrics(active)), Deciding(LocalizationMetrics(candidate)),
                       policy.localizationMinDelta)
           || (policy.p4Objective && candidate.falseNegatives < active.falseNegatives)
  {
    assert LocalizationPairs(active, candidate) == Paired(LocalizationMetrics(active), LocalizationMetrics(candidate));
    DecidingDecides(LocalizationMetrics(active), LocalizationMetrics(candidate), policy.localizationMinDelta);
  }

  /** Above a margin of 1 no pixel metric can promote. */
  lemma LocalizationNeedsFewerMisses(policy: Policy, active: Metrics, candidate: Metrics)
    requires policy.localizationMinDelta >= 1.0 && LocalizationPasses(policy, active, candidate)
    requires UnitValues(LocalizationMetrics(active)) && UnitValues(LocalizationMetrics(candidate))
    ensures policy.p4Objective && candidate.falseNegatives < active.falseNegatives
  {
    assert LocalizationPairs(active, candidate) == Paired(LocalizationMetrics(active), LocalizationMetrics(candidate));
    NoUnitImprovement(LocalizationMetrics(active), LocalizationMetrics(candidate), policy.localizationMinDelta);
  }

  lemma {:induction false} MissesFall(policy: Policy, chain: seq<Metrics>, i: nat, j: nat)
    requires policy.localizationMinDelta >= 1.0 && LocalizationChain(policy, chain)
    requires UnitLocalization(chain)
    requires i < j < |chain|
    ensures policy.p4Objective && chain[j].falseNegatives < chain[i].falseNegatives
    decreases j
  {
    assert LocalizationPasses(policy, chain[j - 1], chain[j - 1 + 1]);
    LocalizationNeedsFewerMisses(policy, chain[j - 1], chain[j]);
    if i < j - 1 { MissesFall(policy, chain, i, j - 1); }
  }

  /** What this many promotions gain at least. */
  function Gain(promotions: int, margin: real): real { promotions as real * margin }

  lemma NextGain(n: nat, margin: real)
    ensures Gain(n + 1, margin) == Gain(n, margin) + margin && Gain(1, margin) == margin
  {
  }

  lemma GainNotNegative(n: nat, margin: real)
    requires 0.0 <= margin
    ensures 0.0 <= Gain(n, margin)
  {
  }

  /** Without the P4 objective each promotion raises the deciding pixel metric by more than the margin. */
  lemma {:induction false} LocalizationRises(policy: Policy, chain: seq<Metrics>, i: nat, j: nat)
    requires !policy.p4Objective && LocalizationChain(policy, chain) && OneLocalizationPanel(chain)
    requires i < j < |chain|
    ensures var first, last := Deciding(LocalizationMetrics(chain[i])), Deciding(LocalizationMetrics(chain[j]));
      first.Some? && last.Some? && last.value - first.value > Gain(j - i, policy.localizationMinDelta)
    decreases j
  {
    assert LocalizationPasses(policy, chain[j - 1], chain[j - 1 + 1]);
    LocalizationDecides(policy, chain[j - 1], chain[j]);
    NextGain(j - 1 - i, policy.localizationMinDelta);
    if i < j - 1 { LocalizationRises(policy, chain, i, j - 1); }
  }

  /** With a positive margin a chain has fewer promotions than margins fit between 0 and 1. */
  lemma LocalizationPromotionsBounded(policy: Policy, chain: seq<Metrics>)
    requires !policy.p4Objective && LocalizationChain(policy, chain) && OneLocalizationPanel(chain) && |chain| > 1
    ensures Gain(|chain| - 1, policy.localizationMinDelta) < 1.0
  {
    var n := |chain| - 1;
    LocalizationRises(policy, chain, 0, n);
    assert chain[0] in chain && chain[n] in chain;
    DecidingInRange(LocalizationMetrics(chain[0]));
    DecidingInRange(LocalizationMetrics(chain[n]));
  }

  /** Under such a policy no localization model of one panel comes back. */
  lemma NoLocalizationReturns(policy: Policy, chain: seq<Metrics>)
    requires LocalizationAcyclic(policy) && LocalizationChain(policy, chain) && OneLocalizationPanel(chain)
    ensures forall i, j :: 0 <= i < j < |chain| ==> chain[i] != chain[j]
  {
    forall i, j | 0 <= i < j < |chain| ensures chain[i] != chain[j] {
      if policy.p4Objective {
        MissesFall(policy, chain, i, j);
      } else {
        LocalizationRises(policy, chain, i, j);
        GainNotNegative(j - i, policy.localizationMinDelta);
      }
    }
  }

  /** Metrics m and n of two models with scores a and b on one panel, each promoted over the other. */
  ghost predicate LocalizationSwap(policy: Policy, m: Metrics, n: Metrics, a: seq<Record>, b: seq<Record>) {
    && SamePanel(a, b) && Calibrated(m, a) && Calibrated(n, b)
    && OneLocalizationPanel([m, n])
    && LocalizationPasses(policy, m, n) && LocalizationPasses(policy, n, m)
  }

  function WithPixelAp(m: Metrics, ap: real): Metrics { m.(pixelAp := Some(ap)) }

  lemma PixelApDecides(m: Metrics, n: Metrics, x: real, y: real)
    requires m.pixelAupimo.None? && m.pixelAuroc.None? && n.pixelAupimo.None? && n.pixelAuroc.None?
    requires 0.0 <= x <= 1.0 && 0.0 <= y <= 1.0
    ensures OneLocalizationPanel([WithPixelAp(m, x), WithPixelAp(n, y)])
    ensures Deciding(LocalizationMetrics(WithPixelAp(m, x))) == Some(x)
    ensures Deciding(LocalizationMetrics(WithPixelAp(n, y))) == Some(y)
  {
    assert LocalizationMetrics(WithPixelAp(m, x))[1..] == [Some(x), None];
    assert LocalizationMetrics(WithPixelAp(n, y))[1..] == [Some(y), None];
  }

  /** A model that misses the only defect and one that misses nothing, on one panel. */
  lemma OneMissOrNone(k: nat)
    requires k >= 1
    ensures TellsNothing(k) != MissesNothing(1, k) && SamePanel(TellsNothing(k), MissesNothing(1, k))
    ensures GoodScores(TellsNothing(k)) != [] && GoodScores(MissesNothing(1, k)) != []
    ensures CalibratedMetrics(TellsNothing(k)).falseNegatives == 1
    ensures CalibratedMetrics(MissesNothing(1, k)).falseNegatives == 0
  {
    TellsNothingMetrics(k);
    MissesNothingGoodRed(k);
    assert TellsNothing(k)[0].score == 1.0 && MissesNothing(1, k)[0].score == 0.0;
  }

  lemma PixelApAgainstMisses(policy: Policy, m: Metrics, n: Metrics, a: seq<Record>, b: seq<Record>, x: real)
    requires SamePanel(a, b) && Calibrated(m, a) && Calibrated(n, b)
    requires m.pixelAupimo.None? && m.pixelAuroc.None? && n.pixelAupimo.None? && n.pixelAuroc.None?
    requires n.falseNegatives < m.falseNegatives && 0.0 <= x <= 1.0 && x > policy.localizationMinDelta
    requires policy.p4Objective || -x > policy.localizationMinDelta
    ensures LocalizationSwap(policy, WithPixelAp(m, x), WithPixelAp(n, 0.0), a, b)
  {
    PixelApDecides(m, n, x, 0.0);
    var p, q := WithPixelAp(m, x), WithPixelAp(n, 0.0);
    assert p in [p, q] && q in [p, q];
    LocalizationDecides(policy, p, q);
    LocalizationDecides(policy, q, p);
  }

  /** A model that misses the only defect but locates well, and one that misses nothing and locates badly: the
      first replaces the second by its pixel metric, the second the first by its false negatives. */
  lemma OtherLocalizationPoliciesSwap(policy: Policy) returns (m: Metrics, n: Metrics, a: seq<Record>, b: seq<Record>)
    requires !LocalizationAcyclic(policy)
    ensures LocalizationSwap(policy, m, n, a, b) && a != b
  {
    var k := EnoughTied(policy);
    OneMissOrNone(k);
    a, b := TellsNothing(k), MissesNothing(1, k);
    var x := if policy.p4Objective then 1.0 else 0.0;
    m, n := WithPixelAp(CalibratedMetrics(a), x), WithPixelAp(CalibratedMetrics(b), 0.0);
    PixelApAgainstMisses(policy, CalibratedMetrics(a), CalibratedMetrics(b), a, b, x);
  }

  lemma NoLocalizationSwap(policy: Policy, m: Metrics, n: Metrics, a: seq<Record>, b: seq<Record>)
    requires LocalizationAcyclic(policy)
    ensures !LocalizationSwap(policy, m, n, a, b)
  {
    if LocalizationSwap(policy, m, n, a, b) {
      var chain := [m, n, m];
      assert chain[0] == m && chain[1] == n && chain[2] == m;
      assert forall x :: x in chain ==> x in [m, n];
      NoLocalizationReturns(policy, chain);
      assert false;
    }
  }

  /** Exactly under these policies no two localization models of one panel replace each other. */
  lemma LocalizationAcyclicExactly(policy: Policy)
    ensures LocalizationAcyclic(policy) <==> forall m, n, a, b :: !LocalizationSwap(policy, m, n, a, b)
  {
    if LocalizationAcyclic(policy) {
      forall m, n, a, b ensures !LocalizationSwap(policy, m, n, a, b) { NoLocalizationSwap(policy, m, n, a, b); }
    } else {
      var m, n, a, b := OtherLocalizationPoliciesSwap(policy);
    }
  }

  // ---------------------------------------------------------------------------- the single gate

  ghost predicate ReferenceChain(policy: Policy, chain: seq<Metrics>) {
    forall i :: 0 <= i < |chain| - 1 ==> ReferencePasses(policy, chain[i], chain[i + 1])
  }

  ghost predicate OneReferencePanel(chain: seq<Metrics>) {
    forall m, n :: m in chain && n in chain ==> Alike(BusinessMetrics(m), BusinessMetrics(n))
  }

  ghost predicate UnitBusiness(chain: seq<Metrics>) {
    forall m :: m in chain ==> UnitValues(BusinessMetrics(m))
  }

  predicate ReferenceAcyclic(policy: Policy) {
    policy.maxGoodRedRegression < 0 || policy.promotionMinDelta >= 0.0
  }

  lemma ReferenceDecides(policy: Policy, active: Metrics, candidate: Metrics)
    requires Alike(BusinessMetrics(active), BusinessMetrics(candidate)) && ReferencePasses(policy, active, candidate)
    ensures Improves(Deciding(BusinessMetrics(active)), Deciding(BusinessMetrics(candidate)), policy.promotionMinDelta)
  {
    assert BusinessPairs(active, candidate) == Paired(BusinessMetrics(active), BusinessMetrics(candidate));
    DecidingDecides(BusinessMetrics(active), BusinessMetrics(candidate), policy.promotionMinDelta);
  }

  /** Under the single gate a promotion never misses more, and raises the deciding metric by more than the margin. */
  lemma {:induction false} ReferenceRises(policy: Policy, chain: seq<Metrics>, i: nat, j: nat)
    requires ReferenceChain(policy, chain) && OneReferencePanel(chain) && i < j < |chain|
    ensures chain[j].falseNegatives <= chain[i].falseNegatives
    ensures var first, last := Deciding(BusinessMetrics(chain[i])), Deciding(BusinessMetrics(chain[j]));
      first.Some? && last.Some? && last.value - first.value > Gain(j - i, policy.promotionMinDelta)
    decreases j
  {
    assert ReferencePasses(policy, chain[j - 1], chain[j - 1 + 1]);
    ReferenceDecides(policy, chain[j - 1], chain[j]);
    NextGain(j - 1 - i, policy.promotionMinDelta);
    if i < j - 1 { ReferenceRises(policy, chain, i, j - 1); }
  }

  lemma {:induction false} GoodRedFalls(policy: Policy, chain: seq<Metrics>, i: nat, j: nat)
    requires ReferenceChain(policy, chain) && policy.maxGoodRedRegression < 0 && i < j < |chain|
    ensures chain[j].goodRed < chain[i].goodRed
    decreases j
  {
    assert ReferencePasses(policy, chain[j - 1], chain[j - 1 + 1]);
    if i < j - 1 { GoodRedFalls(policy, chain, i, j - 1); }
  }

  /** Under such a policy no model of one reference panel comes back. */
  lemma NoReferenceReturns(policy: Policy, chain: seq<Metrics>)
    requires ReferenceAcyclic(policy) && ReferenceChain(policy, chain) && OneReferencePanel(chain)
    ensures forall i, j :: 0 <= i < j < |chain| ==> chain[i] != chain[j]
  {
    forall i, j | 0 <= i < j < |chain| ensures chain[i] != chain[j] {
      if policy.maxGoodRedRegression < 0 {
        GoodRedFalls(policy, chain, i, j);
      } else {
        ReferenceRises(policy, chain, i, j);
        GainNotNegative(j - i, policy.promotionMinDelta);
      }
    }
  }

  ghost predicate ReferenceSwap(policy: Policy, m: Metrics, n: Metrics, a: seq<Record>, b: seq<Record>) {
    && SamePanel(a, b) && Calibrated(m, a) && Calibrated(n, b)
    && OneReferencePanel([m, n])
    && ReferencePasses(policy, m, n) && ReferencePasses(policy, n, m)
  }

  lemma EqualMetricsPass(policy: Policy, m: Metrics)
    requires !ReferenceAcyclic(policy) && m.thresholds.Some?
    requires m.pixelAupimo.None? && m.pixelAp.None? && m.imageAp.Some?
    ensures ReferencePasses(policy, m, m) && OneReferencePanel([m, m])
  {
    ThirdDecides(BusinessPairs(m, m), policy.promotionMinDelta);
  }

  lemma TwinsSwap(policy: Policy, d: nat, k: nat)
    requires !ReferenceAcyclic(policy) && d >= 2 && k >= 1
    ensures GoodScores(RanksWell(d, k)) != [] && GoodScores(RanksWellToo(d, k)) != []
    ensures ReferenceSwap(policy, CalibratedMetrics(RanksWell(d, k)), CalibratedMetrics(RanksWellToo(d, k)),
                          RanksWell(d, k), RanksWellToo(d, k))
    ensures RanksWell(d, k) != RanksWellToo(d, k)
  {
    TwinMetrics(d, k);
    WitnessMetrics(d, k);
    EqualMetricsPass(policy, CalibratedMetrics(RanksWell(d, k)));
  }

  lemma NoReferenceSwap(policy: Policy, m: Metrics, n: Metrics, a: seq<Record>, b: seq<Record>)
    requires ReferenceAcyclic(policy)
    ensures !ReferenceSwap(policy, m, n, a, b)
  {
    if ReferenceSwap(policy, m, n, a, b) {
      var chain := [m, n, m];
      assert chain[0] == m && chain[1] == n && chain[2] == m;
      assert forall x :: x in chain ==> x in [m, n];
      NoReferenceReturns(policy, chain);
      assert false;
    }
  }

  /** Exactly under these policies no two models of one reference panel replace each other. */
  lemma ReferenceAcyclicExactly(policy: Policy)
    ensures ReferenceAcyclic(policy) <==> forall m, n, a, b :: !ReferenceSwap(policy, m, n, a, b)
  {
    if ReferenceAcyclic(policy) {
      forall m, n, a, b ensures !ReferenceSwap(policy, m, n, a, b) { NoReferenceSwap(policy, m, n, a, b); }
    } else {
      TwinsSwap(policy, 2, 1);
    }
  }

  // ---------------------------------------------------------------------------- models that lack a metric

  ghost predicate NoneReturns(chain: seq<Metrics>) {
    forall i, j :: 0 <= i < j < |chain| ==> chain[i] != chain[j]
  }

  /** Three models that lack one pixel metric each, so that every comparison is decided by another one. */
  lemma LocalizationCircle(policy: Policy, m: Metrics) returns (a: Metrics, b: Metrics, c: Metrics)
    requires policy.localizationMinDelta < 1.0
    ensures LocalizationPasses(policy, a, b) && LocalizationPasses(policy, b, c) && LocalizationPasses(policy, c, a)
    ensures UnitLocalization([a, b, c])
    ensures forall images :: Calibrated(m, images) ==>
      Calibrated(a, images) && Calibrated(b, images) && Calibrated(c, images)
  {
    a := m.(pixelAupimo := Some(1.0), pixelAp := Some(0.0), pixelAuroc := None);
    b := m.(pixelAupimo := None, pixelAp := Some(1.0), pixelAuroc := Some(0.0));
    c := m.(pixelAupimo := Some(0.0), pixelAp := None, pixelAuroc := Some(1.0));
    SecondDecides(LocalizationPairs(a, b), policy.localizationMinDelta);
    ThirdDecides(LocalizationPairs(b, c), policy.localizationMinDelta);
  }

  /** When models may lack different pixel metrics, only a margin of 1 keeps localization models from coming back. */
  lemma MixedLocalizationExactly(policy: Policy, m: Metrics)
    ensures policy.localizationMinDelta >= 1.0
      <==> forall chain :: LocalizationChain(policy, chain) && UnitLocalization(chain) ==> NoneReturns(chain)
  {
    if policy.localizationMinDelta >= 1.0 {
      forall chain | LocalizationChain(policy, chain) && UnitLocalization(chain)
        ensures NoneReturns(chain)
      {
        forall i, j | 0 <= i < j < |chain| ensures chain[i] != chain[j] { MissesFall(policy, chain, i, j); }
      }
    } else {
      var a, b, c := LocalizationCircle(policy, m);
      var chain := [a, b, c, a];
      assert chain[0] == chain[3] && forall x :: x in chain ==> x in [a, b, c];
      assert LocalizationChain(policy, chain);
    }
  }

  /** Three models on one panel that lack different metrics are promoted in a circle by the single gate. */
  lemma ReferenceCircle(policy: Policy) returns (a: Metrics, b: Metrics, c: Metrics, ab: seq<Record>, cs: seq<Record>)
    requires policy.maxGoodRedRegression >= 0 && policy.promotionMinDelta < 1.0
    ensures SamePanel(cs, ab) && Calibrated(a, ab) && Calibrated(b, ab) && Calibrated(c, cs)
    ensures ReferencePasses(policy, a, b) && ReferencePasses(policy, b, c) && ReferencePasses(policy, c, a)
    ensures UnitBusiness([a, b, c])
  {
    var d := EnoughDefects(policy.promotionMinDelta);
    var k := EnoughGood(policy.promotionMinDelta, d);
    MarginReached(policy.promotionMinDelta);
    WitnessMetrics(d, k);
    BadMetrics(d, k);
    ab, cs := RanksBadly(d, k), RanksWell(d, k);
    AveragePrecisionRange(ab);
    AveragePrecisionRange(cs);
    a, b, c := CircleOf(policy, CalibratedMetrics(ab), CalibratedMetrics(cs));
  }

  lemma CircleOf(policy: Policy, badly: Metrics, well: Metrics) returns (a: Metrics, b: Metrics, c: Metrics)
    requires policy.maxGoodRedRegression >= 0 && policy.promotionMinDelta < 1.0
    requires badly.thresholds.Some? && well.thresholds.Some? && badly.imageAuroc.None? && well.imageAuroc.None?
    requires badly.falseNegatives == well.falseNegatives && badly.goodRed == well.goodRed
    requires Improves(badly.imageAp, well.imageAp, policy.promotionMinDelta)
    requires 0.0 <= badly.imageAp.value <= 1.0 && 0.0 <= well.imageAp.value <= 1.0
    ensures a == badly.(pixelAupimo := Some(1.0), pixelAp := Some(0.0))
    ensures b == badly.(pixelAupimo := None, pixelAp := Some(1.0))
    ensures c == well.(pixelAupimo := Some(0.0), pixelAp := None)
    ensures ReferencePasses(policy, a, b) && ReferencePasses(policy, b, c) && ReferencePasses(policy, c, a)
    ensures UnitBusiness([a, b, c])
  {
    a := badly.(pixelAupimo := Some(1.0), pixelAp := Some(0.0));
    b := badly.(pixelAupimo := None, pixelAp := Some(1.0));
    c := well.(pixelAupimo := Some(0.0), pixelAp := None);
    SecondDecides(BusinessPairs(a, b), policy.promotionMinDelta);
    ThirdDecides(BusinessPairs(b, c), policy.promotionMinDelta);
  }

  lemma SingleGateNeedsMargin(policy: Policy, active: Metrics, candidate: Metrics)
    requires policy.promotionMinDelta >= 1.0
    requires UnitValues(BusinessMetrics(active)) && UnitValues(BusinessMetrics(candidate))
    ensures !ReferencePasses(policy, active, candidate)
  {
    assert BusinessPairs(active, candidate) == Paired(BusinessMetrics(active), BusinessMetrics(candidate));
    NoUnitImprovement(BusinessMetrics(active), BusinessMetrics(candidate), policy.promotionMinDelta);
  }

  lemma MixedChainStops(policy: Policy, chain: seq<Metrics>)
    requires policy.maxGoodRedRegression < 0 || policy.promotionMinDelta >= 1.0
    requires ReferenceChain(policy, chain) && UnitBusiness(chain)
    ensures NoneReturns(chain)
  {
    if policy.maxGoodRedRegression < 0 {
      forall i, j | 0 <= i < j < |chain| ensures chain[i] != chain[j] { GoodRedFalls(policy, chain, i, j); }
    } else if |chain| > 1 {
      SingleGateNeedsMargin(policy, chain[0], chain[0 + 1]);
    }
  }

  /** When models may lack different metrics, the single gate lets models come back unless its margin is 1 or
      each promotion must turn fewer good pieces red. */
  lemma MixedReferenceExactly(policy: Policy)
    ensures policy.maxGoodRedRegression < 0 || policy.promotionMinDelta >= 1.0
      <==> forall chain :: ReferenceChain(policy, chain) && UnitBusiness(chain) ==> NoneReturns(chain)
  {
    if policy.maxGoodRedRegression < 0 || policy.promotionMinDelta >= 1.0 {
      forall chain | ReferenceChain(policy, chain) && UnitBusiness(chain)
        ensures NoneReturns(chain)
      {
        MixedChainStops(policy, chain);
      }
    } else {
      var a, b, c, ab, cs := ReferenceCircle(policy);
      var chain := [a, b, c, a];
      assert chain[0] == chain[3] && forall x :: x in chain ==> x in [a, b, c];
      assert ReferenceChain(policy, chain);
    }
  }
}
