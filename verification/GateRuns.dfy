/** The localization gate and the single reference gate over whole runs (scripts/run_replay_lifecycle_cycle.py):
    which checkpoints become active, and when one can come back. */
module GateRuns {
  import opened ReplayEvents
  import opened Calibration
  import opened PromotionGate
  import opened MetricGates
  import opened ReplayLifecycle
  import opened LifecycleRuns

  /** Checkpoints of the successive active localization models. */
  function ActiveLocalizations(initial: string, cycles: seq<Cycle>): (r: seq<string>)
    ensures r != []
  {
    if cycles == [] then [initial]
    else ActiveLocalizations(initial, cycles[..|cycles| - 1])
         + if LastOf(cycles).localizationPromoted then [LastOf(cycles).localizationCheckpoint] else []
  }

  function Evaluated(evaluate: string -> Metrics, checkpoints: seq<string>): (r: seq<Metrics>)
    ensures |r| == |checkpoints|
  {
    seq(|checkpoints|, i requires 0 <= i < |checkpoints| => evaluate(checkpoints[i]))
  }

  // ---------------------------------------------------------------------------- what every state keeps

  /** Successive localization checkpoints passed the localization gate. */
  ghost predicate LocalizationFollowed(w: World, args: Args, initial: string, s: State) {
    var checkpoints := ActiveLocalizations(initial, s.cycles);
    && s.localization.checkpoint == LastOf(checkpoints)
    && LocalizationChain(args.policy, Evaluated(w.gate, checkpoints))
  }

  /** Without dual promotion, successive decision checkpoints passed the single gate. */
  ghost predicate ReferenceFollowed(w: World, args: Args, initial: string, s: State) {
    var checkpoints := ActiveCheckpoints(initial, s.cycles);
    && s.active.checkpoint == LastOf(checkpoints)
    && (!args.dualPromotion ==> ReferenceChain(args.policy, Evaluated(w.reference, checkpoints)))
  }

  lemma LocalizationExtends(policy: Policy, evaluate: string -> Metrics, checkpoints: seq<string>, next: string)
    requires checkpoints != [] && LocalizationChain(policy, Evaluated(evaluate, checkpoints))
    requires LocalizationPasses(policy, evaluate(LastOf(checkpoints)), evaluate(next))
    ensures LocalizationChain(policy, Evaluated(evaluate, checkpoints + [next]))
  {
    var before, after := Evaluated(evaluate, checkpoints), Evaluated(evaluate, checkpoints + [next]);
    forall i | 0 <= i < |after| - 1 ensures LocalizationPasses(policy, after[i], after[i + 1]) {
      if i < |before| - 1 { assert LocalizationPasses(policy, before[i], before[i + 1]); }
    }
  }

  lemma ReferenceExtends(policy: Policy, evaluate: string -> Metrics, checkpoints: seq<string>, next: string)
    requires checkpoints != [] && ReferenceChain(policy, Evaluated(evaluate, checkpoints))
    requires ReferencePasses(policy, evaluate(LastOf(checkpoints)), evaluate(next))
    ensures ReferenceChain(policy, Evaluated(evaluate, checkpoints + [next]))
  {
    var before, after := Evaluated(evaluate, checkpoints), Evaluated(evaluate, checkpoints + [next]);
    forall i | 0 <= i < |after| - 1 ensures ReferencePasses(policy, after[i], after[i + 1]) {
      if i < |before| - 1 { assert ReferencePasses(policy, before[i], before[i + 1]); }
    }
  }

  /** What a training cycle does to the two models, and the gate each change passed. */
  lemma CandidatePasses(w: World, args: Args, s: State, decision: Decision)
    ensures var next := RunCandidate(w, args, s, decision);
      && next.cycles == s.cycles + [LastOf(next.cycles)]
      && var c := LastOf(next.cycles);
      && next.localization.checkpoint
         == (if c.localizationPromoted then c.localizationCheckpoint else s.localization.checkpoint)
      && next.active.checkpoint == (if c.decisionPromoted then c.checkpoint else s.active.checkpoint)
      && (c.localizationPromoted ==>
            LocalizationPasses(args.policy, w.gate(s.localization.checkpoint), w.gate(c.localizationCheckpoint)))
      && (c.decisionPromoted && !args.dualPromotion ==>
            ReferencePasses(args.policy, w.reference(s.active.checkpoint), w.reference(c.checkpoint)))
  {
  }

  lemma CycleSnoc(initial: string, cycles: seq<Cycle>, c: Cycle)
    ensures ActiveLocalizations(initial, cycles + [c])
      == ActiveLocalizations(initial, cycles) + if c.localizationPromoted then [c.localizationCheckpoint] else []
    ensures ActiveCheckpoints(initial, cycles + [c])
      == ActiveCheckpoints(initial, cycles) + if c.decisionPromoted then [c.checkpoint] else []
  {
    assert (cycles + [c])[..|cycles|] == cycles;
  }

  lemma CandidateLocalization(w: World, args: Args, initial: string, s: State, decision: Decision)
    requires LocalizationFollowed(w, args, initial, s)
    ensures LocalizationFollowed(w, args, initial, RunCandidate(w, args, s, decision))
  {
    CandidatePasses(w, args, s, decision);
    var c := LastOf(RunCandidate(w, args, s, decision).cycles);
    CycleSnoc(initial, s.cycles, c);
    if c.localizationPromoted {
      LocalizationExtends(args.policy, w.gate, ActiveLocalizations(initial, s.cycles), c.localizationCheckpoint);
    } else {
      assert ActiveLocalizations(initial, s.cycles + [c]) == ActiveLocalizations(initial, s.cycles);
    }
  }

  lemma CandidateReference(w: World, args: Args, initial: string, s: State, decision: Decision)
    requires ReferenceFollowed(w, args, initial, s)
    ensures ReferenceFollowed(w, args, initial, RunCandidate(w, args, s, decision))
  {
    CandidatePasses(w, args, s, decision);
    var c := LastOf(RunCandidate(w, args, s, decision).cycles);
    CycleSnoc(initial, s.cycles, c);
    if !c.decisionPromoted {
      assert ActiveCheckpoints(initial, s.cycles + [c]) == ActiveCheckpoints(initial, s.cycles);
    } else if !args.dualPromotion {
      ReferenceExtends(args.policy, w.reference, ActiveCheckpoints(initial, s.cycles), c.checkpoint);
    }
  }

  ghost predicate Followed(w: World, args: Args, initial: string, localization: string, s: State) {
    LocalizationFollowed(w, args, localization, s) && ReferenceFollowed(w, args, initial, s)
  }

  lemma CloseLotFollowed(w: World, args: Args, initial: string, localization: string, s: State, lot: Lot)
    requires Followed(w, args, initial, localization, s)
    ensures Followed(w, args, initial, localization, CloseLot(w, args, s, lot).1)
  {
    var (decision, finalized) := FinalizeLot(w, args, s, Summarize(lot.lotId, lot.events));
    var triggered := finalized.(trigger := Some(decision));
    CandidateLocalization(w, args, localization, triggered, decision);
    CandidateReference(w, args, initial, triggered, decision);
  }

  lemma {:induction false} ReplayFollowed(w: World, args: Args, rows: seq<ReplayRow>, initial: string,
                                          localization: string,
                                          s: State, lot: Option<Lot>)
    requires Followed(w, args, initial, localization, s)
    ensures Followed(w, args, initial, localization, Replay(w, args, rows, s, lot).s)
    decreases |rows|
  {
    if rows != [] && !EventLimitReached(args, s.seen) {
      var closed := if Crosses(lot, rows[0]) then CloseLot(w, args, s, lot.value) else (false, s);
      if Crosses(lot, rows[0]) { CloseLotFollowed(w, args, initial, localization, s, lot.value); }
      if !closed.0 && !(Crosses(lot, rows[0]) && LotLimitReached(args, closed.1.lots)) {
        var taken := TakeEvent(w, closed.1, lot, rows[0]);
        assert Followed(w, args, initial, localization, taken.0);
        ReplayFollowed(w, args, rows[1..], initial, localization, taken.0, taken.1);
      }
    }
  }

  lemma RunFollowed(w: World, args: Args, rows: seq<ReplayRow>, initial: Runtime, localization: Runtime)
    ensures Followed(w, args, initial.checkpoint, localization.checkpoint, Run(w, args, rows, initial, localization))
  {
    var o := Loop(w, args, rows, initial, localization);
    assert Followed(w, args, initial.checkpoint, localization.checkpoint, Start(initial, localization));
    ReplayFollowed(w, args, rows, initial.checkpoint, localization.checkpoint, Start(initial, localization), None);
    if o.lot.Some? { CloseLotFollowed(w, args, initial.checkpoint, localization.checkpoint, o.s, o.lot.value); }
  }

  // ---------------------------------------------------------------------------- no checkpoint returns

  /** All checkpoints are evaluated on one panel: they have the same pixel metrics, each in [0, 1]. */
  ghost predicate OnePanelFor(evaluate: string -> Metrics) {
    && (forall c, d :: Alike(LocalizationMetrics(evaluate(c)), LocalizationMetrics(evaluate(d))))
    && (forall c :: UnitValues(LocalizationMetrics(evaluate(c))))
  }

  lemma EvaluatedOnOnePanel(evaluate: string -> Metrics, checkpoints: seq<string>)
    requires OnePanelFor(evaluate)
    ensures OneLocalizationPanel(Evaluated(evaluate, checkpoints))
  {
    var chain := Evaluated(evaluate, checkpoints);
    forall m | m in chain ensures exists c :: m == evaluate(c) {
      var i :| 0 <= i < |chain| && chain[i] == m;
      assert m == evaluate(checkpoints[i]);
    }
  }

  lemma DifferentMetricsDifferentCheckpoints(evaluate: string -> Metrics, checkpoints: seq<string>)
    requires NoneReturns(Evaluated(evaluate, checkpoints))
    ensures NoDuplicates(checkpoints)
  {
    var chain := Evaluated(evaluate, checkpoints);
    forall i, j | 0 <= i < j < |checkpoints| ensures checkpoints[i] != checkpoints[j] { assert chain[i] != chain[j]; }
  }

  /** Where the localization gate allows no circle, no checkpoint becomes the localization model twice in a run. */
  lemma NoLocalizationCheckpointReturns(w: World, args: Args, rows: seq<ReplayRow>, initial: Runtime,
                                        localization: Runtime)
    requires LocalizationAcyclic(args.policy) && OnePanelFor(w.gate)
    ensures NoDuplicates(ActiveLocalizations(localization.checkpoint, Run(w, args, rows, initial, localization).cycles))
  {
    var checkpoints := ActiveLocalizations(localization.checkpoint, Run(w, args, rows, initial, localization).cycles);
    RunFollowed(w, args, rows, initial, localization);
    EvaluatedOnOnePanel(w.gate, checkpoints);
    NoLocalizationReturns(args.policy, Evaluated(w.gate, checkpoints));
    DifferentMetricsDifferentCheckpoints(w.gate, checkpoints);
  }

  lemma {:induction false} LocalizationsFollowVersions(initial: string, cycles: seq<Cycle>)
    ensures |ActiveLocalizations(initial, cycles)| == 1 + |PromotedLocalizations(cycles)|
  {
    if cycles != [] { LocalizationsFollowVersions(initial, cycles[..|cycles| - 1]); }
  }

  /** Without the P4 objective and with a positive margin, a run promotes fewer localization models than margins fit
      between 0 and 1. */
  lemma LocalizationsBounded(w: World, args: Args, rows: seq<ReplayRow>, initial: Runtime, localization: Runtime)
    requires !args.policy.p4Objective && OnePanelFor(w.gate)
    ensures var promotions := |Run(w, args, rows, initial, localization).localizationChain| - 1;
      promotions > 0 ==> Gain(promotions, args.policy.localizationMinDelta) < 1.0
  {
    var s := Run(w, args, rows, initial, localization);
    var checkpoints := ActiveLocalizations(localization.checkpoint, s.cycles);
    RunFollowed(w, args, rows, initial, localization);
    RunInvariant(w, args, rows, initial, localization);
    LocalizationsFollowVersions(localization.checkpoint, s.cycles);
    EvaluatedOnOnePanel(w.gate, checkpoints);
    if |checkpoints| > 1 { LocalizationPromotionsBounded(args.policy, Evaluated(w.gate, checkpoints)); }
  }

  lemma EvaluatedAlike(evaluate: string -> Metrics, checkpoints: seq<string>)
    requires forall c, d :: Alike(BusinessMetrics(evaluate(c)), BusinessMetrics(evaluate(d)))
    ensures OneReferencePanel(Evaluated(evaluate, checkpoints))
  {
    var chain := Evaluated(evaluate, checkpoints);
    forall m | m in chain ensures exists c :: m == evaluate(c) {
      var i :| 0 <= i < |chain| && chain[i] == m;
      assert m == evaluate(checkpoints[i]);
    }
  }

  /** Where the single gate allows no circle, no checkpoint becomes the decision model twice in a run without dual
      promotion. */
  lemma NoReferenceCheckpointReturns(w: World, args: Args, rows: seq<ReplayRow>, initial: Runtime,
                                     localization: Runtime)
    requires !args.dualPromotion && ReferenceAcyclic(args.policy)
    requires forall c, d :: Alike(BusinessMetrics(w.reference(c)), BusinessMetrics(w.reference(d)))
    ensures NoDuplicates(ActiveCheckpoints(initial.checkpoint, Run(w, args, rows, initial, localization).cycles))
  {
    var checkpoints := ActiveCheckpoints(initial.checkpoint, Run(w, args, rows, initial, localization).cycles);
    RunFollowed(w, args, rows, initial, localization);
    EvaluatedAlike(w.reference, checkpoints);
    NoReferenceReturns(args.policy, Evaluated(w.reference, checkpoints));
    DifferentMetricsDifferentCheckpoints(w.reference, checkpoints);
  }
}
