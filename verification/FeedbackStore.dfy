/** The API's prediction and feedback stores on the memory backend (src/iqa/api/main.py): what any sequence of
    predict, feedback and reload requests leaves in them. */
module FeedbackStore {
  import opened ReplayEvents

  // ---------------------------------------------------------------------------- data

  datatype Decision = Vert | Orange | Rouge | OtherDecision

  datatype Verdict = Conforme | Defective

  datatype FeedbackSource = OracleGt | HumanSophie | OtherSource

  datatype FeedbackStatus = ConformeValide | DefautConfirme | FauxNegatif | FauxPositif | RoiWarning | RoiFail

  datatype BlockReason = OracleGtDefective | StatusDefautConfirme | StatusFauxNegatif | StatusRoiWarning | StatusRoiFail

  datatype Divergence = Concordant | MissedDefect | FalseReject | OrangeToReview

  datatype Prediction = Prediction(pieceEventId: string, scenarioId: string, decision: Decision, modelVersion: string,
                                   feedbackClosed: bool)

  datatype DisplayRecord = DisplayRecord(status: Option<FeedbackStatus>)

  datatype FeedbackRecord = FeedbackRecord(
    pieceEventId: string,
    scenarioId: string,
    verdict: Verdict,
    displaySource: FeedbackSource,
    eligibleForTrain: bool,
    blockReason: Option<BlockReason>,
    conflictLogged: bool)

  datatype IncidentKind = FeedbackConflict | FalseNegative | RoiFailure | ReloadRefused

  datatype Incident = Incident(kind: IncidentKind, predictionId: Option<string>)

  /** `AI_SECURITY_METRICS` */
  datatype Counters = Counters(conflict: nat, incidents: nat, unsafeBlocked: nat, invalid: nat, reloadRefused: nat)

  datatype Stores = Stores(
    predictions: map<string, Prediction>,
    feedback: map<string, FeedbackRecord>,
    display: map<string, DisplayRecord>,
    incidents: seq<Incident>,
    counters: Counters)

  const EMPTY := Stores(map[], map[], map[], [], Counters(0, 0, 0, 0, 0))

  datatype FeedbackRequest = FeedbackRequest(
    predictionId: string,
    pieceEventId: string,
    scenarioId: string,
    source: FeedbackSource,
    status: Option<FeedbackStatus>,
    gtMaskHasDefect: bool)

  /** `inference` is None when the inference service fails; `freshId` is the generated prediction id. */
  datatype PredictRequest = PredictRequest(freshId: string, pieceEventId: string, scenarioId: string,
                                           inference: Option<(Decision, string)>)

  /** The admin token the service expects and the one presented; whether the inference service reloads. */
  datatype ReloadRequest = ReloadRequest(expectedToken: string, token: Option<string>, reloads: bool)

  datatype Request =
    | Predict(predict: PredictRequest)
    | Feedback(feedback: FeedbackRequest)
    | Reload(reload: ReloadRequest)

  datatype Response =
    | Predicted(predictionId: string)
    | InferenceFailed
    | DisplayAccepted
    | Closed(eligibleForTrain: bool, blockReason: Option<BlockReason>, conflictLogged: bool)
    | PredictionNotFound
    | PieceMismatch
    | ScenarioMismatch
    | AlreadyClosed
    | UnknownSource
    | Refused
    | ReloadFailed
    | Reloaded

  // ---------------------------------------------------------------------------- rules

  function VerdictOf(gtMaskHasDefect: bool): Verdict { if gtMaskHasDefect then Defective else Conforme }

  function UnsafeStatus(status: Option<FeedbackStatus>): Option<BlockReason> {
    match status
    case Some(DefautConfirme) => Some(StatusDefautConfirme)
    case Some(FauxNegatif) => Some(StatusFauxNegatif)
    case Some(RoiWarning) => Some(StatusRoiWarning)
    case Some(RoiFail) => Some(StatusRoiFail)
    case _ => None
  }

  /** `_train_eligibility_from_feedback`: None when the piece may be used for training. */
  function TrainBlock(gtMaskHasDefect: bool, status: Option<FeedbackStatus>): Option<BlockReason> {
    if gtMaskHasDefect then Some(OracleGtDefective) else UnsafeStatus(status)
  }

  /** `_oracle_divergence` */
  function DivergenceOf(decision: Decision, verdict: Verdict): Option<Divergence> {
    match decision
    case Orange => Some(OrangeToReview)
    case Vert => Some(if verdict == Defective then MissedDefect else Concordant)
    case Rouge => Some(if verdict == Conforme then FalseReject else Concordant)
    case OtherDecision => None
  }

  function Conflicting(c: Counters): Counters { c.(conflict := c.conflict + 1, incidents := c.incidents + 1) }

  function Invalid(c: Counters): Counters { c.(invalid := c.invalid + 1, incidents := c.incidents + 1) }

  function RefusedReload(c: Counters): Counters {
    c.(reloadRefused := c.reloadRefused + 1, incidents := c.incidents + 1)
  }

  function Blocked(c: Counters): Counters { c.(unsafeBlocked := c.unsafeBlocked + 1) }

  /** What an oracle verdict raises: a missed defect, then a failed ROI. */
  function ClosureIncidents(id: string, decision: Decision, verdict: Verdict,
                            block: Option<BlockReason>): seq<Incident> {
    (if DivergenceOf(decision, verdict) == Some(MissedDefect) then [Incident(FalseNegative, Some(id))] else [])
    + (if block == Some(StatusRoiFail) then [Incident(RoiFailure, Some(id))] else [])
  }

  function RecordOf(s: Stores, r: FeedbackRequest): FeedbackRecord {
    var block := TrainBlock(r.gtMaskHasDefect, r.status);
    var shown := r.predictionId in s.display;
    var source := if shown then HumanSophie else OracleGt;
    FeedbackRecord(r.pieceEventId, r.scenarioId, VerdictOf(r.gtMaskHasDefect), source, block.None?, block, shown)
  }

  function Close(s: Stores, r: FeedbackRequest, p: Prediction): (Stores, Response) {
    var record := RecordOf(s, r);
    (Stores(
       s.predictions[r.predictionId := p.(feedbackClosed := true)],
       s.feedback[r.predictionId := record],
       s.display,
       s.incidents + ClosureIncidents(r.predictionId, p.decision, record.verdict, record.blockReason),
       if record.eligibleForTrain then s.counters else Blocked(s.counters)),
     Closed(record.eligibleForTrain, record.blockReason, record.conflictLogged))
  }

  function StepFeedback(s: Stores, r: FeedbackRequest): (Stores, Response) {
    if r.predictionId !in s.predictions then (s.(counters := Invalid(s.counters)), PredictionNotFound)
    else
      var p := s.predictions[r.predictionId];
      var conflict := s.(counters := Conflicting(s.counters),
                         incidents := s.incidents + [Incident(FeedbackConflict, Some(r.predictionId))]);
      if p.pieceEventId != r.pieceEventId then (conflict, PieceMismatch)
      else if p.scenarioId != r.scenarioId then (conflict, ScenarioMismatch)
      else if p.feedbackClosed then (s.(counters := Invalid(s.counters)), AlreadyClosed)
      else
        match r.source
        case HumanSophie => (s.(counters := Blocked(s.counters),
                                display := s.display[r.predictionId := DisplayRecord(r.status)]), DisplayAccepted)
        case OtherSource => (s.(counters := Invalid(s.counters)), UnknownSource)
        case OracleGt => Close(s, r, p)
  }

  function StepPredict(s: Stores, r: PredictRequest): (Stores, Response) {
    match r.inference
    case None => (s, InferenceFailed)
    case Some((decision, version)) =>
      (s.(predictions := s.predictions[r.freshId := Prediction(r.pieceEventId, r.scenarioId, decision, version,
                                                               false)]), Predicted(r.freshId))
  }

  function StepReload(s: Stores, r: ReloadRequest): (Stores, Response) {
    if r.expectedToken == "" || r.token != Some(r.expectedToken) then
      (s.(counters := RefusedReload(s.counters), incidents := s.incidents + [Incident(ReloadRefused, None)]), Refused)
    else (s, if r.reloads then Reloaded else ReloadFailed)
  }

  function Step(s: Stores, r: Request): (Stores, Response) {
    match r
    case Predict(p) => StepPredict(s, p)
    case Feedback(f) => StepFeedback(s, f)
    case Reload(l) => StepReload(s, l)
  }

  function Run(s: Stores, requests: seq<Request>): Stores
    decreases |requests|
  {
    if requests == [] then s else Run(Step(s, requests[0]).0, requests[1..])
  }

  function Responses(s: Stores, requests: seq<Request>): seq<Response>
    decreases |requests|
  {
    if requests == [] then [] else [Step(s, requests[0]).1] + Responses(Step(s, requests[0]).0, requests[1..])
  }

  /** Generated prediction ids are new. */
  predicate Fresh(s: Stores, r: Request) { r.Predict? ==> r.predict.freshId !in s.predictions }

  predicate AllFresh(s: Stores, requests: seq<Request>)
    decreases |requests|
  {
    requests != [] ==> Fresh(s, requests[0]) && AllFresh(Step(s, requests[0]).0, requests[1..])
  }

  // ---------------------------------------------------------------------------- invariant

  function OfKind(kind: IncidentKind): Incident -> bool { (i: Incident) => i.kind == kind }

  function About(kind: IncidentKind, id: string): Incident -> bool { (i: Incident) => i == Incident(kind, Some(id)) }

  /** An oracle verdict that contradicts an accepted piece. */
  predicate Missed(s: Stores, id: string) {
    id in s.feedback && id in s.predictions && s.predictions[id].decision == Vert && s.feedback[id].verdict == Defective
  }

  predicate RoiBlocked(s: Stores, id: string) {
    id in s.feedback && s.feedback[id].blockReason == Some(StatusRoiFail)
  }

  /** A prediction is closed exactly when it has an oracle record; records and display feedback belong to
      predictions; a record says whether display feedback exists, and is eligible only on a conforming verdict. */
  ghost predicate StoresAgree(s: Stores) {
    && (forall id :: id in s.predictions && s.predictions[id].feedbackClosed <==> id in s.feedback)
    && (forall id :: id in s.display ==> id in s.predictions)
    && (forall id :: id in s.feedback ==> s.feedback[id].conflictLogged == (id in s.display))
    && (forall id :: id in s.feedback && s.feedback[id].eligibleForTrain ==> s.feedback[id].verdict == Conforme)
  }

  /** One incident for each missed defect and each failed ROI, none otherwise; every refusal and conflict has one. */
  ghost predicate IncidentsAgree(s: Stores) {
    && (forall id :: IncidentsAbout(s, id))
    && CountIf(s.incidents, OfKind(FeedbackConflict)) == s.counters.conflict
    && CountIf(s.incidents, OfKind(ReloadRefused)) == s.counters.reloadRefused
  }

  ghost predicate CountersAgree(s: Stores) {
    s.counters.incidents == s.counters.conflict + s.counters.invalid + s.counters.reloadRefused
  }

  ghost predicate Consistent(s: Stores) { StoresAgree(s) && IncidentsAgree(s) && CountersAgree(s) }

  lemma CloseStoresAgree(s: Stores, r: FeedbackRequest)
    requires StoresAgree(s) && r.predictionId in s.predictions && !s.predictions[r.predictionId].feedbackClosed
    ensures StoresAgree(Close(s, r, s.predictions[r.predictionId]).0)
  {
  }

  lemma PredictStoresAgree(s: Stores, r: PredictRequest)
    requires StoresAgree(s) && r.freshId !in s.predictions
    ensures StoresAgree(StepPredict(s, r).0)
  {
    assert r.freshId !in s.feedback;
  }

  /** Feedback that closes nothing changes at most the display feedback of an open prediction. */
  lemma RejectedChangesDisplay(s: Stores, r: FeedbackRequest)
    requires !StepFeedback(s, r).1.Closed?
    ensures var t := StepFeedback(s, r).0;
      && t.predictions == s.predictions && t.feedback == s.feedback
      && (t.display == s.display
          || (&& r.predictionId in s.predictions && !s.predictions[r.predictionId].feedbackClosed
              && t.display == s.display[r.predictionId := DisplayRecord(r.status)]))
  {
  }

  lemma RejectedStoresAgree(s: Stores, r: FeedbackRequest)
    requires StoresAgree(s) && !StepFeedback(s, r).1.Closed?
    ensures StoresAgree(StepFeedback(s, r).0)
  {
    RejectedChangesDisplay(s, r);
    var t := StepFeedback(s, r).0;
    if t.display == s.display {
      assert forall id :: id in t.feedback ==> t.feedback[id].conflictLogged == (id in t.display);
    } else {
      assert r.predictionId !in s.feedback;
    }
  }

  lemma StepStoresAgree(s: Stores, r: Request)
    requires StoresAgree(s) && Fresh(s, r)
    ensures StoresAgree(Step(s, r).0)
  {
    match r
    case Predict(p) => PredictStoresAgree(s, p);
    case Reload(_) =>
    case Feedback(f) => if StepFeedback(s, f).1.Closed? { CloseStoresAgree(s, f); } else { RejectedStoresAgree(s, f); }
  }

  lemma StepCountersAgree(s: Stores, r: Request)
    requires CountersAgree(s)
    ensures CountersAgree(Step(s, r).0)
  {
  }

  /** The incidents a request adds. */
  function NewIncidents(s: Stores, r: Request): seq<Incident> {
    match Step(s, r).1
    case PieceMismatch | ScenarioMismatch => [Incident(FeedbackConflict, Some(r.feedback.predictionId))]
    case Refused => [Incident(ReloadRefused, None)]
    case Closed(_, block, _) =>
      ClosureIncidents(r.feedback.predictionId, s.predictions[r.feedback.predictionId].decision,
                       VerdictOf(r.feedback.gtMaskHasDefect), block)
    case _ => []
  }

  lemma StepIncidents(s: Stores, r: Request)
    ensures Step(s, r).0.incidents == s.incidents + NewIncidents(s, r)
  {
  }

  lemma CountClosure(id: string, decision: Decision, verdict: Verdict, block: Option<BlockReason>, p: Incident -> bool)
    ensures CountIf(ClosureIncidents(id, decision, verdict, block), p)
      == (if decision == Vert && verdict == Defective && p(Incident(FalseNegative, Some(id))) then 1 else 0)
       + (if block == Some(StatusRoiFail) && p(Incident(RoiFailure, Some(id))) then 1 else 0)
  {
    var first := if decision == Vert && verdict == Defective then [Incident(FalseNegative, Some(id))] else [];
    var second := if block == Some(StatusRoiFail) then [Incident(RoiFailure, Some(id))] else [];
    CountIfAppend(first, second, p);
  }

  predicate Closes(s: Stores, r: Request, id: string) {
    Step(s, r).1.Closed? && r.feedback.predictionId == id
  }

  /** A request that does not close the prediction adds no incident about its verdict. */
  lemma NewAboutOthers(s: Stores, r: Request, kind: IncidentKind, id: string)
    requires (kind == FalseNegative || kind == RoiFailure) && !Closes(s, r, id)
    ensures CountIf(NewIncidents(s, r), About(kind, id)) == 0
  {
    forall i | i in NewIncidents(s, r) ensures i != Incident(kind, Some(id)) {}
    CountIfUniform(NewIncidents(s, r), About(kind, id), false);
  }

  lemma NewAboutClosed(s: Stores, r: Request, id: string)
    requires Closes(s, r, id)
    ensures CountIf(NewIncidents(s, r), About(FalseNegative, id)) == if Missed(Step(s, r).0, id) then 1 else 0
    ensures CountIf(NewIncidents(s, r), About(RoiFailure, id)) == if RoiBlocked(Step(s, r).0, id) then 1 else 0
  {
    var f := r.feedback;
    var decision, verdict, block := s.predictions[id].decision, VerdictOf(f.gtMaskHasDefect),
      TrainBlock(f.gtMaskHasDefect, f.status);
    CountClosure(id, decision, verdict, block, About(FalseNegative, id));
    CountClosure(id, decision, verdict, block, About(RoiFailure, id));
  }

  lemma OthersKeepStatus(s: Stores, r: Request, id: string)
    requires StoresAgree(s) && Fresh(s, r) && !Closes(s, r, id)
    ensures Missed(Step(s, r).0, id) == Missed(s, id) && RoiBlocked(Step(s, r).0, id) == RoiBlocked(s, id)
  {
    if r.Feedback? && !StepFeedback(s, r.feedback).1.Closed? { RejectedChangesDisplay(s, r.feedback); }
    assert id in Step(s, r).0.feedback <==> id in s.feedback;
  }

  lemma ClosedWasOpen(s: Stores, r: Request, id: string)
    requires StoresAgree(s) && Closes(s, r, id)
    ensures id !in s.feedback
  {
  }

  /** The incidents about one prediction. */
  ghost predicate IncidentsAbout(s: Stores, id: string) {
    && CountIf(s.incidents, About(FalseNegative, id)) == (if Missed(s, id) then 1 else 0)
    && CountIf(s.incidents, About(RoiFailure, id)) == (if RoiBlocked(s, id) then 1 else 0)
  }

  lemma StepAbout(s: Stores, r: Request, id: string)
    requires StoresAgree(s) && IncidentsAbout(s, id) && Fresh(s, r)
    ensures IncidentsAbout(Step(s, r).0, id)
  {
    StepIncidents(s, r);
    var new_ := NewIncidents(s, r);
    CountIfAppend(s.incidents, new_, About(FalseNegative, id));
    CountIfAppend(s.incidents, new_, About(RoiFailure, id));
    if Closes(s, r, id) {
      NewAboutClosed(s, r, id);
      ClosedWasOpen(s, r, id);
    } else {
      NewAboutOthers(s, r, FalseNegative, id);
      NewAboutOthers(s, r, RoiFailure, id);
      OthersKeepStatus(s, r, id);
    }
  }

  predicate BlocksTraining(r: Response) { r.DisplayAccepted? || (r.Closed? && !r.eligibleForTrain) }

  predicate IsConflict(r: Response) { r.PieceMismatch? || r.ScenarioMismatch? }

  predicate IsInvalid(r: Response) { r.PredictionNotFound? || r.AlreadyClosed? || r.UnknownSource? }

  predicate IsRefused(r: Response) { r.Refused? }

  predicate IsClosure(r: Response) { r.Closed? }

  function One(b: bool): nat { if b then 1 else 0 }

  lemma StepCounters(s: Stores, r: Request)
    ensures var (t, answer) := Step(s, r);
      && t.counters.unsafeBlocked == s.counters.unsafeBlocked + One(BlocksTraining(answer))
      && t.counters.conflict == s.counters.conflict + One(IsConflict(answer))
      && t.counters.invalid == s.counters.invalid + One(IsInvalid(answer))
      && t.counters.reloadRefused == s.counters.reloadRefused + One(IsRefused(answer))
  {
  }

  lemma NewOfKind(s: Stores, r: Request, kind: IncidentKind)
    requires kind == FeedbackConflict || kind == ReloadRefused
    ensures CountIf(NewIncidents(s, r), OfKind(kind))
      == One(if kind == FeedbackConflict then IsConflict(Step(s, r).1) else IsRefused(Step(s, r).1))
  {
    if Step(s, r).1.Closed? {
      var f := r.feedback;
      CountClosure(f.predictionId, s.predictions[f.predictionId].decision, VerdictOf(f.gtMaskHasDefect),
                   TrainBlock(f.gtMaskHasDefect, f.status), OfKind(kind));
    }
  }

  lemma StepOfKind(s: Stores, r: Request)
    requires CountIf(s.incidents, OfKind(FeedbackConflict)) == s.counters.conflict
    requires CountIf(s.incidents, OfKind(ReloadRefused)) == s.counters.reloadRefused
    ensures CountIf(Step(s, r).0.incidents, OfKind(FeedbackConflict)) == Step(s, r).0.counters.conflict
    ensures CountIf(Step(s, r).0.incidents, OfKind(ReloadRefused)) == Step(s, r).0.counters.reloadRefused
  {
    StepIncidents(s, r);
    StepCounters(s, r);
    CountIfAppend(s.incidents, NewIncidents(s, r), OfKind(FeedbackConflict));
    CountIfAppend(s.incidents, NewIncidents(s, r), OfKind(ReloadRefused));
    NewOfKind(s, r, FeedbackConflict);
    NewOfKind(s, r, ReloadRefused);
  }

  lemma StepConsistent(s: Stores, r: Request)
    requires Consistent(s) && Fresh(s, r)
    ensures Consistent(Step(s, r).0)
  {
    StepStoresAgree(s, r);
    StepCountersAgree(s, r);
    StepOfKind(s, r);
    forall id ensures IncidentsAbout(Step(s, r).0, id) { StepAbout(s, r, id); }
  }

  /** Over every sequence of requests the stores, the incidents and the counters agree. */
  lemma {:induction false} RunConsistent(s: Stores, requests: seq<Request>)
    requires Consistent(s) && AllFresh(s, requests)
    ensures Consistent(Run(s, requests))
    decreases |requests|
  {
    if requests != [] {
      StepConsistent(s, requests[0]);
      RunConsistent(Step(s, requests[0]).0, requests[1..]);
    }
  }

  // ---------------------------------------------------------------------------- closed feedback is final

  /** Two stores agree on everything about one prediction. */
  ghost predicate SameAbout(s: Stores, t: Stores, id: string) {
    && (id in t.feedback <==> id in s.feedback) && (id in s.feedback ==> t.feedback[id] == s.feedback[id])
    && (id in t.predictions <==> id in s.predictions)
       && (id in s.predictions ==> t.predictions[id] == s.predictions[id])
    && (id in t.display <==> id in s.display) && (id in s.display ==> t.display[id] == s.display[id])
  }

  lemma StepKeepsClosed(s: Stores, r: Request, id: string)
    requires StoresAgree(s) && Fresh(s, r) && id in s.feedback
    ensures SameAbout(s, Step(s, r).0, id)
  {
  }

  /** Once an oracle record exists, no request changes it, its display feedback or its prediction. */
  lemma {:induction false} ClosedIsFinal(s: Stores, requests: seq<Request>, id: string)
    requires Consistent(s) && AllFresh(s, requests) && id in s.feedback
    ensures SameAbout(s, Run(s, requests), id)
    decreases |requests|
  {
    if requests != [] {
      StepKeepsClosed(s, requests[0], id);
      StepConsistent(s, requests[0]);
      ClosedIsFinal(Step(s, requests[0]).0, requests[1..], id);
    }
  }

  /** A prediction keeps its piece, scenario, decision and model; only its closed flag changes, and only once. */
  lemma {:induction false} PredictionKeepsIdentity(s: Stores, requests: seq<Request>, id: string)
    requires AllFresh(s, requests) && id in s.predictions
    ensures var t := Run(s, requests);
      && id in t.predictions
      && t.predictions[id].(feedbackClosed := s.predictions[id].feedbackClosed) == s.predictions[id]
      && (s.predictions[id].feedbackClosed ==> t.predictions[id].feedbackClosed)
    decreases |requests|
  {
    if requests != [] { PredictionKeepsIdentity(Step(s, requests[0]).0, requests[1..], id); }
  }

  // ---------------------------------------------------------------------------- counters and answers

  /** Every counter counts the answers of one kind, whatever the interleaving. */
  lemma {:induction false} CountersCountAnswers(s: Stores, requests: seq<Request>)
    ensures var t, answers := Run(s, requests), Responses(s, requests);
      && t.counters.unsafeBlocked == s.counters.unsafeBlocked + CountIf(answers, BlocksTraining)
      && t.counters.conflict == s.counters.conflict + CountIf(answers, IsConflict)
      && t.counters.invalid == s.counters.invalid + CountIf(answers, IsInvalid)
      && t.counters.reloadRefused == s.counters.reloadRefused + CountIf(answers, IsRefused)
    decreases |requests|
  {
    if requests != [] {
      var t := Step(s, requests[0]).0;
      StepCounters(s, requests[0]);
      CountersCountAnswers(t, requests[1..]);
      AnswersCount(s, requests, BlocksTraining);
      AnswersCount(s, requests, IsConflict);
      AnswersCount(s, requests, IsInvalid);
      AnswersCount(s, requests, IsRefused);
    }
  }

  lemma AnswersCount(s: Stores, requests: seq<Request>, p: Response -> bool)
    requires requests != []
    ensures CountIf(Responses(s, requests), p)
      == One(p(Step(s, requests[0]).1)) + CountIf(Responses(Step(s, requests[0]).0, requests[1..]), p)
  {
    CountIfAppend([Step(s, requests[0]).1], Responses(Step(s, requests[0]).0, requests[1..]), p);
  }

  /** One oracle record per accepted closure: none is lost, none is written twice. */
  lemma {:induction false} OneRecordPerClosure(s: Stores, requests: seq<Request>)
    requires Consistent(s) && AllFresh(s, requests)
    ensures |Run(s, requests).feedback| == |s.feedback| + CountIf(Responses(s, requests), IsClosure)
    decreases |requests|
  {
    if requests != [] {
      StepConsistent(s, requests[0]);
      OneRecordPerClosure(Step(s, requests[0]).0, requests[1..]);
      AnswersCount(s, requests, IsClosure);
      StepRecords(s, requests[0]);
    }
  }

  lemma NewKeyGrows<V>(m: map<string, V>, k: string, v: V)
    requires k !in m
    ensures |m[k := v]| == |m| + 1
  {
    assert m[k := v].Keys == m.Keys + {k};
  }

  lemma StepRecordMap(s: Stores, r: Request)
    ensures Step(s, r).0.feedback
      == if Step(s, r).1.Closed? then s.feedback[r.feedback.predictionId := RecordOf(s, r.feedback)] else s.feedback
  {
  }

  lemma StepRecords(s: Stores, r: Request)
    requires StoresAgree(s)
    ensures |Step(s, r).0.feedback| == |s.feedback| + One(IsClosure(Step(s, r).1))
  {
    StepRecordMap(s, r);
    if Step(s, r).1.Closed? {
      ClosedWasOpen(s, r, r.feedback.predictionId);
      NewKeyGrows(s.feedback, r.feedback.predictionId, RecordOf(s, r.feedback));
    }
  }

  /** The request that closed a prediction. */
  ghost predicate ClosedBy(r: Request, id: string, record: FeedbackRecord) {
    && r.Feedback? && r.feedback.predictionId == id && r.feedback.source == OracleGt
    && record.verdict == VerdictOf(r.feedback.gtMaskHasDefect)
    && record.blockReason == TrainBlock(r.feedback.gtMaskHasDefect, r.feedback.status)
    && (record.eligibleForTrain <==>
          !r.feedback.gtMaskHasDefect
            && (r.feedback.status.None? || r.feedback.status == Some(ConformeValide)
                || r.feedback.status == Some(FauxPositif)))
  }

  lemma StepProvenance(s: Stores, r: Request, id: string)
    requires id in Step(s, r).0.feedback && (id !in s.feedback || s.feedback[id] != Step(s, r).0.feedback[id])
    ensures ClosedBy(r, id, Step(s, r).0.feedback[id])
  {
    StepRecordMap(s, r);
  }

  /** Every oracle record comes from an oracle request of the run, whose mask and status decide whether the piece
      may be used for training; human feedback never closes a piece nor makes it eligible. */
  lemma {:induction false} RecordProvenance(s: Stores, requests: seq<Request>, id: string)
    requires id in Run(s, requests).feedback
    ensures (id in s.feedback && Run(s, requests).feedback[id] == s.feedback[id])
         || exists i :: 0 <= i < |requests| && ClosedBy(requests[i], id, Run(s, requests).feedback[id])
    decreases |requests|
  {
    if requests != [] {
      var t := Step(s, requests[0]).0;
      RecordProvenance(t, requests[1..], id);
      var record := Run(s, requests).feedback[id];
      if i :| 0 <= i < |requests[1..]| && ClosedBy(requests[1..][i], id, record) {
        assert requests[i + 1] == requests[1..][i];
      } else if id !in s.feedback || s.feedback[id] != record {
        StepProvenance(s, requests[0], id);
        assert ClosedBy(requests[0], id, record);
      }
    }
  }

  lemma EmptyConsistent()
    ensures Consistent(EMPTY)
  {
  }

  lemma EmptyRecordsClosed(s: Stores, requests: seq<Request>)
    requires s.feedback == map[]
    ensures var t := Run(s, requests);
      forall id :: id in t.feedback ==> exists i :: 0 <= i < |requests| && ClosedBy(requests[i], id, t.feedback[id])
  {
    var t := Run(s, requests);
    forall id | id in t.feedback ensures exists i :: 0 <= i < |requests| && ClosedBy(requests[i], id, t.feedback[id]) {
      RecordProvenance(s, requests, id);
    }
  }

  lemma EmptyAccounts(s: Stores, requests: seq<Request>)
    requires Consistent(s) && AllFresh(s, requests) && s.feedback == map[] && s.counters == Counters(0, 0, 0, 0, 0)
    ensures var t, answers := Run(s, requests), Responses(s, requests);
      && Consistent(t)
      && |t.feedback| == CountIf(answers, IsClosure)
      && t.counters.incidents
         == CountIf(answers, IsConflict) + CountIf(answers, IsInvalid) + CountIf(answers, IsRefused)
      && (forall id :: id in t.feedback ==>
          exists i :: 0 <= i < |requests| && ClosedBy(requests[i], id, t.feedback[id]))
  {
    RunConsistent(s, requests);
    OneRecordPerClosure(s, requests);
    CountersCountAnswers(s, requests);
    EmptyRecordsClosed(s, requests);
  }

  /** A service started empty: its stores agree after any requests, every record was made by one of them, there are
      as many records as accepted closures and as many counted incidents as conflicts, invalid answers and refusals. */
  lemma FreshServiceAccounts(requests: seq<Request>)
    requires AllFresh(EMPTY, requests)
    ensures var t, answers := Run(EMPTY, requests), Responses(EMPTY, requests);
      && Consistent(t)
      && |t.feedback| == CountIf(answers, IsClosure)
      && t.counters.incidents
         == CountIf(answers, IsConflict) + CountIf(answers, IsInvalid) + CountIf(answers, IsRefused)
      && (forall id :: id in t.feedback ==>
          exists i :: 0 <= i < |requests| && ClosedBy(requests[i], id, t.feedback[id]))
  {
    EmptyConsistent();
    EmptyAccounts(EMPTY, requests);
  }

  // ---------------------------------------------------------------------------- the service

  class Api {
    var predictionStore: map<string, Prediction>
    var feedbackStore: map<string, FeedbackRecord>
    var displayFeedbackStore: map<string, DisplayRecord>
    var incidentStore: seq<Incident>
    var feedbackConflictTotal: nat
    var aiSecurityIncidentTotal: nat
    var unsafeTrainBlockedTotal: nat
    var invalidFeedbackTotal: nat
    var reloadRefusedTotal: nat

    function View(): Stores
      reads this
    {
      Stores(predictionStore, feedbackStore, displayFeedbackStore, incidentStore,
             Counters(feedbackConflictTotal, aiSecurityIncidentTotal, unsafeTrainBlockedTotal, invalidFeedbackTotal,
                      reloadRefusedTotal))
    }

    constructor ()
      ensures View() == EMPTY
    {
      predictionStore, feedbackStore, displayFeedbackStore, incidentStore := map[], map[], map[], [];
      feedbackConflictTotal, aiSecurityIncidentTotal, unsafeTrainBlockedTotal := 0, 0, 0;
      invalidFeedbackTotal, reloadRefusedTotal := 0, 0;
    }

    method Predict(r: PredictRequest) returns (response: Response)
      modifies this
      ensures (View(), response) == StepPredict(old(View()), r)
    {
      match r.inference
      case None => response := InferenceFailed;
      case Some((decision, version)) =>
        var prediction := Prediction(r.pieceEventId, r.scenarioId, decision, version, false);
        predictionStore := predictionStore[r.freshId := prediction];
        response := Predicted(r.freshId);
    }

    method CreateIncident(kind: IncidentKind, predictionId: Option<string>)
      modifies `incidentStore
      ensures incidentStore == old(incidentStore) + [Incident(kind, predictionId)]
    {
      incidentStore := incidentStore + [Incident(kind, predictionId)];
    }

    /** `_get_open_prediction_for_feedback`: the prediction, or the error to answer with. */
    method GetOpenPrediction(r: FeedbackRequest) returns (error: Option<Response>, prediction: Prediction)
      modifies `incidentStore, `feedbackConflictTotal, `aiSecurityIncidentTotal, `invalidFeedbackTotal
      ensures error.None? ==>
        && r.predictionId in predictionStore && prediction == predictionStore[r.predictionId]
        && prediction.pieceEventId == r.pieceEventId && prediction.scenarioId == r.scenarioId
           && !prediction.feedbackClosed
        && View() == old(View())
      ensures error.Some? ==> (View(), error.value) == StepFeedback(old(View()), r)
    {
      error := None;
      if r.predictionId !in predictionStore {
        aiSecurityIncidentTotal := aiSecurityIncidentTotal + 1;
        invalidFeedbackTotal := invalidFeedbackTotal + 1;
        return Some(PredictionNotFound), Prediction("", "", OtherDecision, "", false);
      }
      prediction := predictionStore[r.predictionId];
      if prediction.pieceEventId != r.pieceEventId {
        feedbackConflictTotal := feedbackConflictTotal + 1;
        aiSecurityIncidentTotal := aiSecurityIncidentTotal + 1;
        CreateIncident(FeedbackConflict, Some(r.predictionId));
        error := Some(PieceMismatch);
      } else if prediction.scenarioId != r.scenarioId {
        feedbackConflictTotal := feedbackConflictTotal + 1;
        aiSecurityIncidentTotal := aiSecurityIncidentTotal + 1;
        CreateIncident(FeedbackConflict, Some(r.predictionId));
        error := Some(ScenarioMismatch);
      } else if prediction.feedbackClosed {
        invalidFeedbackTotal := invalidFeedbackTotal + 1;
        aiSecurityIncidentTotal := aiSecurityIncidentTotal + 1;
        error := Some(AlreadyClosed);
      }
    }

    method CloseWithOracle(r: FeedbackRequest, prediction: Prediction) returns (response: Response)
      modifies this
      ensures (View(), response) == Close(old(View()), r, prediction)
    {
      var verdict := VerdictOf(r.gtMaskHasDefect);
      var block := TrainBlock(r.gtMaskHasDefect, r.status);
      if block.Some? { unsafeTrainBlockedTotal := unsafeTrainBlockedTotal + 1; }
      var shown := r.predictionId in displayFeedbackStore;
      var source := if shown then HumanSophie else OracleGt;
      var record := FeedbackRecord(r.pieceEventId, r.scenarioId, verdict, source, block.None?, block, shown);
      predictionStore := predictionStore[r.predictionId := prediction.(feedbackClosed := true)];
      feedbackStore := feedbackStore[r.predictionId := record];
      ghost var before := incidentStore;
      if DivergenceOf(prediction.decision, verdict) == Some(MissedDefect) {
        CreateIncident(FalseNegative, Some(r.predictionId));
      }
      if block == Some(StatusRoiFail) { CreateIncident(RoiFailure, Some(r.predictionId)); }
      assert incidentStore == before + ClosureIncidents(r.predictionId, prediction.decision, verdict, block);
      response := Closed(block.None?, block, shown);
    }

    method Feedback(r: FeedbackRequest) returns (response: Response)
      modifies this
      ensures (View(), response) == StepFeedback(old(View()), r)
    {
      var error, prediction := GetOpenPrediction(r);
      if error.Some? { return error.value; }
      match r.source
      case HumanSophie =>
        unsafeTrainBlockedTotal := unsafeTrainBlockedTotal + 1;
        displayFeedbackStore := displayFeedbackStore[r.predictionId := DisplayRecord(r.status)];
        response := DisplayAccepted;
      case OtherSource =>
        invalidFeedbackTotal := invalidFeedbackTotal + 1;
        aiSecurityIncidentTotal := aiSecurityIncidentTotal + 1;
        response := UnknownSource;
      case OracleGt =>
        response := CloseWithOracle(r, prediction);
    }

    method ReloadModel(r: ReloadRequest) returns (response: Response)
      modifies this
      ensures (View(), response) == StepReload(old(View()), r)
    {
      if r.expectedToken == "" || r.token != Some(r.expectedToken) {
        reloadRefusedTotal := reloadRefusedTotal + 1;
        aiSecurityIncidentTotal := aiSecurityIncidentTotal + 1;
        CreateIncident(ReloadRefused, None);
        return Refused;
      }
      response := if r.reloads then Reloaded else ReloadFailed;
    }
  }
}
