/** The feedback service read off its requests and answers (src/iqa/api/main.py): every answer, every stored record
    and every incident follows from the history of requests, without looking into the stores. */
module FeedbackHistory {
  import opened ReplayEvents
  import opened FeedbackStore

  // ---------------------------------------------------------------------------- history

  /** Request i created this prediction. */
  ghost predicate Made(requests: seq<Request>, i: nat, id: string) {
    i < |requests| && requests[i].Predict? && requests[i].predict.freshId == id && requests[i].predict.inference.Some?
  }

  /** Request i closed this prediction. */
  ghost predicate ClosedIn(requests: seq<Request>, answers: seq<Response>, i: nat, id: string) {
    i < |requests| && i < |answers| && requests[i].Feedback? && requests[i].feedback.predictionId == id
      && answers[i].Closed?
  }

  /** Request i left display feedback on this prediction. */
  ghost predicate ShownIn(requests: seq<Request>, answers: seq<Response>, i: nat, id: string) {
    i < |requests| && i < |answers| && requests[i].Feedback? && requests[i].feedback.predictionId == id
      && answers[i].DisplayAccepted?
  }

  ghost predicate WasMade(requests: seq<Request>, id: string) { exists i: nat :: Made(requests, i, id) }

  ghost predicate WasClosed(requests: seq<Request>, answers: seq<Response>, id: string) {
    exists i: nat :: ClosedIn(requests, answers, i, id)
  }

  ghost predicate WasShown(requests: seq<Request>, answers: seq<Response>, id: string) {
    exists i: nat :: ShownIn(requests, answers, i, id)
  }

  // ---------------------------------------------------------------------------- what the history determines

  /** Which status keeps a piece without defect out of training, and why. */
  ghost predicate BlockedBecause(f: FeedbackRequest, block: Option<BlockReason>) {
    && (block == Some(OracleGtDefective) <==> f.gtMaskHasDefect)
    && (block == Some(StatusDefautConfirme) <==> !f.gtMaskHasDefect && f.status == Some(DefautConfirme))
    && (block == Some(StatusFauxNegatif) <==> !f.gtMaskHasDefect && f.status == Some(FauxNegatif))
    && (block == Some(StatusRoiWarning) <==> !f.gtMaskHasDefect && f.status == Some(RoiWarning))
    && (block == Some(StatusRoiFail) <==> !f.gtMaskHasDefect && f.status == Some(RoiFail))
  }

  /** The answer to feedback on the prediction that `p` created. */
  ghost predicate AnswersFeedback(requests: seq<Request>, answers: seq<Response>, p: PredictRequest, f: FeedbackRequest,
                                  answer: Response) {
    if p.pieceEventId != f.pieceEventId then answer == PieceMismatch
    else if p.scenarioId != f.scenarioId then answer == ScenarioMismatch
    else if WasClosed(requests, answers, f.predictionId) then answer == AlreadyClosed
    else if f.source == HumanSophie then answer == DisplayAccepted
    else if f.source == OtherSource then answer == UnknownSource
    else
      && answer.Closed? && (answer.eligibleForTrain <==> answer.blockReason == None)
      && BlockedBecause(f, answer.blockReason)
      && answer.conflictLogged == WasShown(requests, answers, f.predictionId)
  }

  /** The answer to a request after this history. */
  ghost predicate Answers(requests: seq<Request>, answers: seq<Response>, r: Request, answer: Response) {
    match r
    case Predict(p) => answer == if p.inference.Some? then Predicted(p.freshId) else InferenceFailed
    case Reload(l) =>
      answer == if l.expectedToken == "" || l.token != Some(l.expectedToken) then Refused
                else if l.reloads then Reloaded else ReloadFailed
    case Feedback(f) =>
      && (!WasMade(requests, f.predictionId) ==> answer == PredictionNotFound)
      && forall i: nat :: Made(requests, i, f.predictionId) ==>
           AnswersFeedback(requests, answers, requests[i].predict, f, answer)
  }

  ghost predicate StoredFrom(p: PredictRequest, closed: bool, stored: Prediction) {
    && p.inference.Some?
    && stored == Prediction(p.pieceEventId, p.scenarioId, p.inference.value.0, p.inference.value.1, closed)
  }

  ghost predicate RecordedFrom(f: FeedbackRequest, answer: Response, record: FeedbackRecord) {
    && answer.Closed?
    && record.pieceEventId == f.pieceEventId && record.scenarioId == f.scenarioId
    && record.verdict == (if f.gtMaskHasDefect then Defective else Conforme)
    && record.displaySource == (if answer.conflictLogged then HumanSophie else OracleGt)
    && record.eligibleForTrain == answer.eligibleForTrain && record.blockReason == answer.blockReason
    && record.conflictLogged == answer.conflictLogged
  }

  ghost predicate KnowsPredictions(s: Stores, requests: seq<Request>) {
    && (forall id :: id in s.predictions <==> WasMade(requests, id))
    && (forall i: nat, id :: Made(requests, i, id) ==>
        StoredFrom(requests[i].predict, id in s.feedback, s.predictions[id]))
  }

  ghost predicate KnowsRecords(s: Stores, requests: seq<Request>, answers: seq<Response>) {
    && (forall id :: id in s.feedback <==> WasClosed(requests, answers, id))
    && (forall i: nat, id :: ClosedIn(requests, answers, i, id) ==>
          RecordedFrom(requests[i].feedback, answers[i], s.feedback[id]))
  }

  ghost predicate LastShown(requests: seq<Request>, answers: seq<Response>, i: nat, id: string) {
    ShownIn(requests, answers, i, id) && forall j: nat :: ShownIn(requests, answers, j, id) ==> j <= i
  }

  ghost predicate KnowsDisplay(s: Stores, requests: seq<Request>, answers: seq<Response>) {
    && (forall id :: id in s.display <==> WasShown(requests, answers, id))
    && (forall i: nat, id :: LastShown(requests, answers, i, id) ==>
          s.display[id] == DisplayRecord(requests[i].feedback.status))
  }

  /** The stores hold exactly what the history says. */
  ghost predicate Remembers(s: Stores, requests: seq<Request>, answers: seq<Response>) {
    && |answers| == |requests|
    && KnowsPredictions(s, requests) && KnowsRecords(s, requests, answers) && KnowsDisplay(s, requests, answers)
  }

  // ---------------------------------------------------------------------------- one more request

  lemma {:induction false} RunSnoc(s: Stores, requests: seq<Request>, r: Request)
    ensures Run(s, requests + [r]) == Step(Run(s, requests), r).0
    ensures Responses(s, requests + [r]) == Responses(s, requests) + [Step(Run(s, requests), r).1]
    ensures AllFresh(s, requests + [r]) <==> AllFresh(s, requests) && Fresh(Run(s, requests), r)
    decreases |requests|
  {
    if requests == [] {
      assert requests + [r] == [r] && [r][1..] == [];
    } else {
      RunSnoc(Step(s, requests[0]).0, requests[1..], r);
      assert (requests + [r])[1..] == requests[1..] + [r];
    }
  }

  lemma HistoryGrows(requests: seq<Request>, answers: seq<Response>, r: Request, answer: Response, i: nat, id: string)
    requires |answers| == |requests|
    ensures Made(requests + [r], i, id)
      <==> Made(requests, i, id)
           || (i == |requests| && r.Predict? && r.predict.freshId == id && r.predict.inference.Some?)
    ensures ClosedIn(requests + [r], answers + [answer], i, id)
      <==> ClosedIn(requests, answers, i, id)
           || (i == |requests| && r.Feedback? && r.feedback.predictionId == id && answer.Closed?)
    ensures ShownIn(requests + [r], answers + [answer], i, id)
      <==> ShownIn(requests, answers, i, id)
           || (i == |requests| && r.Feedback? && r.feedback.predictionId == id && answer.DisplayAccepted?)
  {
  }

  lemma WasGrows(requests: seq<Request>, answers: seq<Response>, r: Request, answer: Response, id: string)
    requires |answers| == |requests|
    ensures WasMade(requests + [r], id)
      <==> WasMade(requests, id) || (r.Predict? && r.predict.freshId == id && r.predict.inference.Some?)
    ensures WasClosed(requests + [r], answers + [answer], id)
      <==> WasClosed(requests, answers, id) || (r.Feedback? && r.feedback.predictionId == id && answer.Closed?)
    ensures WasShown(requests + [r], answers + [answer], id)
      <==> WasShown(requests, answers, id) || (r.Feedback? && r.feedback.predictionId == id && answer.DisplayAccepted?)
  {
    forall i: nat
      ensures Made(requests + [r], i, id) ==> WasMade(requests, id) || i == |requests|
      ensures Made(requests, i, id) ==> Made(requests + [r], i, id)
      ensures ClosedIn(requests, answers, i, id) ==> ClosedIn(requests + [r], answers + [answer], i, id)
      ensures ShownIn(requests, answers, i, id) ==> ShownIn(requests + [r], answers + [answer], i, id)
    {
      HistoryGrows(requests, answers, r, answer, i, id);
    }
    HistoryGrows(requests, answers, r, answer, |requests|, id);
    if i: nat :| ClosedIn(requests + [r], answers + [answer], i, id) {
      HistoryGrows(requests, answers, r, answer, i, id);
    }
    if i: nat :| ShownIn(requests + [r], answers + [answer], i, id) {
      HistoryGrows(requests, answers, r, answer, i, id);
    }
    if i: nat :| Made(requests + [r], i, id) { HistoryGrows(requests, answers, r, answer, i, id); }
  }

  /** The stores answer as the history demands. */
  lemma StepAnswers(s: Stores, requests: seq<Request>, answers: seq<Response>, r: Request)
    requires StoresAgree(s) && Remembers(s, requests, answers)
    ensures Answers(requests, answers, r, Step(s, r).1)
  {
    if r.Feedback? {
      var f := r.feedback;
      forall i: nat | Made(requests, i, f.predictionId)
        ensures AnswersFeedback(requests, answers, requests[i].predict, f, Step(s, r).1)
      {
        assert WasMade(requests, f.predictionId);
        assert StoredFrom(requests[i].predict, f.predictionId in s.feedback, s.predictions[f.predictionId]);
      }
    }
  }

  /** What a request changes in the stores. */
  lemma StepChanges(s: Stores, r: Request)
    ensures var (t, answer) := Step(s, r);
      && t.predictions == (if answer.Predicted? then
                             s.predictions[r.predict.freshId := Prediction(r.predict.pieceEventId, r.predict.scenarioId,
                               r.predict.inference.value.0, r.predict.inference.value.1, false)]
                           else if answer.Closed? then
                             s.predictions[r.feedback.predictionId :=
                               s.predictions[r.feedback.predictionId].(feedbackClosed := true)]
                           else s.predictions)
      && t.feedback == (if answer.Closed? then s.feedback[r.feedback.predictionId := RecordOf(s, r.feedback)]
                        else s.feedback)
      && t.display == (if answer.DisplayAccepted?
                       then s.display[r.feedback.predictionId := DisplayRecord(r.feedback.status)] else s.display)
    ensures Step(s, r).1.Predicted? <==> r.Predict? && r.predict.inference.Some?
    ensures Step(s, r).1.Closed? ==>
      && r.Feedback? && r.feedback.predictionId in s.predictions
      && RecordedFrom(r.feedback, Step(s, r).1, RecordOf(s, r.feedback))
    ensures Step(s, r).1.DisplayAccepted? ==> r.Feedback?
  {
  }

  lemma StepKnowsPredictions(s: Stores, requests: seq<Request>, answers: seq<Response>, r: Request)
    requires StoresAgree(s) && Remembers(s, requests, answers) && Fresh(s, r)
    ensures KnowsPredictions(Step(s, r).0, requests + [r])
  {
    var (t, answer) := Step(s, r);
    StepChanges(s, r);
    forall id ensures id in t.predictions <==> WasMade(requests + [r], id) {
      WasGrows(requests, answers, r, answer, id);
    }
    forall i: nat, id | Made(requests + [r], i, id)
      ensures StoredFrom((requests + [r])[i].predict, id in t.feedback, t.predictions[id])
    {
      HistoryGrows(requests, answers, r, answer, i, id);
      if Made(requests, i, id) {
        assert WasMade(requests, id);
        assert StoredFrom(requests[i].predict, id in s.feedback, s.predictions[id]);
      } else {
        assert r.predict.freshId !in s.feedback;
      }
    }
  }

  lemma StepKnowsRecords(s: Stores, requests: seq<Request>, answers: seq<Response>, r: Request)
    requires StoresAgree(s) && Remembers(s, requests, answers)
    ensures KnowsRecords(Step(s, r).0, requests + [r], answers + [Step(s, r).1])
  {
    var (t, answer) := Step(s, r);
    StepChanges(s, r);
    forall id ensures id in t.feedback <==> WasClosed(requests + [r], answers + [answer], id) {
      WasGrows(requests, answers, r, answer, id);
    }
    forall i: nat, id | ClosedIn(requests + [r], answers + [answer], i, id)
      ensures RecordedFrom((requests + [r])[i].feedback, (answers + [answer])[i], t.feedback[id])
    {
      HistoryGrows(requests, answers, r, answer, i, id);
      if ClosedIn(requests, answers, i, id) {
        assert WasClosed(requests, answers, id);
        ClosedStaysClosed(s, r, id);
      }
    }
  }

  lemma ClosedStaysClosed(s: Stores, r: Request, id: string)
    requires StoresAgree(s) && id in s.feedback
    ensures id in Step(s, r).0.feedback && Step(s, r).0.feedback[id] == s.feedback[id]
  {
    StepChanges(s, r);
    if Step(s, r).1.Closed? && r.feedback.predictionId == id { ClosedWasOpen(s, r, id); }
  }

  lemma StepKnowsDisplay(s: Stores, requests: seq<Request>, answers: seq<Response>, r: Request)
    requires Remembers(s, requests, answers)
    ensures KnowsDisplay(Step(s, r).0, requests + [r], answers + [Step(s, r).1])
  {
    var (t, answer) := Step(s, r);
    var more, replies := requests + [r], answers + [answer];
    StepChanges(s, r);
    forall id ensures id in t.display <==> WasShown(more, replies, id) { WasGrows(requests, answers, r, answer, id); }
    forall i: nat, id | LastShown(more, replies, i, id)
      ensures t.display[id] == DisplayRecord(more[i].feedback.status)
    {
      HistoryGrows(requests, answers, r, answer, i, id);
      HistoryGrows(requests, answers, r, answer, |requests|, id);
      if i < |requests| {
        forall j: nat | ShownIn(requests, answers, j, id) ensures j <= i {
          HistoryGrows(requests, answers, r, answer, j, id);
        }
      }
    }
  }

  // ---------------------------------------------------------------------------- whole histories

  /** From an empty service the stores hold exactly what the requests and answers say: every prediction with the piece,
      scenario, decision and model version that were predicted for it, every record with what its oracle request said,
      and the last display feedback. */
  lemma {:induction false} StoresFollowHistory(requests: seq<Request>)
    requires AllFresh(EMPTY, requests)
    ensures Remembers(Run(EMPTY, requests), requests, Responses(EMPTY, requests))
    ensures Consistent(Run(EMPTY, requests))
    decreases |requests|
  {
    if requests == [] {
      EmptyConsistent();
      NothingHappened();
    } else {
      var front, r := requests[..|requests| - 1], requests[|requests| - 1];
      assert requests == front + [r];
      RunSnoc(EMPTY, front, r);
      StoresFollowHistory(front);
      NextRemembers(Run(EMPTY, front), front, Responses(EMPTY, front), r);
      StepConsistent(Run(EMPTY, front), r);
    }
  }

  lemma NothingHappened()
    ensures Remembers(EMPTY, [], [])
  {
  }

  lemma NextRemembers(s: Stores, requests: seq<Request>, answers: seq<Response>, r: Request)
    requires StoresAgree(s) && Remembers(s, requests, answers) && Fresh(s, r)
    ensures Remembers(Step(s, r).0, requests + [r], answers + [Step(s, r).1])
  {
    StepKnowsPredictions(s, requests, answers, r);
    StepKnowsRecords(s, requests, answers, r);
    StepKnowsDisplay(s, requests, answers, r);
  }

  lemma {:induction false} PrefixFresh(s: Stores, requests: seq<Request>, n: nat)
    requires AllFresh(s, requests) && n <= |requests|
    ensures AllFresh(s, requests[..n]) && |Responses(s, requests)| == |requests|
    ensures Responses(s, requests[..n]) == Responses(s, requests)[..n]
    decreases |requests|
  {
    ResponseCount(s, requests);
    ResponseCount(s, requests[..n]);
    if n < |requests| {
      var front, r := requests[..|requests| - 1], requests[|requests| - 1];
      assert requests == front + [r];
      RunSnoc(s, front, r);
      PrefixFresh(s, front, n);
      ResponseCount(s, front);
      assert front[..n] == requests[..n];
    } else {
      assert requests[..n] == requests;
    }
  }

  lemma {:induction false} ResponseCount(s: Stores, requests: seq<Request>)
    ensures |Responses(s, requests)| == |requests|
    decreases |requests|
  {
    if requests != [] { ResponseCount(Step(s, requests[0]).0, requests[1..]); }
  }

  /** Every answer of a service started empty is what the requests and answers before it demand. */
  lemma AnswersFollowHistory(requests: seq<Request>, j: nat)
    requires AllFresh(EMPTY, requests) && j < |requests|
    ensures |Responses(EMPTY, requests)| == |requests|
    ensures Answers(requests[..j], Responses(EMPTY, requests)[..j], requests[j], Responses(EMPTY, requests)[j])
  {
    ResponseCount(EMPTY, requests);
    PrefixFresh(EMPTY, requests, j);
    PrefixFresh(EMPTY, requests, j + 1);
    var front := requests[..j];
    assert requests[..j + 1] == front + [requests[j]];
    RunSnoc(EMPTY, front, requests[j]);
    StoresFollowHistory(front);
    StepAnswers(Run(EMPTY, front), front, Responses(EMPTY, front), requests[j]);
    assert Responses(EMPTY, requests)[..j + 1][j] == Responses(EMPTY, requests)[j];
  }

  // ---------------------------------------------------------------------------- incidents

  lemma {:induction false} CountedIsIn(xs: seq<Incident>, i: Incident)
    ensures CountIf(xs, (x: Incident) => x == i) > 0 <==> i in xs
  {
    if xs != [] { CountedIsIn(xs[1..], i); }
  }

  lemma AboutIsIn(xs: seq<Incident>, kind: IncidentKind, id: string)
    ensures CountIf(xs, About(kind, id)) > 0 <==> Incident(kind, Some(id)) in xs
  {
    var p := (x: Incident) => x == Incident(kind, Some(id));
    CountIfImplies(xs, p, About(kind, id));
    CountIfImplies(xs, About(kind, id), p);
    CountedIsIn(xs, Incident(kind, Some(id)));
  }

  /** A closure comes after the prediction it closes. */
  lemma ClosedAfterMade(requests: seq<Request>, j: nat, id: string)
    requires AllFresh(EMPTY, requests) && ClosedIn(requests, Responses(EMPTY, requests), j, id)
    ensures exists i: nat :: i < j && Made(requests, i, id)
  {
    AnswersFollowHistory(requests, j);
    assert WasMade(requests[..j], id);
    var i: nat :| Made(requests[..j], i, id);
    assert Made(requests, i, id);
  }

  /** Request i predicted Vert, and the accepted oracle request j found a defect. */
  ghost predicate MissedBy(requests: seq<Request>, answers: seq<Response>, i: nat, j: nat, id: string) {
    && Made(requests, i, id) && requests[i].predict.inference.value.0 == Vert
    && ClosedIn(requests, answers, j, id) && requests[j].feedback.gtMaskHasDefect
  }

  lemma MissedHasHistory(requests: seq<Request>, id: string) returns (i: nat, j: nat)
    requires AllFresh(EMPTY, requests) && Missed(Run(EMPTY, requests), id)
    ensures i < j && MissedBy(requests, Responses(EMPTY, requests), i, j, id)
  {
    var t, answers := Run(EMPTY, requests), Responses(EMPTY, requests);
    StoresFollowHistory(requests);
    j :| ClosedIn(requests, answers, j, id);
    ClosedAfterMade(requests, j, id);
    i :| i < j && Made(requests, i, id);
    assert StoredFrom(requests[i].predict, id in t.feedback, t.predictions[id]);
    assert RecordedFrom(requests[j].feedback, answers[j], t.feedback[id]);
  }

  lemma HistoryIsMissed(requests: seq<Request>, id: string, i: nat, j: nat)
    requires AllFresh(EMPTY, requests) && MissedBy(requests, Responses(EMPTY, requests), i, j, id)
    ensures Missed(Run(EMPTY, requests), id)
  {
    var t, answers := Run(EMPTY, requests), Responses(EMPTY, requests);
    StoresFollowHistory(requests);
    assert WasMade(requests, id) && WasClosed(requests, answers, id);
    assert StoredFrom(requests[i].predict, id in t.feedback, t.predictions[id]);
    assert RecordedFrom(requests[j].feedback, answers[j], t.feedback[id]);
  }

  ghost predicate WasMissed(requests: seq<Request>, answers: seq<Response>, id: string) {
    exists i: nat, j: nat :: i < j && MissedBy(requests, answers, i, j, id)
  }

  lemma MissedIff(requests: seq<Request>, id: string)
    requires AllFresh(EMPTY, requests)
    ensures Missed(Run(EMPTY, requests), id) <==> WasMissed(requests, Responses(EMPTY, requests), id)
  {
    var answers := Responses(EMPTY, requests);
    if Missed(Run(EMPTY, requests), id) {
      var i, j := MissedHasHistory(requests, id);
      assert WasMissed(requests, answers, id);
    }
    if WasMissed(requests, answers, id) {
      var i: nat, j: nat :| i < j && MissedBy(requests, answers, i, j, id);
      HistoryIsMissed(requests, id, i, j);
    }
  }

  lemma ReportedOnce(t: Stores, id: string)
    requires IncidentsAbout(t, id)
    ensures CountIf(t.incidents, About(FalseNegative, id)) <= 1 && CountIf(t.incidents, About(RoiFailure, id)) <= 1
    ensures Incident(FalseNegative, Some(id)) in t.incidents <==> Missed(t, id)
    ensures Incident(RoiFailure, Some(id)) in t.incidents <==> RoiBlocked(t, id)
  {
    AboutIsIn(t.incidents, FalseNegative, id);
    AboutIsIn(t.incidents, RoiFailure, id);
  }

  /** A missed defect is reported, once, exactly when a prediction answered Vert was closed afterwards by an oracle
      request with a defect. */
  lemma FalseNegativeIff(requests: seq<Request>, id: string)
    requires AllFresh(EMPTY, requests)
    ensures CountIf(Run(EMPTY, requests).incidents, About(FalseNegative, id)) <= 1
    ensures Incident(FalseNegative, Some(id)) in Run(EMPTY, requests).incidents
      <==> WasMissed(requests, Responses(EMPTY, requests), id)
  {
    StoresFollowHistory(requests);
    ReportedOnce(Run(EMPTY, requests), id);
    MissedIff(requests, id);
  }

  /** A failed ROI is reported, once, exactly when an oracle request without a defect closed the piece with that
      status. */
  lemma RoiFailureIff(requests: seq<Request>, id: string)
    requires AllFresh(EMPTY, requests)
    ensures var t, answers := Run(EMPTY, requests), Responses(EMPTY, requests);
      && CountIf(t.incidents, About(RoiFailure, id)) <= 1
      && (Incident(RoiFailure, Some(id)) in t.incidents <==>
            exists j: nat :: ClosedIn(requests, answers, j, id)
              && !requests[j].feedback.gtMaskHasDefect && requests[j].feedback.status == Some(RoiFail))
  {
    var t, answers := Run(EMPTY, requests), Responses(EMPTY, requests);
    StoresFollowHistory(requests);
    ReportedOnce(t, id);
    forall j: nat | ClosedIn(requests, answers, j, id)
      ensures id in t.feedback
        && (t.feedback[id].blockReason == Some(StatusRoiFail)
            <==> !requests[j].feedback.gtMaskHasDefect && requests[j].feedback.status == Some(RoiFail))
    {
      assert WasClosed(requests, answers, id);
      assert RecordedFrom(requests[j].feedback, answers[j], t.feedback[id]);
      ClosureBlock(requests, j, id);
    }
  }

  lemma ClosureBlock(requests: seq<Request>, j: nat, id: string)
    requires AllFresh(EMPTY, requests) && ClosedIn(requests, Responses(EMPTY, requests), j, id)
    ensures BlockedBecause(requests[j].feedback, Responses(EMPTY, requests)[j].blockReason)
  {
    AnswersFollowHistory(requests, j);
    assert WasMade(requests[..j], id);
    var i: nat :| Made(requests[..j], i, id);
    assert AnswersFeedback(requests[..j], Responses(EMPTY, requests)[..j], requests[..j][i].predict,
                           requests[j].feedback,
                           Responses(EMPTY, requests)[j]);
  }
}
