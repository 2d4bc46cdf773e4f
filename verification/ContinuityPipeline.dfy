/** The pipeline of src/shyam/continuity/service.py run without interruption, and when it completes. */
module ContinuityPipeline {
  import opened Options
  import opened Continuity
  import opened ContinuityTheorems
  import Trust
  import S = ContinuitySystem

  /** What the collaborators would answer: `trust` by device, `transfer` by how many transfers went before. */
  datatype Collaborators = Collaborators(
    nav: NavReply, trust: string -> TrustReply, transfer: nat -> TransferReply, zarya: ZaryaReply)

  function TrustAnswer(t: Task, cs: Collaborators): TrustReply {
    if t.session.target.Some? then cs.trust(t.session.target.value.nodeId) else NoRecord
  }

  /** What they answer in the next stage of `t`. */
  function AnswersFor(t: Task, cs: Collaborators): Answers {
    Answers(cs.nav, TrustAnswer(t, cs), cs.transfer(t.sent), cs.zarya)
  }

  /** One transfer, made and answered. */
  function SentNext(t: Task, cs: Collaborators): Task
    requires t.session.state == Transferring && Transfers(t)
  {
    TransferStage(t, cs.transfer(t.sent)).value
  }

  /** The rest of the loop over the artifacts. */
  function SentAll(t: Task, cs: Collaborators): Task
    decreases |t.session.request.artifacts| - t.sent
  {
    if t.session.state == Transferring && Transfers(t) then SentAll(SentNext(t, cs), cs) else t
  }

  predicate Over(t: Task) {
    Terminal(t.session.state)
  }

  /** _run_pipeline, with its early returns. */
  function Pipeline(t: Task, cs: Collaborators): Outcome<Task> {
    var t1 :- Admitted(t, cs);
    if Over(t1) then Ok(t1)
    else
      var t2 :- Trusting(t1, cs);
      if Over(t2) then Ok(t2) else Delivered(t2, cs)
  }

  /** _run_pipeline up to the selection of the target. */
  function Admitted(t: Task, cs: Collaborators): Outcome<Task> {
    var t1 :- ValidateStage(t);
    if Over(t1) then Ok(t1) else SelectStage(t1, cs.nav)
  }

  /** The authorization of the target, with the read of its trust record. */
  function Trusting(t: Task, cs: Collaborators): Outcome<Task> {
    var t1 :- AuthorizeStage(t);
    if Over(t1) || !AwaitsTrust(t1) then Ok(t1) else TrustStage(t1, TrustAnswer(t1, cs))
  }

  /** _run_pipeline up to the loop over the artifacts. */
  function Begun(t: Task): Outcome<Task> {
    var t1 :- PrepareStage(t);
    BeginTransfersStage(t1)
  }

  /** _run_pipeline from the continuation on. */
  function Finished(t: Task, cs: Collaborators): Outcome<Task> {
    var t1 :- Asking(t, cs);
    if Over(t1) then Ok(t1) else VerifyStage(t1)
  }

  /** The continuation on the target, with its answer. */
  function Asking(t: Task, cs: Collaborators): Outcome<Task> {
    var t1 :- ContinueStage(t);
    if Over(t1) || !AwaitsAnswer(t1) then Ok(t1) else AnswerStage(t1, cs.zarya)
  }

  /** _run_pipeline once the target is authorized. */
  function Delivered(t: Task, cs: Collaborators): Outcome<Task> {
    var t1 :- Begun(t);
    var t2 := SentAll(t1, cs);
    if Over(t2) then Ok(t2) else Finished(t2, cs)
  }

  // The uninterrupted pipeline is one of the interleavings.

  /** Stages of the pipeline, each with the answers of these collaborators, take `t` to `u`. */
  ghost predicate Reaches(t: Task, u: Task, cs: Collaborators) {
    exists answers :: S.Alone(t, answers) == u && AnsweredBy(t, answers, cs)
  }

  ghost predicate AnsweredBy(t: Task, answers: seq<Answers>, cs: Collaborators) {
    answers != [] ==>
      var before := answers[..|answers| - 1];
      AnsweredBy(t, before, cs) && answers[|answers| - 1] == AnswersFor(S.Alone(t, before), cs)
  }

  lemma ReachesThen(t: Task, u: Task, cs: Collaborators)
    requires Reaches(t, u, cs)
    ensures Reaches(t, S.Next(u, AnswersFor(u, cs)), cs)
  {
    var first :| S.Alone(t, first) == u && AnsweredBy(t, first, cs);
    var answers := first + [AnswersFor(u, cs)];
    assert answers[..|answers| - 1] == first;
    assert S.Alone(t, answers) == S.Next(u, AnswersFor(u, cs)) && AnsweredBy(t, answers, cs);
  }

  /** A stage that is the next one of `t` keeps what was reached from `from`, and stays sound. */
  lemma StageReaches(from: Task, t: Task, cs: Collaborators)
    requires Sound(t) && !Over(t) && Reaches(from, t, cs)
    ensures
      var u := S.Next(t, AnswersFor(t, cs));
      Advanced(t, AnswersFor(t, cs)) == Ok(u) && Sound(u) && u.session.id == t.session.id && Reaches(from, u, cs)
  {
    var a := AnswersFor(t, cs);
    StageProceeds(t, a);
    ReachesThen(from, t, cs);
  }

  lemma {:induction false} SentAllReaches(from: Task, t: Task, cs: Collaborators)
    requires Sound(t) && t.session.state == Transferring && Reaches(from, t, cs)
    ensures
      var u := SentAll(t, cs);
      && Sound(u) && u.session.id == t.session.id && Reaches(from, u, cs)
      && (Over(u) || (u.session.state == Transferring && !Transfers(u)))
    decreases |t.session.request.artifacts| - t.sent
  {
    if Transfers(t) {
      StageReaches(from, t, cs);
      var u := SentNext(t, cs);
      if u.session.state == Transferring {
        SentAllReaches(from, u, cs);
      }
    }
  }

  /** `o` is reached from `from` by legal transitions, as a sound task of session `id`. */
  ghost predicate Arrives(from: Task, o: Outcome<Task>, id: string, cs: Collaborators) {
    o.Ok? && Sound(o.value) && o.value.session.id == id && Reaches(from, o.value, cs)
  }

  lemma ReachesItself(t: Task, cs: Collaborators)
    ensures Reaches(t, t, cs)
  {
    assert S.Alone(t, []) == t && AnsweredBy(t, [], cs);
  }

  lemma SelectReaches(from: Task, t: Task, cs: Collaborators)
    requires Sound(t) && t.session.state == Validating && Reaches(from, t, cs)
    ensures Arrives(from, SelectStage(t, cs.nav), t.session.id, cs)
    ensures var u := SelectStage(t, cs.nav).value; Over(u) || u.session.state == TargetSelected
  {
    StageReaches(from, t, cs);
  }

  lemma AdmittedReaches(t: Task, cs: Collaborators)
    requires Sound(t) && t.session.state == Requested
    ensures Arrives(t, Admitted(t, cs), t.session.id, cs)
    ensures Over(Admitted(t, cs).value) || Admitted(t, cs).value.session.state == TargetSelected
  {
    ReachesItself(t, cs);
    StageReaches(t, t, cs);
    var t1 := ValidateStage(t).value;
    if !Over(t1) {
      SelectReaches(t, t1, cs);
    }
  }

  lemma {:induction false} TrustingReaches(from: Task, t: Task, cs: Collaborators)
    requires Sound(t) && t.session.state == TargetSelected && Reaches(from, t, cs)
    ensures Arrives(from, Trusting(t, cs), t.session.id, cs)
    ensures var u := Trusting(t, cs).value; Over(u) || (u.session.state == Authorized && !AwaitsTrust(u))
  {
    StageReaches(from, t, cs);
    var t1 := AuthorizeStage(t).value;
    StageReaches(from, t1, cs);
  }

  lemma BegunReaches(from: Task, t: Task, cs: Collaborators)
    requires Sound(t) && t.session.state == Authorized && !AwaitsTrust(t) && Reaches(from, t, cs)
    ensures Arrives(from, Begun(t), t.session.id, cs) && Begun(t).value.session.state == Transferring
  {
    StageReaches(from, t, cs);
    StageReaches(from, PrepareStage(t).value, cs);
  }

  lemma AskingReaches(from: Task, t: Task, cs: Collaborators)
    requires Sound(t) && t.session.state == Transferring && !Transfers(t) && Reaches(from, t, cs)
    ensures Arrives(from, Asking(t, cs), t.session.id, cs)
    ensures var u := Asking(t, cs).value; Over(u) || (u.session.state == Continuing && !AwaitsAnswer(u))
  {
    StageReaches(from, t, cs);
    StageReaches(from, ContinueStage(t).value, cs);
  }

  lemma VerifyReaches(from: Task, t: Task, cs: Collaborators)
    requires Sound(t) && t.session.state == Continuing && !AwaitsAnswer(t) && Reaches(from, t, cs)
    ensures Arrives(from, VerifyStage(t), t.session.id, cs) && Over(VerifyStage(t).value)
  {
    StageReaches(from, t, cs);
  }

  lemma {:induction false} FinishedReaches(from: Task, t: Task, cs: Collaborators)
    requires Sound(t) && t.session.state == Transferring && !Transfers(t) && Reaches(from, t, cs)
    ensures Arrives(from, Finished(t, cs), t.session.id, cs) && Over(Finished(t, cs).value)
  {
    AskingReaches(from, t, cs);
    var t1 := Asking(t, cs).value;
    if !Over(t1) {
      VerifyReaches(from, t1, cs);
    }
  }

  lemma {:induction false} DeliveredReaches(from: Task, t: Task, cs: Collaborators)
    requires Sound(t) && t.session.state == Authorized && !AwaitsTrust(t) && Reaches(from, t, cs)
    ensures Arrives(from, Delivered(t, cs), t.session.id, cs) && Over(Delivered(t, cs).value)
  {
    BegunReaches(from, t, cs);
    var t1 := Begun(t).value;
    SentAllReaches(from, t1, cs);
    if !Over(SentAll(t1, cs)) {
      FinishedReaches(from, SentAll(t1, cs), cs);
    }
  }

  /** The uninterrupted pipeline makes no illegal transition and is a sequence of stages that ends in a terminal state:
      what holds of every interleaving of stages holds of it. */
  lemma {:induction false} PipelineIsStages(id: string, r: Request, cs: Collaborators)
    ensures
      var o := Pipeline(NewTask(id, r), cs);
      Arrives(NewTask(id, r), o, id, cs) && Over(o.value)
  {
    var t := NewTask(id, r);
    AdmittedReaches(t, cs);
    var t1 := Admitted(t, cs).value;
    if !Over(t1) {
      TrustingReaches(t, t1, cs);
      var t2 := Trusting(t1, cs).value;
      if !Over(t2) {
        DeliveredReaches(t, t2, cs);
      }
    }
  }

  // When a request completes.

  /** An answer after which the next artifact is sent. */
  predicate GoesOn(reply: TransferReply) {
    reply.Sent? && reply.status !in {Some("FAILED"), Some("CANCELLED")}
  }

  lemma {:induction false} SentAllExactly(t: Task, cs: Collaborators)
    requires t.session.state == Transferring && t.session.target.Some?
    ensures
      var u := SentAll(t, cs);
      && (if forall k | t.sent <= k < |t.session.request.artifacts| :: GoesOn(cs.transfer(k))
          then u.session.state == Transferring else u.session.state == Failed)
      && u.session.target == t.session.target && u.session.operationId == t.session.operationId
    decreases |t.session.request.artifacts| - t.sent
  {
    if Transfers(t) && SentNext(t, cs).session.state == Transferring {
      SentAllExactly(SentNext(t, cs), cs);
    }
  }

  lemma FinishedExactly(t: Task, cs: Collaborators)
    requires t.session.state == Transferring && t.session.target.Some? && t.session.operationId.None?
    ensures Finished(t, cs).Ok?
    ensures
      Finished(t, cs).value.session.state == Completed <==> cs.zarya.Answered? && cs.zarya.outcome == VerifiedSuccess
  {
  }

  lemma AdmittedExactly(id: string, r: Request, cs: Collaborators)
    ensures
      var o := Admitted(NewTask(id, r), cs);
      && o.Ok?
      && if Portable(r) && cs.nav.Chosen? then
           && o.value.session.state == TargetSelected && o.value.sent == 0 && o.value.session.request == r
           && AwaitsTrust(o.value) && o.value.session.target.value.nodeId == cs.nav.nodeId
           && o.value.session.operationId.None?
         else o.value.session.state in {Failed, Unsupported}
  {
  }

  lemma TrustingExactly(t: Task, cs: Collaborators)
    requires t.session.state == TargetSelected && AwaitsTrust(t) && t.session.operationId.None?
    ensures
      var o := Trusting(t, cs);
      && o.Ok?
      && if cs.trust(t.session.target.value.nodeId) == Record(Trust.Trusted) then
           && o.value.session.state == Authorized && o.value.session.target.Some? && o.value.session.operationId.None?
           && o.value.sent == t.sent && o.value.session.request == t.session.request
         else o.value.session.state == Failed
  {
  }

  lemma BegunExactly(t: Task)
    requires t.session.state == Authorized && t.session.target.Some? && t.session.operationId.None?
    ensures
      var o := Begun(t);
      && o.Ok? && o.value.session.state == Transferring
      && o.value.session.target.Some? && o.value.session.operationId.None?
      && o.value.sent == t.sent && o.value.session.request == t.session.request
  {
  }

  lemma DeliveredExactly(t: Task, cs: Collaborators)
    requires t.session.state == Authorized && t.session.target.Some? && t.session.operationId.None? && t.sent == 0
    ensures Delivered(t, cs).Ok?
    ensures
      Delivered(t, cs).value.session.state == Completed
      <==> (&& (forall k | 0 <= k < |t.session.request.artifacts| :: GoesOn(cs.transfer(k)))
            && cs.zarya.Answered? && cs.zarya.outcome == VerifiedSuccess)
  {
    BegunExactly(t);
    var t1 := Begun(t).value;
    SentAllExactly(t1, cs);
    if !Over(SentAll(t1, cs)) {
      FinishedExactly(SentAll(t1, cs), cs);
    }
  }

  /** A request completes exactly when it is valid, a target is selected whose record is TRUSTED, every transfer is
      answered with some status other than FAILED and CANCELLED, and the target replies VERIFIED_SUCCESS. */
  lemma CompletesExactly(id: string, r: Request, cs: Collaborators)
    ensures Pipeline(NewTask(id, r), cs).Ok?
    ensures
      Pipeline(NewTask(id, r), cs).value.session.state == Completed
      <==> (&& Portable(r) && cs.nav.Chosen? && cs.trust(cs.nav.nodeId) == Record(Trust.Trusted)
            && (forall k | 0 <= k < |r.artifacts| :: GoesOn(cs.transfer(k)))
            && cs.zarya.Answered? && cs.zarya.outcome == VerifiedSuccess)
  {
    AdmittedExactly(id, r, cs);
    if Portable(r) && cs.nav.Chosen? {
      var t1 := Admitted(NewTask(id, r), cs).value;
      TrustingExactly(t1, cs);
      var t2 := Trusting(t1, cs).value;
      if t2.session.state == Authorized {
        DeliveredExactly(t2, cs);
      }
    }
  }

  /** So transfers that are all still running are reported as completed. */
  lemma RunningTransfersReportedCompleted(id: string, r: Request, cs: Collaborators)
    requires Portable(r) && r.artifacts != [] && cs.nav.Chosen? && cs.trust(cs.nav.nodeId) == Record(Trust.Trusted)
    requires forall k :: cs.transfer(k).Sent? && cs.transfer(k).status == Some("RUNNING")
    requires cs.zarya.Answered? && cs.zarya.outcome == VerifiedSuccess
    ensures
      var o := Pipeline(NewTask(id, r), cs);
      && o.Ok? && o.value.session.state == Completed
      && o.value.session.result.Some? && o.value.session.result.value.transferCompleted
  {
    CompletesExactly(id, r, cs);
    PipelineIsStages(id, r, cs);
    ResultAgrees(Pipeline(NewTask(id, r), cs).value);
  }
}
