/** What each continuity session does, stage by stage, whatever the collaborators answer. */
module ContinuityTheorems {
  import opened Options
  import opened Continuity
  import Trust

  /** A call whose answer lets the pipeline make another call. */
  predicate Passed(e: Effect) {
    match e
    case TrustRead(_, trust) => trust == Record(Trust.Trusted)
    case Transfer(_, _, transfer) => transfer.Sent? && !Stops(transfer.status)
    case Continue(_, _, _, _, _) => false
  }

  /** Call k of a session with this request and target can only be this one. */
  predicate InPlace(k: nat, e: Effect, id: string, r: Request, t: Target) {
    match e
    case TrustRead(device, _) => k == 0 && device == t.nodeId
    case Transfer(peer, path, _) => 1 <= k <= |r.artifacts| && path == r.artifacts[k - 1] && peer == Peer(t)
    case Continue(work, source, cid, url, _) =>
      k == |r.artifacts| + 1 && work == r.portableWork && source == r.source && cid == id && url == Url(t)
  }

  /** The calls of a session: the trust record of the target, then the artifacts in order to one peer, then one
      continuation; and each but the last was answered so that the next may be made. */
  ghost predicate Disciplined(t: Task) {
    var s, es := t.session, t.effects;
    && (es != [] ==> s.target.Some?)
    && (forall k | 0 <= k < |es| :: InPlace(k, es[k], s.id, s.request, s.target.value))
    && (forall k | 0 <= k < |es| - 1 :: Passed(es[k]))
  }

  /** The last call was a continuation answered with `v`. */
  predicate RepliedWith(t: Task, v: Verification) {
    t.effects != [] &&
    var last := t.effects[|t.effects| - 1];
    last.Continue? && last.zarya.Answered? && last.zarya.outcome == v
  }

  /** The last call was answered so that the session has to fail. */
  predicate Refused(t: Task) {
    t.effects != [] &&
    var last := t.effects[|t.effects| - 1];
    !Passed(last) && !(last.Continue? && last.zarya.Answered?)
  }

  predicate HasResult(t: Task, outcome: ResultOutcome) {
    t.session.result.Some? && t.session.result.value.outcome == outcome
  }

  /** A valid request, whose target is verified and has not been asked to continue. */
  predicate Going(t: Task) {
    Portable(t.session.request) && t.session.operationId.None? && t.session.target.Some?
    && t.session.target.value.trustVerified
  }

  /** What holds of a session in each state it can be in between stages. */
  ghost predicate Staged(t: Task) {
    var s, n, calls := t.session, |t.session.request.artifacts|, |t.effects|;
    match s.state
    case Requested => calls == 0 && t.sent == 0 && s.target.None? && s.operationId.None? && s.result.None?
    case Validating =>
      calls == 0 && t.sent == 0 && s.target.None? && s.operationId.None? && Portable(s.request) && s.result.None?
    case TargetSelected =>
      calls == 0 && t.sent == 0 && AwaitsTrust(t) && s.operationId.None? && Portable(s.request) && s.result.None?
    case Authorized =>
      && t.sent == 0 && s.target.Some? && s.operationId.None? && Portable(s.request) && s.result.None?
      && if AwaitsTrust(t) then calls == 0 else calls == 1 && Passed(t.effects[0])
    case Preparing => calls == 1 && t.sent == 0 && Going(t) && Passed(t.effects[0]) && s.result.None?
    case Transferring => calls == 1 + t.sent && t.sent <= n && Going(t) && Passed(t.effects[t.sent]) && Pending(s)
    case Continuing =>
      if s.operationId.None? then calls == 1 + t.sent && t.sent == n && Going(t) && Passed(t.effects[n]) && Pending(s)
      else calls == n + 2 && Portable(s.request) && exists v :: Replied(t, v)
    case Completed => HasResult(t, Succeeded) && Replied(t, VerifiedSuccess) && !Migrates(s.request)
    case Unknown => HasResult(t, NotKnown) && Replied(t, VerificationUnknown) && !Migrates(s.request)
    case Unsupported =>
      && calls == 0 && Migrates(s.request) && HasResult(t, NotSupported)
      && s.result.value == Result(NotSupported, false, false, false, None, s.result.value.reason)
    case Failed =>
      && HasResult(t, DidFail) && !Migrates(s.request)
      && (Replied(t, VerifiedFailure) || Excused(t))
    case _ => false
  }

  /** Before the target answers there is no result, but for a request with nothing to transfer. */
  predicate Pending(s: Session) {
    s.result == if s.request.artifacts == [] then Some(Result(Succeeded, true, false, false, None, "")) else None
  }

  /** The reason of a failure that the answer to a call forced. */
  predicate Blames(e: Effect, reason: string) {
    match e
    case TrustRead(_, TrustRaised(error)) => reason == "Trust verification failed: " + error
    case TrustRead(_, Record(Revoked)) => reason == "Target trust status: revoked"
    case TrustRead(device, _) => reason == "No trust relationship with " + device
    case Transfer(_, _, TransferRaised(error)) => reason == "Artifact transfer failed: " + error
    case Transfer(_, _, Sent(status, _)) =>
      status.Some? && reason == "Artifact transfer failed with status: " + status.value
    case Continue(_, _, _, _, ZaryaRaised(error)) => reason == "Target continuation failed: " + error
    case Continue(_, _, _, _, _) => false
  }

  /** The reason of a failure without a call: an invalid request, or no target. */
  predicate Unfit(r: Request, reason: string) {
    if r.portableWork.End? then reason == "Empty portable_work"
    else if r.workId == "" then reason == "Missing work_id"
    else "Target selection failed: " <= reason || "No eligible target: " <= reason
  }

  /** A session that failed without a reply reports nothing as completed, and why it failed. */
  predicate Excused(t: Task) {
    t.session.result.Some? &&
    var result := t.session.result.value;
    && result == Result(DidFail, false, false, false, None, result.reason)
    && if t.effects == [] then Unfit(t.session.request, result.reason)
       else Refused(t) && Blames(t.effects[|t.effects| - 1], result.reason)
  }

  /** The target answered `v`, and the session reports all of its answer. */
  predicate Replied(t: Task, v: Verification) {
    RepliedWith(t, v) && t.session.result.Some? &&
    var answer, result := t.effects[|t.effects| - 1].zarya, t.session.result.value;
    && t.session.operationId == Some(answer.operationId)
    && result.zarya == Some(v) && result.transferCompleted && result.reason == answer.summary
    && result.reconstructionCompleted == answer.reconstructed && result.executionCompleted == answer.executed
  }

  /** Once the last artifact has been sent, the session carries the id of its transfer. */
  predicate Identified(t: Task) {
    var n := |t.session.request.artifacts|;
    0 < n < |t.effects| && Passed(t.effects[n]) && t.effects[n].Transfer? ==>
      t.session.transferId == t.effects[n].transfer.transferId
  }

  /** A migration request that is valid otherwise. */
  predicate Migrates(r: Request) {
    r.portableWork.Entry? && r.workId != "" && r.intent == Migration
  }

  /** The request passes validation. */
  predicate Portable(r: Request) {
    r.portableWork.Entry? && r.workId != "" && r.intent != Migration
  }

  /** How many stages are left at most. */
  function Rank(t: Task): nat {
    var n := |t.session.request.artifacts|;
    match t.session.state
    case Requested => n + 9
    case Validating => n + 8
    case TargetSelected => n + 7
    case Authorized => if AwaitsTrust(t) then n + 6 else n + 5
    case Preparing => n + 4
    case Transferring => if t.sent <= n then n - t.sent + 3 else 3
    case Continuing => if t.session.operationId.None? then 2 else 1
    case _ => 0
  }

  ghost predicate Sound(t: Task) {
    Disciplined(t) && Staged(t) && Identified(t)
  }

  /** `r` is a sound continuation of `t`, nearer to the end. */
  ghost predicate Proceeds(t: Task, r: Outcome<Task>) {
    r.Ok? &&
    var u := r.value;
    && Sound(u) && u.session.id == t.session.id && u.session.request == t.session.request
    && Rank(u) < Rank(t)
    && t.effects <= u.effects && |u.effects| <= |t.effects| + 1
  }

  lemma CallIsDisciplined(t: Task, e: Effect, s: Session)
    requires Disciplined(t) && (t.effects != [] ==> Passed(t.effects[|t.effects| - 1]))
    requires s.id == t.session.id && s.request == t.session.request
    requires t.session.target.Some? && s.target.Some?
    requires
      var from, to := t.session.target.value, s.target.value;
      from.nodeId == to.nodeId && Peer(from) == Peer(to) && Url(from) == Url(to)
    requires InPlace(|t.effects|, e, s.id, s.request, s.target.value)
    ensures Disciplined(Call(t, e, s))
  {
  }

  lemma ValidateProceeds(t: Task)
    requires Sound(t) && t.session.state == Requested
    ensures Proceeds(t, ValidateStage(t))
  {
  }

  lemma PrepareProceeds(t: Task)
    requires Sound(t) && t.session.state == Authorized && !AwaitsTrust(t)
    ensures Proceeds(t, PrepareStage(t))
  {
  }

  lemma BeginTransfersProceeds(t: Task)
    requires Sound(t) && t.session.state == Preparing
    ensures Proceeds(t, BeginTransfersStage(t))
  {
  }

  lemma SelectProceeds(t: Task, reply: NavReply)
    requires Sound(t) && t.session.state == Validating
    ensures Proceeds(t, SelectStage(t, reply))
  {
  }

  /** The session fails on the answer to a call. */
  lemma FailureProceeds(t: Task, e: Effect, reason: string, u: Task)
    requires Disciplined(t) && Identified(t) && 0 < Rank(t) && Portable(t.session.request)
    requires t.session.target.Some? && (t.effects != [] ==> Passed(t.effects[|t.effects| - 1]))
    requires InPlace(|t.effects|, e, t.session.id, t.session.request, t.session.target.value)
    requires !Passed(e) && Blames(e, reason)
    requires u.session == t.session.(state := Failed, result := Some(FailureResult(reason)))
    requires u.effects == t.effects + [e]
    ensures Proceeds(t, Ok(u))
  {
    CallIsDisciplined(t, e, u.session);
    assert Disciplined(u);
  }

  lemma AuthorizeProceeds(t: Task)
    requires Sound(t) && t.session.state == TargetSelected
    ensures Proceeds(t, AuthorizeStage(t))
  {
  }

  lemma TrustProceeds(t: Task, reply: TrustReply)
    requires Sound(t) && t.session.state == Authorized && AwaitsTrust(t)
    ensures Proceeds(t, TrustStage(t, reply))
  {
    var u, e := TrustStage(t, reply).value, TrustRead(t.session.target.value.nodeId, reply);
    if reply == Record(Trust.Trusted) {
      CallIsDisciplined(t, e, u.session);
    } else {
      FailureProceeds(t, e, u.session.result.value.reason, u);
    }
  }

  lemma TransferGoesOn(t: Task, reply: TransferReply)
    requires Sound(t) && t.session.state == Transferring && Transfers(t) && reply.Sent? && !Stops(reply.status)
    ensures Proceeds(t, TransferStage(t, reply))
  {
    var u, s := TransferStage(t, reply).value, t.session;
    CallIsDisciplined(t, Transfer(Peer(s.target.value), s.request.artifacts[t.sent], reply), u.session);
  }

  lemma TransferProceeds(t: Task, reply: TransferReply)
    requires Sound(t) && t.session.state == Transferring && Transfers(t)
    ensures Proceeds(t, TransferStage(t, reply))
  {
    var s := t.session;
    if reply.Sent? && !Stops(reply.status) {
      TransferGoesOn(t, reply);
    } else {
      var u, e := TransferStage(t, reply).value, Transfer(Peer(s.target.value), s.request.artifacts[t.sent], reply);
      FailureProceeds(t, e, u.session.result.value.reason, u);
    }
  }

  lemma ContinueProceeds(t: Task)
    requires Sound(t) && t.session.state == Transferring && !Transfers(t)
    ensures Proceeds(t, ContinueStage(t))
  {
  }

  lemma AnswerProceeds(t: Task, reply: ZaryaReply)
    requires Sound(t) && t.session.state == Continuing && AwaitsAnswer(t)
    ensures Proceeds(t, AnswerStage(t, reply))
  {
    var u, s := AnswerStage(t, reply).value, t.session;
    var e := Continue(s.request.portableWork, s.request.source, s.id, Url(s.target.value), reply);
    CallIsDisciplined(t, e, u.session);
    if reply.Answered? {
      assert Replied(u, reply.outcome);
    }
  }

  lemma VerifyProceeds(t: Task)
    requires Sound(t) && t.session.state == Continuing && t.session.operationId.Some?
    ensures Proceeds(t, VerifyStage(t))
  {
    var v :| Replied(t, v);
    var u, s := VerifyStage(t).value, t.session;
    var state := match v case VerifiedSuccess => Completed case VerifiedFailure => Failed case _ => Unknown;
    assert u == t.(session := s.(state := state, result := Some(s.result.value.(outcome := Mapped(v)))));
    assert Replied(u, v);
  }

  lemma {:induction false} EarlyStageProceeds(t: Task, a: Answers)
    requires Sound(t) && t.session.state in {Requested, Validating, TargetSelected, Authorized}
    ensures Proceeds(t, Advanced(t, a))
  {
    match t.session.state
    case Requested => ValidateProceeds(t);
    case Validating => SelectProceeds(t, a.nav);
    case TargetSelected => AuthorizeProceeds(t);
    case Authorized =>
      if AwaitsTrust(t) {
        TrustProceeds(t, a.trust);
      } else {
        PrepareProceeds(t);
      }
  }

  lemma {:induction false} LateStageProceeds(t: Task, a: Answers)
    requires Sound(t) && t.session.state in {Preparing, Transferring, Continuing}
    ensures Proceeds(t, Advanced(t, a))
  {
    match t.session.state
    case Preparing => BeginTransfersProceeds(t);
    case Transferring =>
      if Transfers(t) {
        TransferProceeds(t, a.transfer);
      } else {
        ContinueProceeds(t);
      }
    case Continuing =>
      if AwaitsAnswer(t) {
        AnswerProceeds(t, a.zarya);
      } else {
        VerifyProceeds(t);
      }
  }

  /** A stage never makes an illegal transition, keeps the session sound, and comes nearer to the end. */
  lemma {:induction false} StageProceeds(t: Task, a: Answers)
    requires Sound(t)
    ensures if Terminal(t.session.state) then Advanced(t, a) == Ok(t) else Proceeds(t, Advanced(t, a))
  {
    if t.session.state in {Requested, Validating, TargetSelected, Authorized} {
      EarlyStageProceeds(t, a);
    } else if !Terminal(t.session.state) {
      LateStageProceeds(t, a);
    }
  }

  /** AUTHORIZED alone does not mean that the target is trusted: a session stored in that state has its trust verified
      exactly when the read of the record has been answered, and the answer was TRUSTED. */
  lemma AuthorizedExactly(t: Task)
    requires Sound(t) && t.session.state == Authorized
    ensures t.session.target.Some?
    ensures
      var target := t.session.target.value;
      && (target.trustVerified <==> t.effects != [])
      && (target.trustVerified <==> t.effects == [TrustRead(target.nodeId, Record(Trust.Trusted))])
  {
    if !AwaitsTrust(t) {
      assert InPlace(0, t.effects[0], t.session.id, t.session.request, t.session.target.value);
    }
  }

  /** A finished session has a result whose outcome matches its state; it is COMPLETED exactly when the target replied
      VERIFIED_SUCCESS, UNKNOWN exactly when the target could not tell, and UNSUPPORTED exactly when the request is a
      migration that is valid otherwise; the result says that the transfers completed exactly when the target replied at
      all, and then it reports the whole reply; a failure without a reply names the collaborator to blame. */
  lemma ResultAgrees(t: Task)
    requires Sound(t) && Terminal(t.session.state)
    ensures t.session.result.Some?
    ensures
      match t.session.state
      case Completed => HasResult(t, Succeeded)
      case Failed => HasResult(t, DidFail)
      case Unknown => HasResult(t, NotKnown)
      case Unsupported => HasResult(t, NotSupported)
      case _ => false
    ensures Identified(t) && forall v :: RepliedWith(t, v) ==> Replied(t, v)
    ensures t.session.state == Completed <==> RepliedWith(t, VerifiedSuccess)
    ensures t.session.state == Unknown <==> RepliedWith(t, VerificationUnknown)
    ensures t.session.state == Unsupported <==> Migrates(t.session.request)
    ensures t.session.state == Failed ==> RepliedWith(t, VerifiedFailure) || Excused(t)
    ensures t.session.result.value.transferCompleted <==> exists v :: RepliedWith(t, v)
  {
  }

  /** The paths handed to Flux, in order. */
  function Paths(es: seq<Effect>): seq<string> {
    if es == [] then []
    else
      var last := es[|es| - 1];
      Paths(es[..|es| - 1]) + (if last.Transfer? then [last.path] else [])
  }

  lemma {:induction false} PathsUpTo(t: Task, k: nat)
    requires Disciplined(t) && k <= |t.effects|
    ensures
      var artifacts := t.session.request.artifacts;
      var m := if k == 0 then 0 else k - 1;
      Paths(t.effects[..k]) == artifacts[..if m <= |artifacts| then m else |artifacts|]
  {
    if 0 < k {
      PathsUpTo(t, k - 1);
      assert t.effects[..k][..k - 1] == t.effects[..k - 1];
      assert InPlace(k - 1, t.effects[k - 1], t.session.id, t.session.request, t.session.target.value);
    }
  }

  /** The transfers are a prefix of the requested artifacts, in order, all to the selected target; before the first of
      them the trust record of that target was read as TRUSTED; the work is continued at most once, last, and only
      after every artifact was sent with no exception and no FAILED or CANCELLED status. */
  lemma EffectDiscipline(t: Task)
    requires Sound(t)
    ensures Paths(t.effects) <= t.session.request.artifacts
    ensures
      forall k | 0 <= k < |t.effects| && !t.effects[k].TrustRead? ::
        && t.session.target.Some? && t.effects[0] == TrustRead(t.session.target.value.nodeId, Record(Trust.Trusted))
        && (t.effects[k].Transfer? ==> t.effects[k].peer == Peer(t.session.target.value))
    ensures
      forall k | 0 <= k < |t.effects| && t.effects[k].Continue? ::
        && k == |t.effects| - 1
        && Paths(t.effects[..k]) == t.session.request.artifacts
        && (forall j | 0 < j < k ::
              t.effects[j].Transfer? && t.effects[j].transfer.Sent?
              && t.effects[j].transfer.status !in {Some("FAILED"), Some("CANCELLED")})
  {
    var es, s := t.effects, t.session;
    PathsUpTo(t, |es|);
    assert es[..|es|] == es;
    forall k | 0 <= k < |es|
      ensures InPlace(k, es[k], s.id, s.request, s.target.value)
    {
    }
    forall k | 0 <= k < |es| && es[k].Continue?
      ensures Paths(es[..k]) == s.request.artifacts
    {
      PathsUpTo(t, k);
    }
  }

  /** The target was asked to continue. */
  predicate Asked(t: Task) {
    t.effects != [] && t.effects[|t.effects| - 1].Continue?
  }

  predicate AllCompleted(es: seq<Effect>) {
    forall e | e in es && e.Transfer? :: e.transfer.Sent? && e.transfer.status == Some("COMPLETED")
  }

  /** Every artifact was handed to Flux on the way to the target, and each transfer was answered COMPLETED. */
  predicate TransfersCompleted(t: Task) {
    Asked(t) && Paths(t.effects) == t.session.request.artifacts && AllCompleted(t.effects)
  }

  /** When a finished session tells the truth about its transfers. A reported completion is true exactly when every
      transfer was answered COMPLETED. A denied completion is untrue exactly when they all were and the target, asked to
      continue, raised. */
  lemma {:induction false} TransferFlagExactly(t: Task)
    requires Sound(t) && Terminal(t.session.state)
    ensures t.session.result.Some?
    ensures
      var reported := t.session.result.value.transferCompleted;
      && (reported ==> (TransfersCompleted(t) <==> AllCompleted(t.effects)))
      && (!reported ==> (TransfersCompleted(t)
                         <==> Asked(t) && t.effects[|t.effects| - 1].zarya.ZaryaRaised? && AllCompleted(t.effects)))
  {
    ResultAgrees(t);
    if Asked(t) {
      var before := t.effects[..|t.effects| - 1];
      EffectDiscipline(t);
      assert Paths(t.effects) == Paths(before) == t.session.request.artifacts;
      if t.effects[|t.effects| - 1].zarya.Answered? {
        assert RepliedWith(t, t.effects[|t.effects| - 1].zarya.outcome);
      }
    }
  }
}
