/** The continuity coordinator as the object that the source has: its methods update the sessions in place. */
module ContinuityService {
  import opened Options
  import opened Continuity
  import opened ContinuityTheorems
  import opened ContinuityPipeline
  import R = ContinuityRouting

  datatype Response = Duplicate(existing: string) | Done(session: Session)

  class ContinuityService {
    var sessions: map<string, Session>
    var workContinuities: map<string, string>
    var calls: seq<Effect>

    constructor ()
      ensures sessions == map[] && workContinuities == map[] && calls == []
    {
      sessions, workContinuities, calls := map[], map[], [];
    }

    method Transition(s: Session, to: State, result: Option<Result>) returns (r: Outcome<Session>)
      modifies `sessions
      ensures r == Moved(s, to, result)
      ensures sessions == if r.Ok? then old(sessions)[s.id := r.value] else old(sessions)
    {
      if to !in Successors(s.state) {
        return Illegal(s.state, to);
      }
      var t := s.(state := to, result := if result.Some? then result else s.result);
      sessions := sessions[s.id := t];
      return Ok(t);
    }

    method Fail(s: Session, reason: string) returns (r: Outcome<Session>)
      modifies `sessions
      ensures r == FailedWith(s, reason)
      ensures sessions == if r.Ok? then old(sessions)[s.id := r.value] else old(sessions)
    {
      r := Transition(s, Failed, Some(FailureResult(reason)));
    }

    method Save(s: Session) returns (r: Outcome<Session>)
      modifies `sessions
      ensures r == Ok(s) && sessions == old(sessions)[s.id := s]
    {
      sessions := sessions[s.id := s];
      return Ok(s);
    }

    method Validate(s: Session) returns (r: Outcome<Session>)
      requires s.id in sessions && sessions[s.id] == s
      modifies `sessions
      ensures r == Validated(s)
      ensures sessions == if r.Ok? then old(sessions)[s.id := r.value] else old(sessions)
    {
      if s.request.portableWork.End? {
        r := Fail(s, "Empty portable_work");
      } else if s.request.workId == "" {
        r := Fail(s, "Missing work_id");
      } else if s.request.intent == Migration {
        r := Transition(s, Unsupported, Some(Result(NotSupported, false, false, false, None, UNSUPPORTED_REASON)));
      } else {
        r := Ok(s);
      }
    }

    method SelectTarget(s: Session, reply: NavReply) returns (r: Outcome<Session>)
      modifies `sessions
      ensures r == WithTarget(s, reply)
      ensures sessions == if r.Ok? then old(sessions)[s.id := r.value] else old(sessions)
    {
      match reply
      case NavRaised(error) => r := Fail(s, "Target selection failed: " + error);
      case NoSelection(reason) => r := Fail(s, "No eligible target: " + reason);
      case Chosen(node, provider, peers, urls) =>
        r := Save(s.(target := Some(Target(node, provider, false, OrChain(peers), OrChain(urls)))));
    }

    method VerifyTrust(s: Session, cs: Collaborators) returns (r: Outcome<Session>)
      requires s.target.Some?
      modifies `sessions, `calls
      ensures r == TrustVerified(s, cs.trust(s.target.value.nodeId))
      ensures sessions == if r.Ok? then old(sessions)[s.id := r.value] else old(sessions)
      ensures calls == old(calls) + [TrustRead(s.target.value.nodeId, cs.trust(s.target.value.nodeId))]
    {
      var target := s.target.value;
      var reply := cs.trust(target.nodeId);
      calls := calls + [TrustRead(target.nodeId, reply)];
      match reply
      case TrustRaised(error) => r := Fail(s, "Trust verification failed: " + error);
      case NoRecord => r := Fail(s, "No trust relationship with " + target.nodeId);
      case Record(status) =>
        match status {
          case Unknown => r := Fail(s, "No trust relationship with " + target.nodeId);
          case Revoked => r := Fail(s, "Target trust status: revoked");
          case Trusted => r := Save(s.(target := Some(target.(trustVerified := true))));
        }
    }

    /** The body of the loop over the artifacts; a transfer id is returned when the loop may go on. */
    method SendArtifact(s: Session, i: nat, cs: Collaborators, ghost t: Task, ghost made: seq<Effect>)
      returns (r: Session, transferId: Option<string>)
      requires s == t.session && s.state == Transferring && Transfers(t) && i == t.sent && calls == made + t.effects
      modifies `sessions, `calls
      ensures
        var u := SentNext(t, cs);
        && u.sent == i + 1 && u.session.state in {Transferring, Failed}
        && calls == made + u.effects
        && if u.session.state == Failed then r == u.session && sessions == old(sessions)[s.id := r]
           else
             && r == s && sessions == old(sessions)
             && u.session == if i + 1 == |s.request.artifacts| then s.(transferId := transferId) else s
    {
      var reply := cs.transfer(i);
      calls := calls + [Transfer(Peer(s.target.value), s.request.artifacts[i], reply)];
      var failed: Outcome<Session>;
      match reply
      case TransferRaised(error) =>
        failed := Fail(s, "Artifact transfer failed: " + error);
        r, transferId := failed.value, None;
      case Sent(status, id) =>
        r, transferId := s, id;
        if Stops(status) {
          failed := Fail(s, "Artifact transfer failed with status: " + status.value);
          r := failed.value;
        }
    }

    /** The sessions and calls stand where `t` does, given the other sessions and the calls made before. */
    ghost predicate At(t: Task, others: map<string, Session>, made: seq<Effect>)
      reads this
    {
      sessions == others[t.session.id := t.session] && calls == made + t.effects
    }

    /** The outcome `o` of a part of the pipeline is what `r`, the sessions and the calls show. */
    ghost predicate Shows(r: Outcome<Session>, o: Outcome<Task>, others: map<string, Session>, made: seq<Effect>)
      reads this
    {
      match o
      case Illegal(from, to) => r == Illegal(from, to)
      case Ok(u) => r == Ok(u.session) && At(u, others, made)
    }

    method EnterValidation(s: Session, ghost t: Task, ghost others: map<string, Session>, ghost made: seq<Effect>)
      returns (r: Outcome<Session>)
      requires s == t.session && At(t, others, made)
      modifies `sessions, `calls
      ensures Shows(r, ValidateStage(t), others, made)
    {
      var s1 :- Transition(s, Validating, None);
      r := Validate(s1);
    }

    method EnterSelection(s: Session, cs: Collaborators,
                          ghost t: Task, ghost others: map<string, Session>, ghost made: seq<Effect>)
      returns (r: Outcome<Session>)
      requires s == t.session && At(t, others, made)
      modifies `sessions, `calls
      ensures Shows(r, SelectStage(t, cs.nav), others, made)
    {
      var s1 :- Transition(s, TargetSelected, None);
      r := SelectTarget(s1, cs.nav);
    }

    method EnterAuthorization(s: Session, cs: Collaborators,
                              ghost t: Task, ghost others: map<string, Session>, ghost made: seq<Effect>)
      returns (r: Outcome<Session>)
      requires s.target.Some? ==> !s.target.value.trustVerified
      requires s == t.session && At(t, others, made)
      modifies `sessions, `calls
      ensures Shows(r, Trusting(t, cs), others, made)
    {
      var s1 :- Transition(s, Authorized, None);
      if s1.target.None? {
        r := Fail(s1, "No target selected");
      } else {
        r := VerifyTrust(s1, cs);
      }
    }

    /** PREPARING, then TRANSFERRING with the start of _transfer_artifacts. */
    method BeginTransfers(s: Session, ghost t: Task, ghost others: map<string, Session>, ghost made: seq<Effect>)
      returns (r: Outcome<Session>)
      requires s == t.session && At(t, others, made)
      modifies `sessions, `calls
      ensures Shows(r, Begun(t), others, made)
    {
      var s1 :- Transition(s, Preparing, None);
      var s2 :- Transition(s1, Transferring, None);
      if s2.target.None? {
        r := Fail(s2, "No target for transfer");
      } else if s2.request.artifacts == [] {
        r := Save(s2.(result := Some(NOTHING_TO_TRANSFER)));
      } else {
        r := Ok(s2);
      }
    }

    /** The loop over the artifacts. */
    method TransferArtifacts(s: Session, cs: Collaborators,
                             ghost t: Task, ghost others: map<string, Session>, ghost made: seq<Effect>)
      returns (r: Session)
      requires s == t.session && s.state == Transferring && s.target.Some? && t.sent == 0 && At(t, others, made)
      modifies `sessions, `calls
      ensures r == SentAll(t, cs).session && At(SentAll(t, cs), others, made)
    {
      ghost var u, end := t, SentAll(t, cs);
      var lastTransferId: Option<string> := None;
      for i := 0 to |s.request.artifacts|
        invariant SentAll(u, cs) == end && u.sent == i
        invariant sessions == others[s.id := s] && calls == made + u.effects
        invariant u.session == if i == 0 || i < |s.request.artifacts| then s else s.(transferId := lastTransferId)
      {
        assert SentAll(u, cs) == SentAll(SentNext(u, cs), cs);
        r, lastTransferId := SendArtifact(s, i, cs, u, made);
        u := SentNext(u, cs);
        if r.state == Failed {
          assert u == end;
          return;
        }
      }
      assert u == end;
      r := if s.request.artifacts == [] then s else s.(transferId := lastTransferId);
      sessions := sessions[s.id := r];
    }

    method ContinueOnTarget(s: Session, cs: Collaborators) returns (r: Outcome<Session>)
      requires s.target.Some?
      modifies `sessions, `calls
      ensures r == Continued(s, cs.zarya)
      ensures sessions == if r.Ok? then old(sessions)[s.id := r.value] else old(sessions)
      ensures
        calls == old(calls) + [Continue(s.request.portableWork, s.request.source, s.id, Url(s.target.value), cs.zarya)]
    {
      calls := calls + [Continue(s.request.portableWork, s.request.source, s.id, Url(s.target.value), cs.zarya)];
      match cs.zarya
      case ZaryaRaised(error) => r := Fail(s, "Target continuation failed: " + error);
      case Answered(operationId, outcome, reconstructed, executed, summary) =>
        r := Save(s.(operationId := Some(operationId),
                     result := Some(Result(Mapped(outcome), true, reconstructed, executed, Some(outcome), summary))));
    }

    method VerifyResult(s: Session) returns (r: Outcome<Session>)
      modifies `sessions
      ensures r == Verified(s)
      ensures sessions == if r.Ok? then old(sessions)[s.id := r.value] else old(sessions)
    {
      if s.result.None? {
        r := Transition(s, Unknown, Some(Result(NotKnown, false, false, false, None, "No result to verify.")));
        return;
      }
      var result := s.result.value;
      if result.zarya == Some(VerifiedSuccess) {
        r := Transition(s, Completed, Some(result.(outcome := Succeeded)));
      } else if result.zarya == Some(VerifiedFailure) {
        r := Transition(s, Failed, Some(result.(outcome := DidFail)));
      } else {
        r := Transition(s, Unknown, Some(result.(outcome := NotKnown)));
      }
    }

    method EnterContinuation(s: Session, cs: Collaborators,
                             ghost t: Task, ghost others: map<string, Session>, ghost made: seq<Effect>)
      returns (r: Outcome<Session>)
      requires s.operationId.None?
      requires s == t.session && At(t, others, made)
      modifies `sessions, `calls
      ensures Shows(r, Asking(t, cs), others, made)
    {
      var s1 :- Transition(s, Reconstructing, None);
      var s2 :- Transition(s1, Continuing, None);
      if s2.target.None? {
        r := Fail(s2, "No target for continuation");
      } else {
        r := ContinueOnTarget(s2, cs);
      }
    }

    method EnterVerification(s: Session, ghost t: Task, ghost others: map<string, Session>, ghost made: seq<Effect>)
      returns (r: Outcome<Session>)
      requires s == t.session && At(t, others, made)
      modifies `sessions, `calls
      ensures Shows(r, VerifyStage(t), others, made)
    {
      var s1 :- Transition(s, Verifying, None);
      r := VerifyResult(s1);
    }

    method RunPipeline(s: Session, cs: Collaborators, ghost others: map<string, Session>, ghost made: seq<Effect>)
      returns (r: Outcome<Session>)
      requires s == NewTask(s.id, s.request).session && At(NewTask(s.id, s.request), others, made)
      modifies `sessions, `calls
      ensures Shows(r, Pipeline(NewTask(s.id, s.request), cs), others, made)
    {
      ghost var t := NewTask(s.id, s.request);
      var s1 :- EnterValidation(s, t, others, made);
      if Terminal(s1.state) {
        return Ok(s1);
      }
      ghost var t1 := ValidateStage(t).value;
      var s2 :- EnterSelection(s1, cs, t1, others, made);
      if Terminal(s2.state) {
        return Ok(s2);
      }
      ghost var t2 := SelectStage(t1, cs.nav).value;
      var s3 :- EnterAuthorization(s2, cs, t2, others, made);
      if Terminal(s3.state) {
        return Ok(s3);
      }
      r := Deliver(s3, cs, Trusting(t2, cs).value, others, made);
    }

    /** _run_pipeline once the target is authorized. */
    method Deliver(s: Session, cs: Collaborators,
                   ghost t: Task, ghost others: map<string, Session>, ghost made: seq<Effect>)
      returns (r: Outcome<Session>)
      requires s == t.session && s.state == Authorized && s.target.Some? && s.operationId.None? && t.sent == 0
      requires At(t, others, made)
      modifies `sessions, `calls
      ensures Shows(r, Delivered(t, cs), others, made)
    {
      var s1 :- BeginTransfers(s, t, others, made);
      BegunExactly(t);
      ghost var t1 := Begun(t).value;
      var s2 := TransferArtifacts(s1, cs, t1, others, made);
      if Terminal(s2.state) {
        return Ok(s2);
      }
      ghost var t2 := SentAll(t1, cs);
      SentAllExactly(t1, cs);
      var s3 :- EnterContinuation(s2, cs, t2, others, made);
      if Terminal(s3.state) {
        return Ok(s3);
      }
      r := EnterVerification(s3, Asking(t2, cs).value, others, made);
    }

    /** A session of the work is live. */
    predicate Busy(workId: string)
      reads this
    {
      && workId in workContinuities && workContinuities[workId] in sessions
      && !Terminal(sessions[workContinuities[workId]].state)
    }

    /** request_continuity, uninterrupted; `id` is the fresh id of the new session. The session that it returns is
        sound and over, so that EffectDiscipline and ResultAgrees say what it did and what it reports; and its calls
        went where the navigator's answer says, with their answers recorded. */
    method RequestContinuity(id: string, request: Request, cs: Collaborators) returns (r: Response)
      requires id !in sessions
      modifies this
      ensures
        var o := Pipeline(NewTask(id, request), cs);
        o.Ok? && Sound(o.value) && Terminal(o.value.session.state) && R.Conducted(o.value, cs) &&
        if old(Busy(request.workId)) then
          r == Duplicate(old(workContinuities)[request.workId]) && unchanged(this)
        else
          && r == Done(o.value.session) && sessions == old(sessions)[id := o.value.session]
          && workContinuities == old(workContinuities)[request.workId := id]
          && calls == old(calls) + o.value.effects
    {
      PipelineIsStages(id, request, cs);
      R.PipelineRouted(id, request, cs);
      if Busy(request.workId) {
        return Duplicate(workContinuities[request.workId]);
      }
      var s := NewTask(id, request).session;
      ghost var others, made := sessions, calls;
      sessions := sessions[id := s];
      workContinuities := workContinuities[request.workId := id];
      var final := RunPipeline(s, cs, others, made);
      r := Done(final.value);
    }
  }
}
