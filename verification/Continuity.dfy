/** The continuity coordinator: src/shyam/continuity/{state,models,service}.py. The navigator, the trust
    service, Flux and Zarya may answer anything or raise. */
module Continuity {
  import opened Options
  import opened Canonical
  import Trust
  import N = Navigation

  datatype State =
    | Requested | Validating | TargetSelected | Authorized | Preparing | Transferring | Reconstructing
    | Continuing | Verifying | Completed | Failed | Cancelled | Unsupported | Unknown

  predicate Terminal(s: State) {
    s in {Completed, Failed, Cancelled, Unsupported, Unknown}
  }

  /** The transition map. */
  function Successors(s: State): set<State> {
    match s
    case Requested => {Validating, Failed, Cancelled, Unsupported}
    case Validating => {TargetSelected, Failed, Cancelled, Unsupported}
    case TargetSelected => {Authorized, Failed, Cancelled}
    case Authorized => {Preparing, Failed, Cancelled}
    case Preparing => {Transferring, Failed, Cancelled}
    case Transferring => {Reconstructing, Failed, Cancelled}
    case Reconstructing => {Continuing, Failed, Cancelled}
    case Continuing => {Verifying, Failed, Cancelled}
    case Verifying => {Completed, Failed, Unknown}
    case _ => {}
  }

  /** The place of a state on the way to the end, where a session is not over yet. */
  function Place(s: State): nat
    requires !Terminal(s)
  {
    match s
    case Requested => 0
    case Validating => 1
    case TargetSelected => 2
    case Authorized => 3
    case Preparing => 4
    case Transferring => 5
    case Reconstructing => 6
    case Continuing => 7
    case Verifying => 8
  }

  /** A live session goes one place further or ends: it can always fail, be cancelled until it is verified, be
      unsupported until it has a target, and complete or remain unknown once it is verified. */
  lemma LegalExactly(from: State, to: State)
    ensures
      to in Successors(from) <==>
        && !Terminal(from)
        && match to
           case Failed => true
           case Cancelled => from != Verifying
           case Unsupported => from in {Requested, Validating}
           case Completed => from == Verifying
           case Unknown => from == Verifying
           case _ => Place(to) == Place(from) + 1
  {
  }

  datatype Intent = Copy | Handoff | Migration

  /** `portableWork` is the PortableWork dictionary. */
  datatype Request = Request(
    workId: string, source: string, portableWork: Entries, artifacts: seq<string>, constraints: N.Constraints,
    intent: Intent)

  datatype Target = Target(
    nodeId: string, providerId: string, trustVerified: bool, fluxPeer: Option<string>, zaryaUrl: Option<string>)

  datatype ResultOutcome = Succeeded | DidFail | WasCancelled | NotSupported | NotKnown

  datatype Verification = VerifiedSuccess | VerifiedFailure | VerificationUnknown

  datatype Result = Result(
    outcome: ResultOutcome, transferCompleted: bool, reconstructionCompleted: bool, executionCompleted: bool,
    zarya: Option<Verification>, reason: string)

  datatype Session = Session(
    id: string, request: Request, target: Option<Target>, state: State, transferId: Option<string>,
    operationId: Option<string>, result: Option<Result>)

  // What collaborators answer.

  /** The peers and urls are those found in the candidate's, the provider's and the node's metadata, in that order. */
  datatype NavReply =
    | NavRaised(error: string)
    | NoSelection(reason: string)
    | Chosen(nodeId: string, providerId: string, peers: seq<Option<string>>, urls: seq<Option<string>>)

  datatype TrustReply = TrustRaised(error: string) | NoRecord | Record(status: Trust.TrustStatus)

  /** `status` is the text of the status that Flux answered with, if it has one. */
  datatype TransferReply = TransferRaised(error: string) | Sent(status: Option<string>, transferId: Option<string>)

  datatype ZaryaReply =
    | ZaryaRaised(error: string)
    | Answered(operationId: string, outcome: Verification, reconstructed: bool, executed: bool, summary: string)

  /** What every collaborator would answer if it were called now. */
  datatype Answers = Answers(nav: NavReply, trust: TrustReply, transfer: TransferReply, zarya: ZaryaReply)

  /** The calls that leave the coordinator, with their answers. */
  datatype Effect =
    | TrustRead(device: string, trust: TrustReply)
    | Transfer(peer: string, path: string, transfer: TransferReply)
    | Continue(work: Entries, source: string, continuityId: string, url: Option<string>, zarya: ZaryaReply)

  predicate Truthy(v: Option<string>) {
    v.Some? && v.value != ""
  }

  /** Python's `a or b or c`. */
  function OrChain(vs: seq<Option<string>>): Option<string> {
    if vs == [] then None
    else if Truthy(vs[0]) || |vs| == 1 then vs[0]
    else OrChain(vs[1..])
  }

  /** It is the first usable value; when there is none, what it gives is not usable either. */
  lemma {:induction false} OrChainFirst(vs: seq<Option<string>>, i: nat)
    requires i <= |vs| && forall j | 0 <= j < i :: !Truthy(vs[j])
    ensures i < |vs| && Truthy(vs[i]) ==> OrChain(vs) == vs[i]
    ensures i == |vs| ==> !Truthy(OrChain(vs))
  {
    if 0 < i {
      OrChainFirst(vs[1..], i - 1);
    }
  }

  // Session transitions.

  datatype Outcome<T> = Ok(value: T) | Illegal(from: State, to: State) {
    predicate IsFailure() {
      Illegal?
    }

    function PropagateFailure<U>(): Outcome<U>
      requires Illegal?
    {
      Illegal(from, to)
    }

    function Extract(): T
      requires Ok?
    {
      value
    }
  }

  /** _transition. Illegal is InvalidContinuityTransitionError. */
  function Moved(s: Session, to: State, result: Option<Result>): Outcome<Session> {
    if to !in Successors(s.state) then Illegal(s.state, to)
    else Ok(s.(state := to, result := if result.Some? then result else s.result))
  }

  function FailureResult(reason: string): Result {
    Result(DidFail, false, false, false, None, reason)
  }

  /** _fail. */
  function FailedWith(s: Session, reason: string): Outcome<Session> {
    Moved(s, Failed, Some(FailureResult(reason)))
  }

  // Pipeline stages.

  function Validated(s: Session): Outcome<Session> {
    if s.request.portableWork.End? then FailedWith(s, "Empty portable_work")
    else if s.request.workId == "" then FailedWith(s, "Missing work_id")
    else if s.request.intent == Migration then
      Moved(s, Unsupported, Some(Result(NotSupported, false, false, false, None, UNSUPPORTED_REASON)))
    else Ok(s)
  }

  const UNSUPPORTED_REASON := "MIGRATION intent not supported in S16 first slice."

  function WithTarget(s: Session, reply: NavReply): Outcome<Session> {
    match reply
    case NavRaised(error) => FailedWith(s, "Target selection failed: " + error)
    case NoSelection(reason) => FailedWith(s, "No eligible target: " + reason)
    case Chosen(node, provider, peers, urls) =>
      Ok(s.(target := Some(Target(node, provider, false, OrChain(peers), OrChain(urls)))))
  }

  /** The device asked about is the selected node. */
  function TrustVerified(s: Session, reply: TrustReply): Outcome<Session>
    requires s.target.Some?
  {
    match reply
    case TrustRaised(error) => FailedWith(s, "Trust verification failed: " + error)
    case NoRecord => FailedWith(s, "No trust relationship with " + s.target.value.nodeId)
    case Record(Unknown) => FailedWith(s, "No trust relationship with " + s.target.value.nodeId)
    case Record(Revoked) => FailedWith(s, "Target trust status: revoked")
    case Record(Trusted) => Ok(s.(target := Some(s.target.value.(trustVerified := true))))
  }

  function Peer(t: Target): string {
    if Truthy(t.fluxPeer) then t.fluxPeer.value else t.nodeId
  }

  function Url(t: Target): Option<string> {
    if Truthy(t.zaryaUrl) then t.zaryaUrl else None
  }

  /** The statuses that stop the transfers. Any other status, CREATED and RUNNING among them, lets them go on. */
  predicate Stops(status: Option<string>) {
    status == Some("FAILED") || status == Some("CANCELLED")
  }

  /** The body of the transfer loop: `sent` artifacts went before this answer. */
  function Transferred(s: Session, sent: nat, reply: TransferReply): Outcome<Session> {
    match reply
    case TransferRaised(error) => FailedWith(s, "Artifact transfer failed: " + error)
    case Sent(status, transferId) =>
      if Stops(status) then FailedWith(s, "Artifact transfer failed with status: " + status.value)
      else if sent + 1 == |s.request.artifacts| then Ok(s.(transferId := transferId))
      else Ok(s)
  }

  /** The result written when there is nothing to transfer. */
  const NOTHING_TO_TRANSFER := Result(Succeeded, true, false, false, None, "")

  function Mapped(v: Verification): ResultOutcome {
    match v
    case VerifiedSuccess => Succeeded
    case VerifiedFailure => DidFail
    case VerificationUnknown => NotKnown
  }

  function Continued(s: Session, reply: ZaryaReply): Outcome<Session> {
    match reply
    case ZaryaRaised(error) => FailedWith(s, "Target continuation failed: " + error)
    case Answered(operationId, outcome, reconstructed, executed, summary) =>
      Ok(s.(operationId := Some(operationId),
            result := Some(Result(Mapped(outcome), true, reconstructed, executed, Some(outcome), summary))))
  }

  /** _verify_result. */
  function Verified(s: Session): Outcome<Session> {
    if s.result.None? then
      Moved(s, Unknown, Some(Result(NotKnown, false, false, false, None, "No result to verify.")))
    else
      var result := s.result.value;
      match result.zarya
      case Some(VerifiedSuccess) => Moved(s, Completed, Some(result.(outcome := Succeeded)))
      case Some(VerifiedFailure) => Moved(s, Failed, Some(result.(outcome := DidFail)))
      case _ => Moved(s, Unknown, Some(result.(outcome := NotKnown)))
  }

  /** A session on its way through the pipeline: the transfers attempted so far and the calls made. */
  datatype Task = Task(session: Session, sent: nat, effects: seq<Effect>)

  function NewTask(id: string, request: Request): Task {
    Task(Session(id, request, None, Requested, None, None, None), 0, [])
  }

  function Call(t: Task, e: Effect, s: Session): Task {
    t.(session := s, effects := t.effects + [e])
  }

  function ValidateStage(t: Task): Outcome<Task> {
    var s1 :- Moved(t.session, Validating, None);
    var s2 :- Validated(s1);
    Ok(t.(session := s2))
  }

  function SelectStage(t: Task, reply: NavReply): Outcome<Task> {
    var s1 :- Moved(t.session, TargetSelected, None);
    var s2 :- WithTarget(s1, reply);
    Ok(t.(session := s2))
  }

  /** AUTHORIZED is stored; the trust record is read next. */
  function AuthorizeStage(t: Task): Outcome<Task> {
    var s1 :- Moved(t.session, Authorized, None);
    if s1.target.None? then
      var s2 :- FailedWith(s1, "No target selected");
      Ok(t.(session := s2))
    else
      Ok(t.(session := s1))
  }

  /** The read of the trust record is in flight. */
  predicate AwaitsTrust(t: Task) {
    t.session.target.Some? && !t.session.target.value.trustVerified
  }

  /** The read of the trust record is answered. */
  function TrustStage(t: Task, reply: TrustReply): Outcome<Task>
    requires AwaitsTrust(t)
  {
    var s1 :- TrustVerified(t.session, reply);
    Ok(Call(t, TrustRead(t.session.target.value.nodeId, reply), s1))
  }

  function PrepareStage(t: Task): Outcome<Task> {
    var s1 :- Moved(t.session, Preparing, None);
    Ok(t.(session := s1))
  }

  /** The start of _transfer_artifacts. */
  function BeginTransfersStage(t: Task): Outcome<Task> {
    var s1 :- Moved(t.session, Transferring, None);
    if s1.target.None? then
      var s2 :- FailedWith(s1, "No target for transfer");
      Ok(t.(session := s2))
    else
      Ok(t.(session := if s1.request.artifacts == [] then s1.(result := Some(NOTHING_TO_TRANSFER)) else s1))
  }

  /** A transfer is in flight. */
  predicate Transfers(t: Task) {
    t.session.target.Some? && t.sent < |t.session.request.artifacts|
  }

  /** One turn of the transfer loop. */
  function TransferStage(t: Task, reply: TransferReply): Outcome<Task>
    requires Transfers(t)
  {
    var s1 :- Transferred(t.session, t.sent, reply);
    var call := Transfer(Peer(t.session.target.value), t.session.request.artifacts[t.sent], reply);
    Ok(Call(t, call, s1).(sent := t.sent + 1))
  }

  /** CONTINUING is stored; the target is asked to continue next. */
  function ContinueStage(t: Task): Outcome<Task> {
    var s1 :- Moved(t.session, Reconstructing, None);
    var s2 :- Moved(s1, Continuing, None);
    if s2.target.None? then
      var s3 :- FailedWith(s2, "No target for continuation");
      Ok(t.(session := s3))
    else
      Ok(t.(session := s2))
  }

  /** The continuation is in flight. */
  predicate AwaitsAnswer(t: Task) {
    t.session.target.Some? && t.session.operationId.None?
  }

  /** The continuation is answered. */
  function AnswerStage(t: Task, reply: ZaryaReply): Outcome<Task>
    requires AwaitsAnswer(t)
  {
    var s := t.session;
    var s1 :- Continued(s, reply);
    Ok(Call(t, Continue(s.request.portableWork, s.request.source, s.id, Url(s.target.value), reply), s1))
  }

  function VerifyStage(t: Task): Outcome<Task> {
    var s1 :- Moved(t.session, Verifying, None);
    var s2 :- Verified(s1);
    Ok(t.(session := s2))
  }

  /** One stage of the pipeline. A stage that makes a call begins when the call is answered: what other sessions can see
      meanwhile is the state in which it was made. Between stages other sessions may run. */
  function Advanced(t: Task, a: Answers): Outcome<Task> {
    match t.session.state
    case Requested => ValidateStage(t)
    case Validating => SelectStage(t, a.nav)
    case TargetSelected => AuthorizeStage(t)
    case Authorized => if AwaitsTrust(t) then TrustStage(t, a.trust) else PrepareStage(t)
    case Preparing => BeginTransfersStage(t)
    case Transferring => if Transfers(t) then TransferStage(t, a.transfer) else ContinueStage(t)
    case Continuing => if AwaitsAnswer(t) then AnswerStage(t, a.zarya) else VerifyStage(t)
    case _ => Ok(t)
  }
}
