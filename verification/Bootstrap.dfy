/** The two-party handshake: src/shyam/bootstrap/service.py and src/shyam/bootstrap/models.py. */
module Bootstrap {
  import opened Options
  import opened Canonical
  import opened SyncModel
  import opened Trust
  import opened Authenticator
  import S = SyncService

  datatype State =
    | Uninitialized | IdentityReady | BootstrapRequested | Authenticating | TrustEstablished
    | StateInitializing | Syncing | Ready | Failed | Rejected | Cancelled

  function Successors(s: State): set<State> {
    match s
    case Uninitialized => {IdentityReady}
    case IdentityReady => {BootstrapRequested}
    case BootstrapRequested => {Authenticating}
    case Authenticating => {TrustEstablished, Rejected, Failed, Cancelled}
    case TrustEstablished => {StateInitializing, Failed, Cancelled}
    case StateInitializing => {Syncing, Failed, Cancelled}
    case Syncing => {Ready, Failed, Cancelled}
    case _ => {}
  }

  /** BootstrapSession.transition: None stands for the ValueError. */
  function Transition(state: State, next: State): Option<State> {
    if next in Successors(state) then Some(next) else None
  }

  datatype Request = Request(
    requestId: string, nodeId: string, publicKey: string, nodeName: string, timestamp: string, signature: string)

  datatype BootstrapOutcome = Success | RejectedByRevocation | RejectedSignature

  datatype Response = Response(
    requestId: string, accepted: bool, authorityNodeId: string, authorityKey: string, outcome: BootstrapOutcome)

  /** What the transport gives back: it may fail. */
  datatype Reply = TransportFailed | Replied(response: Response)

  datatype ClientError = IdentityMissing | SyncMissing | TransportError | RejectedByAuthority

  datatype Identity = Identity(nodeId: string, nodeName: string)

  /** The text that a bootstrap request signs. */
  function RequestText(r: Request): Value {
    Text(r.requestId + ":" + r.nodeId + ":" + r.publicKey + ":" + r.timestamp)
  }

  function SignedRequest(scheme: Scheme, key: int, identity: Identity, id: string, timestamp: string): Request {
    var bare := Request(id, identity.nodeId, scheme.publicKey(key), identity.nodeName, timestamp, "");
    bare.(signature := scheme.sign(key, RequestText(bare)))
  }

  function PeerGrant(r: Request): Grant {
    var short := if |r.nodeId| < 8 then r.nodeId else r.nodeId[..8];
    Grant(Some(r.publicKey), Peer, OrText(r.nodeName, "node-" + short), None)
  }

  function AuthorityGrant(r: Response): Grant {
    Grant(Some(r.authorityKey), Infrastructure, "Bootstrap Authority", None)
  }

  /** The authority: its trust state after a request, and its answer. */
  function Handle(scheme: Scheme, trust: TrustState, authorityId: string, authorityKey: string, r: Request)
    : (TrustState, Response)
  {
    if !scheme.verify(r.publicKey, RequestText(r), r.signature) then
      (trust, Response(r.requestId, false, "", "", RejectedSignature))
    else if RecordOf(trust, r.nodeId).status == Revoked then
      (Loaded(trust), Response(r.requestId, false, "", "", RejectedByRevocation))
    else
      (Granted(Loaded(trust), r.nodeId, PeerGrant(r)),
       Response(r.requestId, true, authorityId, authorityKey, Success))
  }

  /** The client once the reply is in: its trust state and the final state of its session. */
  function Complete(trust: TrustState, reply: Reply): (TrustState, State) {
    match reply
    case TransportFailed => (trust, Failed)
    case Replied(r) =>
      if !r.accepted then (trust, Rejected)
      else (Granted(trust, r.authorityNodeId, AuthorityGrant(r)), Ready)
  }

  class BootstrapService {
    const identity: Option<Identity>
    const trust: TrustService
    const sync: S.SyncService?
    const scheme: Scheme
    var sessions: map<string, State>

    constructor (identity: Option<Identity>, trust: TrustService, sync: S.SyncService?, scheme: Scheme)
      ensures this.identity == identity && this.trust == trust && this.sync == sync && this.scheme == scheme
      ensures sessions == map[]
    {
      this.identity, this.trust, this.sync, this.scheme := identity, trust, sync, scheme;
      sessions := map[];
    }

    function LocalId(): string {
      if identity.Some? then identity.value.nodeId else ""
    }

    function SyncKey(): string {
      if sync != null then sync.scheme.publicKey(sync.key) else ""
    }

    method HandleIncomingRequest(r: Request) returns (response: Response)
      modifies trust
      ensures (trust.State(), response) == Handle(scheme, old(trust.State()), LocalId(), SyncKey(), r)
    {
      var isValid := scheme.verify(r.publicKey, RequestText(r), r.signature);
      if !isValid {
        return Response(r.requestId, false, "", "", RejectedSignature);
      }
      var record := trust.GetRecord(r.nodeId);
      if record.status == Revoked {
        return Response(r.requestId, false, "", "", RejectedByRevocation);
      }
      var _ := trust.GrantTrust(r.nodeId, PeerGrant(r));
      response := Response(r.requestId, true, LocalId(), SyncKey(), Success);
    }

    /** The client up to the call of the transport. */
    method BeginClientBootstrap(id: string, timestamp: string)
      returns (state: State, r: Request, error: Option<ClientError>)
      modifies this
      ensures sessions == old(sessions)[id := Uninitialized]
      ensures
        error ==
        if identity.None? then Some(IdentityMissing) else if sync == null then Some(SyncMissing) else None
      ensures error.None? ==>
        state == Authenticating && r == SignedRequest(sync.scheme, sync.key, identity.value, id, timestamp)
    {
      state := Uninitialized;
      r := Request(id, "", "", "", timestamp, "");
      sessions := sessions[id := state];
      state := Transition(state, IdentityReady).value;
      state := Transition(state, BootstrapRequested).value;
      if identity.None? {
        return state, r, Some(IdentityMissing);
      }
      if sync == null {
        return state, r, Some(SyncMissing);
      }
      r := SignedRequest(sync.scheme, sync.key, identity.value, id, timestamp);
      state := Transition(state, Authenticating).value;
      error := None;
    }

    /** The client from the transport's reply on. No transition of its session raises. */
    method CompleteClientBootstrap(id: string, begun: State, reply: Reply)
      returns (state: State, error: Option<ClientError>)
      requires begun == Authenticating && sync != null
      requires trust as object != this && sync as object != this && sync as object != trust
      modifies this, trust, sync
      ensures (trust.State(), state) == Complete(old(trust.State()), reply)
      ensures sessions == old(sessions)[id := state]
      ensures
        error == match state
                 case Ready => None
                 case Rejected => Some(RejectedByAuthority)
                 case _ => Some(TransportError)
      ensures sync.View() == if state == Ready then Updated(old(sync.View()), NO_FACTS) else old(sync.View())
    {
      state := begun;
      if reply.TransportFailed? {
        state := Transition(state, Failed).value;
        sessions := sessions[id := state];
        return state, Some(TransportError);
      }
      var response := reply.response;
      if !response.accepted {
        state := Transition(state, Rejected).value;
        sessions := sessions[id := state];
        return state, Some(RejectedByAuthority);
      }
      state := Transition(state, TrustEstablished).value;
      var _ := trust.GrantTrust(response.authorityNodeId, AuthorityGrant(response));
      state := Transition(state, StateInitializing).value;
      state := Transition(state, Syncing).value;
      var _ := sync.IncrementLocalVersion();
      state := Transition(state, Ready).value;
      sessions := sessions[id := state];
      error := None;
    }
  }

  // ---- From the handshake to sync ----

  /** `n` is trusted with this key pinned. */
  predicate Pinned(trust: TrustState, n: string, publicKey: string) {
    RecordOf(trust, n).status == Trusted && RecordOf(trust, n).publicKey == Some(publicKey)
  }

  /** An uninterrupted bootstrap between honest nodes: it is refused, with nothing changed, exactly when
      the authority's record of the client is REVOKED; otherwise both sides trust each other's sync key. */
  lemma Handshake(scheme: Scheme, authority: TrustState, client: TrustState,
                  a: Identity, aKey: int, c: Identity, cKey: int, id: string, timestamp: string)
    requires Correct(scheme)
    ensures
      var request := SignedRequest(scheme, cKey, c, id, timestamp);
      var (authority', response) := Handle(scheme, authority, a.nodeId, scheme.publicKey(aKey), request);
      var (client', state) := Complete(client, Replied(response));
      if RecordOf(authority, c.nodeId).status == Revoked then
        && state == Rejected && response.outcome == RejectedByRevocation
        && authority' == Loaded(authority) && client' == client
      else
        && state == Ready
        && Pinned(authority', c.nodeId, scheme.publicKey(cKey))
        && Pinned(client', a.nodeId, scheme.publicKey(aKey))
        && Mirrored(authority') && Mirrored(client')
  {
    var request := SignedRequest(scheme, cKey, c, id, timestamp);
    var bare := request.(signature := "");
    assert RequestText(bare) == RequestText(request);
    assert scheme.verify(scheme.publicKey(cKey), RequestText(bare), scheme.sign(cKey, RequestText(bare)));
  }

  /** Every envelope that the node creates with this key passes authentication. */
  ghost predicate Admits(scheme: Scheme, trust: TrustState, node: Node, key: int) {
    forall messageType: string, id: MessageId ::
      var e := SignEnvelope(scheme, Snapshot(node, scheme.publicKey(key), messageType, id), key);
      Authenticate(scheme, trust, e) == None
  }

  /** After a handshake, and after any further trust history that neither grants nor revokes the other
      side, every envelope that the other side creates with its pinned key passes authentication. */
  lemma {:induction false} PinnedAdmitsSync(scheme: Scheme, trust: TrustState, ops: seq<TrustOp>, node: Node, key: int)
    requires Correct(scheme) && node.id != ""
    requires Mirrored(trust) && Pinned(trust, node.id, scheme.publicKey(key))
    requires forall k :: 0 <= k < |ops| ==> ops[k].Load? || ops[k].node != node.id
    ensures Admits(scheme, RunOps(trust, ops), node, key)
  {
    HistoryKeepsRecord(trust, ops, node.id);
    forall messageType, id {
      SignedPassesExactly(scheme, RunOps(trust, ops), node, key, messageType, id);
    }
  }

  /** So a bootstrap that is not refused opens sync in both directions, until a side's record of the other is granted
      or revoked again: every envelope that either side then creates passes the other's authentication. */
  lemma {:induction false} HandshakeAdmitsSync(scheme: Scheme, authority: TrustState, client: TrustState,
                            a: Identity, aKey: int, c: Identity, cKey: int, id: string, timestamp: string,
                            aOps: seq<TrustOp>, cOps: seq<TrustOp>, aNode: Node, cNode: Node)
    requires Correct(scheme) && RecordOf(authority, c.nodeId).status != Revoked
    requires aNode.id == a.nodeId != "" && cNode.id == c.nodeId != ""
    requires forall k :: 0 <= k < |aOps| ==> aOps[k].Load? || aOps[k].node != c.nodeId
    requires forall k :: 0 <= k < |cOps| ==> cOps[k].Load? || cOps[k].node != a.nodeId
    ensures
      var request := SignedRequest(scheme, cKey, c, id, timestamp);
      var (authority', response) := Handle(scheme, authority, a.nodeId, scheme.publicKey(aKey), request);
      var client' := Complete(client, Replied(response)).0;
      && Admits(scheme, RunOps(authority', aOps), cNode, cKey)
      && Admits(scheme, RunOps(client', cOps), aNode, aKey)
  {
    var request := SignedRequest(scheme, cKey, c, id, timestamp);
    var (authority', response) := Handle(scheme, authority, a.nodeId, scheme.publicKey(aKey), request);
    var client' := Complete(client, Replied(response)).0;
    Handshake(scheme, authority, client, a, aKey, c, cKey, id, timestamp);
    PinnedAdmitsSync(scheme, authority', aOps, cNode, cKey);
    PinnedAdmitsSync(scheme, client', cOps, aNode, aKey);
  }

  function HandleAll(scheme: Scheme, trust: TrustState, authorityId: string, authorityKey: string, rs: seq<Request>)
    : TrustState
    decreases |rs|
  {
    if rs == [] then trust
    else
      var next := Handle(scheme, trust, authorityId, authorityKey, rs[0]).0;
      HandleAll(scheme, next, authorityId, authorityKey, rs[1..])
  }

  /** No sequence of bootstrap requests, from anyone, touches the record of a revoked node. */
  lemma {:induction false} RequestsNeverUnrevoke(scheme: Scheme, trust: TrustState, authorityId: string,
                                                 authorityKey: string, rs: seq<Request>, n: string)
    requires RecordOf(trust, n).status == Revoked
    ensures RecordOf(HandleAll(scheme, trust, authorityId, authorityKey, rs), n) == RecordOf(trust, n)
    decreases |rs|
  {
    if rs != [] {
      var next := Handle(scheme, trust, authorityId, authorityKey, rs[0]).0;
      assert RecordOf(next, n) == RecordOf(trust, n);
      RequestsNeverUnrevoke(scheme, next, authorityId, authorityKey, rs[1..], n);
    }
  }

  /** The request names n and would pin another key for it. A self-signed request passes the signature check with any
      key of its own. */
  predicate Replaces(scheme: Scheme, r: Request, n: string, publicKey: string) {
    r.nodeId == n && scheme.verify(r.publicKey, RequestText(r), r.signature) && r.publicKey !in {"", publicKey}
  }

  lemma {:induction false} HandleAllThen(scheme: Scheme, trust: TrustState, authorityId: string, authorityKey: string,
                                         rs: seq<Request>, r: Request)
    ensures
      HandleAll(scheme, trust, authorityId, authorityKey, rs + [r]) ==
      Handle(scheme, HandleAll(scheme, trust, authorityId, authorityKey, rs), authorityId, authorityKey, r).0
    decreases |rs|
  {
    if rs == [] {
      assert ([] + [r])[1..] == [];
    } else {
      var next := Handle(scheme, trust, authorityId, authorityKey, rs[0]).0;
      HandleAllThen(scheme, next, authorityId, authorityKey, rs[1..], r);
      assert (rs + [r])[1..] == rs[1..] + [r];
    }
  }

  lemma PinSurvivesRequest(scheme: Scheme, trust: TrustState, authorityId: string, authorityKey: string, r: Request,
                           n: string, publicKey: string)
    requires Pinned(trust, n, publicKey)
    ensures
      Pinned(Handle(scheme, trust, authorityId, authorityKey, r).0, n, publicKey)
      <==> !Replaces(scheme, r, n, publicKey)
  {
  }

  /** n stays pinned to the key after every one of the requests. */
  ghost predicate PinnedThroughout(scheme: Scheme, trust: TrustState, authorityId: string, authorityKey: string,
                                   rs: seq<Request>, n: string, publicKey: string)
    decreases |rs|
  {
    && Pinned(HandleAll(scheme, trust, authorityId, authorityKey, rs), n, publicKey)
    && (rs != [] ==> PinnedThroughout(scheme, trust, authorityId, authorityKey, rs[..|rs| - 1], n, publicKey))
  }

  /** A sequence of bootstrap requests leaves the pinned key of a trusted node alone throughout exactly when none of
      them names that node with another key and a signature by that other key. */
  lemma {:induction false} PinSurvivesExactly(scheme: Scheme, trust: TrustState, authorityId: string,
                                              authorityKey: string, rs: seq<Request>, n: string, publicKey: string)
    requires Pinned(trust, n, publicKey)
    ensures
      PinnedThroughout(scheme, trust, authorityId, authorityKey, rs, n, publicKey)
      <==> forall r :: r in rs ==> !Replaces(scheme, r, n, publicKey)
    decreases |rs|
  {
    if rs != [] {
      var before, r := rs[..|rs| - 1], rs[|rs| - 1];
      assert rs == before + [r];
      PinSurvivesExactly(scheme, trust, authorityId, authorityKey, before, n, publicKey);
      HandleAllThen(scheme, trust, authorityId, authorityKey, before, r);
      if PinnedThroughout(scheme, trust, authorityId, authorityKey, before, n, publicKey) {
        var t := HandleAll(scheme, trust, authorityId, authorityKey, before);
        assert Pinned(t, n, publicKey);
        PinSurvivesRequest(scheme, t, authorityId, authorityKey, r, n, publicKey);
      }
    }
  }

  /** The client side has no such check: completing a bootstrap changes the status that the client
      stored for the authority exactly when the reply accepts and that status was not TRUSTED. */
  lemma ClientTrustChangesExactly(trust: TrustState, response: Response)
    ensures
      var n := response.authorityNodeId;
      var after := Complete(trust, Replied(response)).0;
      (RecordOf(after, n).status != RecordOf(trust, n).status) <==>
        (response.accepted && RecordOf(trust, n).status != Trusted)
  {
  }
}
