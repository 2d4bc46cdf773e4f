/** What a node remembers of the envelopes it received, what it reports, and what an envelope lists. */
module SyncMemory {
  import opened Versions
  import opened SyncModel
  import opened SyncNetwork
  import opened SyncSigning
  import opened Authenticator

  // ---- The deque of message ids ----

  /** The newest `window` ids, oldest first. */
  function Newest(ids: seq<MessageId>, window: nat): seq<MessageId> {
    ids[if |ids| <= window then 0 else |ids| - window..]
  }

  lemma NewestThen(ids: seq<MessageId>, more: seq<MessageId>, window: nat)
    ensures Newest(Newest(ids, window) + more, window) == Newest(ids + more, window)
  {
    var dropped := if |ids| <= window then 0 else |ids| - window;
    assert Newest(ids, window) + more == (ids + more)[dropped..];
  }

  /** The envelope is neither the node's own nor remembered, so that it is compared. */
  predicate Looks(node: Node, e: Envelope) {
    e.sender != node.id && e.messageId !in node.processed
  }

  ghost function StepLooks(net: Network, step: Step, n: NodeId): seq<MessageId>
    requires n in net.nodes
  {
    if step.Deliver? && step.node == n && step.accepted && Looks(net.nodes[n], step.envelope)
    then [step.envelope.messageId]
    else []
  }

  /** The ids of the envelopes that node n compared during the run, in order. */
  ghost function Looked(net: Network, steps: seq<Step>, n: NodeId): seq<MessageId>
    requires net.nodes.Keys == net.log.Keys && ValidRun(net, steps) && n in net.nodes
    decreases |steps|
  {
    if steps == [] then [] else StepLooks(net, steps[0], n) + Looked(Apply(net, steps[0]), steps[1..], n)
  }

  lemma StepRemembers(net: Network, step: Step, n: NodeId)
    requires net.nodes.Keys == net.log.Keys && Enabled(net, step) && n in net.nodes
    requires |net.nodes[n].processed| <= net.nodes[n].window
    ensures
      var was, now := net.nodes[n], Apply(net, step).nodes[n];
      now.processed == Newest(was.processed + StepLooks(net, step, n), was.window) && now.window == was.window
  {
    assert net.nodes[n].processed + [] == net.nodes[n].processed;
  }

  /** After any run the deque holds exactly the newest ids of the envelopes that the node compared. */
  lemma {:induction false} ProcessedIsNewest(net: Network, steps: seq<Step>, n: NodeId)
    requires net.nodes.Keys == net.log.Keys && ValidRun(net, steps) && n in net.nodes
    requires |net.nodes[n].processed| <= net.nodes[n].window
    ensures
      var was := net.nodes[n];
      Run(net, steps).nodes[n].processed == Newest(was.processed + Looked(net, steps, n), was.window)
    decreases |steps|
  {
    var was := net.nodes[n];
    if steps == [] {
      assert was.processed + [] == was.processed;
    } else {
      var first, rest := StepLooks(net, steps[0], n), Looked(Apply(net, steps[0]), steps[1..], n);
      StepRemembers(net, steps[0], n);
      ProcessedIsNewest(Apply(net, steps[0]), steps[1..], n);
      NewestThen(was.processed + first, rest, was.window);
      Regroup(was.processed, first, rest);
    }
  }

  lemma Regroup(a: seq<MessageId>, b: seq<MessageId>, c: seq<MessageId>)
    ensures (a + b) + c == a + (b + c)
  {
  }

  // ---- What a delivery reports ----

  /** The report names the envelope. Own and remembered envelopes are reported with version 0 and change nothing at all;
      any other with the node's own versions before and after. */
  lemma ReceiveReports(node: Node, e: Envelope)
    ensures
      var (after, result) := Receive(node, e);
      && result.sender == e.sender && result.messageId == e.messageId
      && if Looks(node, e) then
           && result.versionBefore == OwnVersion(node) && result.versionAfter == OwnVersion(after)
           && (result.outcome == AlreadyCurrent <==> Le(e.versions, node.versions))
           && (result.outcome == Conflict <==> !Le(e.versions, node.versions) && !Le(node.versions, e.versions))
         else
           after == node && result == SyncResult(AlreadyCurrent, e.sender, e.messageId, 0, 0)
  {
  }

  // ---- What an envelope carries and lists ----

  /** A created envelope carries the node's state, its id and key, and what the caller passed, signed as a whole. */
  lemma EnvelopeCarries(scheme: Scheme, node: Node, key: int, messageType: string, id: MessageId)
    ensures
      var e := SignEnvelope(scheme, Snapshot(node, scheme.publicKey(key), messageType, id), key);
      && e.sender == node.id && e.senderKey == scheme.publicKey(key)
      && e.messageType == messageType && e.messageId == id
      && e.versions == node.versions && e.payload.facts == node.facts
      && e.signature == scheme.sign(key, Signable(e))
  {
    var bare := Snapshot(node, scheme.publicKey(key), messageType, id);
    SignableCoversEverything(bare, SignEnvelope(scheme, bare, key));
  }

  /** The fact is about node m. */
  predicate About(f: Fact, m: NodeId) {
    f.m == m
  }

  /** The node ids of an envelope are those that its vector or one of its facts names. */
  ghost predicate ListsAll(e: Envelope) {
    forall m :: m in e.payload.knownNodeIds <==>
      m in e.versions || exists f :: Holds(e.payload.facts, f) && About(f, m)
  }

  lemma SnapshotListsAll(node: Node, key: string, messageType: string, id: MessageId, signature: string)
    ensures ListsAll(Snapshot(node, key, messageType, id).(signature := signature))
  {
    var e := Snapshot(node, key, messageType, id).(signature := signature);
    forall m
      ensures m in e.payload.knownNodeIds <==> m in e.versions || exists f :: Holds(e.payload.facts, f) && About(f, m)
    {
      assert About(ListsNode(m), m) && About(HasStatus(m), m);
      assert m in e.payload.facts.capabilities <==> Holds(e.payload.facts, ListsNode(m));
      assert m in e.payload.facts.availability <==> Holds(e.payload.facts, HasStatus(m));
    }
  }

  /** In every run each envelope that was sent lists exactly the node ids that its vector or its facts name, and speaks
      the protocol that receivers ask for. */
  lemma {:induction false} SentListsAll(net: Network, steps: seq<Step>)
    requires net.nodes.Keys == net.log.Keys && ValidRun(net, steps)
    requires forall e :: e in net.sent ==> ListsAll(e) && e.protocol == SYNC_PROTOCOL_VERSION
    ensures forall e :: e in Run(net, steps).sent ==> ListsAll(e) && e.protocol == SYNC_PROTOCOL_VERSION
    decreases |steps|
  {
    if steps != [] {
      match steps[0]
      case Send(n, key, messageType, id, signature) =>
        SnapshotListsAll(net.nodes[n], key, messageType, id, signature);
      case _ =>
    }
    if steps != [] {
      SentListsAll(Apply(net, steps[0]), steps[1..]);
    }
  }
}
