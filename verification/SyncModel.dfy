/** The values of the peer synchronization protocol: src/shyam/sync/models.py, and the effect on
    those values of each method of src/shyam/sync/service.py. The class that updates them in place
    is SyncService.SyncService; the network of many nodes is SyncNetwork. */
module SyncModel {
  import opened Versions

  type MessageId = string
  type Capabilities = map<NodeId, set<string>>
  type Availability = map<NodeId, string>

  const SYNC_PROTOCOL_VERSION := "1.0"

  /** The replicated facts: what a node stores, what an envelope carries, what one update adds. */
  datatype Facts = Facts(capabilities: Capabilities, availability: Availability)

  const NO_FACTS := Facts(map[], map[])

  datatype Payload = Payload(knownNodeIds: set<NodeId>, facts: Facts)

  datatype Envelope = Envelope(
    sender: NodeId,
    senderKey: string,
    protocol: string,
    messageType: string,
    versions: VersionMap,
    payload: Payload,
    messageId: MessageId,
    signature: string)

  /** The fields of one SyncService. `window` bounds the deque of processed message ids. */
  datatype Node = Node(
    id: NodeId,
    versions: VersionMap,
    facts: Facts,
    processed: seq<MessageId>,
    window: nat)

  datatype Outcome =
    | Applied | AlreadyCurrent | Conflict
    | RejectedProtocolMismatch | RejectedInvalidSignature | RejectedMalformed
    | RejectedRevoked | RejectedUntrusted

  datatype SyncResult = SyncResult(
    outcome: Outcome, sender: NodeId, messageId: MessageId, versionBefore: int, versionAfter: int)

  /** setdefault(m, set()): a node that is not listed has no capabilities. */
  function ListedFor(a: Capabilities, m: NodeId): set<string> {
    if m in a then a[m] else {}
  }

  function MergeCapabilities(a: Capabilities, b: Capabilities): Capabilities {
    map m | m in a.Keys + b.Keys :: ListedFor(a, m) + ListedFor(b, m)
  }

  /** Capabilities are united; for availability the second operand overwrites. */
  function JoinFacts(a: Facts, b: Facts): Facts {
    Facts(MergeCapabilities(a.capabilities, b.capabilities), a.availability + b.availability)
  }

  lemma MergeNothing(a: Capabilities)
    ensures MergeCapabilities(a, map[]) == a
  {
    assert forall m :: m in a ==> MergeCapabilities(a, map[])[m] == a[m];
  }

  function OwnVersion(node: Node): int {
    GetVersion(node.versions, node.id)
  }

  /** A local update: the facts join the node's own, and its own counter goes up by one. */
  function Updated(node: Node, delta: Facts): Node {
    node.(facts := JoinFacts(node.facts, delta),
          versions := WithUpdate(node.versions, node.id, OwnVersion(node) + 1))
  }

  function Snapshot(node: Node, key: string, messageType: string, id: MessageId): Envelope {
    Envelope(
      node.id, key, SYNC_PROTOCOL_VERSION, messageType, node.versions,
      Payload(
        node.versions.Keys + node.facts.capabilities.Keys + node.facts.availability.Keys,
        node.facts),
      id, "")
  }

  /** deque(maxlen=window).append */
  function Remember(processed: seq<MessageId>, id: MessageId, window: nat): seq<MessageId> {
    var all := processed + [id];
    if |all| <= window then all else all[|all| - window..]
  }

  /** What becomes of a node that receives an envelope that its authenticator accepts. */
  ghost function Receive(node: Node, e: Envelope): (Node, SyncResult) {
    var v := OwnVersion(node);
    if e.sender == node.id || e.messageId in node.processed then
      (node, SyncResult(AlreadyCurrent, e.sender, e.messageId, 0, 0))
    else
      var seen := node.(processed := Remember(node.processed, e.messageId, node.window));
      match Compared(node.versions, e.versions)
      case Equal | Ahead =>
        (seen, SyncResult(AlreadyCurrent, e.sender, e.messageId, v, v))
      case comparison =>
        var merged := seen.(facts := JoinFacts(node.facts, e.payload.facts),
                            versions := Merge(node.versions, e.versions));
        (merged,
         SyncResult(if comparison == Concurrent then Conflict else Applied,
                    e.sender, e.messageId, v, OwnVersion(merged)))
  }
}
