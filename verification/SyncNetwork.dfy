/** Any number of SyncService nodes that bump, update, send and receive. An envelope that was ever
    sent may be delivered to any node, in any order, any number of times, and each delivery is
    accepted or rejected by the receiver's authenticator. */
module SyncNetwork {
  import opened Versions
  import opened SyncModel

  /** `log[i][k]` is what node i's update number k + 1 added. No node reads it: it is the history
      against which the nodes and the envelopes are judged. */
  type Log = map<NodeId, seq<Facts>>

  datatype Network = Network(nodes: map<NodeId, Node>, log: Log, sent: set<Envelope>)

  datatype Step =
    | Bump(node: NodeId)
    | Update(node: NodeId, delta: Facts)
    | Send(node: NodeId, key: string, messageType: string, messageId: MessageId, signature: string)
    | Deliver(node: NodeId, envelope: Envelope, accepted: bool)

  ghost predicate Enabled(net: Network, step: Step) {
    && step.node in net.nodes
    && match step {
         case Bump(_) => true
         case Update(_, _) => true
         case Send(_, _, _, id, _) => forall e :: e in net.sent ==> e.messageId != id
         case Deliver(_, e, _) => e in net.sent
       }
  }

  ghost function Record(net: Network, n: NodeId, delta: Facts): Network
    requires n in net.nodes && n in net.log
  {
    net.(nodes := net.nodes[n := Updated(net.nodes[n], delta)],
         log := net.log[n := net.log[n] + [delta]])
  }

  ghost function Delivered(net: Network, n: NodeId, e: Envelope): Network
    requires n in net.nodes
  {
    net.(nodes := net.nodes[n := Receive(net.nodes[n], e).0])
  }

  ghost function Sealed(node: Node, step: Step): Envelope
    requires step.Send?
  {
    Snapshot(node, step.key, step.messageType, step.messageId).(signature := step.signature)
  }

  ghost function Apply(net: Network, step: Step): Network
    requires net.nodes.Keys == net.log.Keys && Enabled(net, step)
  {
    match step
    case Bump(n) => Record(net, n, NO_FACTS)
    case Update(n, delta) => Record(net, n, delta)
    case Send(n, _, _, _, _) => net.(sent := net.sent + {Sealed(net.nodes[n], step)})
    case Deliver(n, e, accepted) =>
      if accepted then Delivered(net, n, e) else net
  }

  ghost predicate ValidRun(net: Network, steps: seq<Step>)
    requires net.nodes.Keys == net.log.Keys
    decreases |steps|
  {
    steps != [] ==> Enabled(net, steps[0]) && ValidRun(Apply(net, steps[0]), steps[1..])
  }

  ghost function Run(net: Network, steps: seq<Step>): (final: Network)
    requires net.nodes.Keys == net.log.Keys && ValidRun(net, steps)
    ensures final.nodes.Keys == final.log.Keys == net.nodes.Keys
    decreases |steps|
  {
    if steps == [] then net else Run(Apply(net, steps[0]), steps[1..])
  }

  /** Every node starts at version 0 of itself, with no facts and any bound on its deque. */
  ghost function Initial(windows: map<NodeId, nat>): Network {
    Network(map n | n in windows :: Node(n, map[n := 0], NO_FACTS, [], windows[n]),
            map n | n in windows :: [], {})
  }

  // ---- What a version vector promises about facts ----

  datatype Fact = ListsNode(m: NodeId) | HasCapability(m: NodeId, c: string) | HasStatus(m: NodeId)

  ghost predicate Holds(facts: Facts, f: Fact) {
    match f
    case ListsNode(m) => m in facts.capabilities
    case HasCapability(m, c) => m in facts.capabilities && c in facts.capabilities[m]
    case HasStatus(m) => m in facts.availability
  }

  ghost predicate Carries(log: Log, i: NodeId, k: nat, f: Fact) {
    i in log && k < |log[i]| && Holds(log[i][k], f)
  }

  /** Some update that the vector covers added the fact. */
  ghost predicate Known(log: Log, v: VersionMap, f: Fact) {
    exists i: NodeId, k: nat :: Carries(log, i, k, f) && k < GetVersion(v, i)
  }

  ghost function LogLength(log: Log, i: NodeId): int {
    if i in log then |log[i]| else 0
  }

  /** The facts are exactly what the updates covered by the vector added, no more and no less. */
  ghost predicate Complete(log: Log, v: VersionMap, facts: Facts) {
    && (forall i: NodeId {:trigger GetVersion(v, i), LogLength(log, i)} ::
          0 <= GetVersion(v, i) <= LogLength(log, i))
    && (forall f: Fact {:trigger Known(log, v, f)} ::
          Holds(facts, f) <==> Known(log, v, f))
  }

  ghost predicate SameFacts(a: Facts, b: Facts) {
    a.capabilities == b.capabilities && a.availability.Keys == b.availability.Keys
  }

  lemma JoinHolds(a: Facts, b: Facts, f: Fact)
    ensures Holds(JoinFacts(a, b), f) <==> Holds(a, f) || Holds(b, f)
  {
  }

  lemma HoldsDecides(a: Facts, b: Facts)
    requires forall f: Fact :: Holds(a, f) <==> Holds(b, f)
    ensures SameFacts(a, b)
  {
    forall m: NodeId
      ensures m in a.capabilities <==> m in b.capabilities
      ensures m in a.availability <==> m in b.availability
    {
      assert Holds(a, ListsNode(m)) <==> Holds(b, ListsNode(m));
      assert Holds(a, HasStatus(m)) <==> Holds(b, HasStatus(m));
    }
    forall m, c | m in a.capabilities
      ensures c in a.capabilities[m] <==> c in b.capabilities[m]
    {
      assert Holds(a, HasCapability(m, c)) <==> Holds(b, HasCapability(m, c));
    }
    assert forall m :: m in a.capabilities ==> a.capabilities[m] == b.capabilities[m];
  }

  lemma CompleteMerge(log: Log, v: VersionMap, a: Facts, w: VersionMap, b: Facts)
    requires Complete(log, v, a) && Complete(log, w, b)
    ensures Complete(log, Merge(v, w), JoinFacts(a, b))
  {
    forall i: NodeId
      ensures 0 <= GetVersion(Merge(v, w), i) <= LogLength(log, i)
    {
      assert LogLength(log, i) >= GetVersion(v, i) >= 0 && LogLength(log, i) >= GetVersion(w, i) >= 0;
    }
    forall f: Fact
      ensures Holds(JoinFacts(a, b), f) <==> Known(log, Merge(v, w), f)
    {
      JoinHolds(a, b, f);
      if Known(log, Merge(v, w), f) {
        var i: NodeId, k: nat :| Carries(log, i, k, f) && k < GetVersion(Merge(v, w), i);
        assert k < GetVersion(v, i) || k < GetVersion(w, i);
      }
      if Known(log, v, f) {
        var i: NodeId, k: nat :| Carries(log, i, k, f) && k < GetVersion(v, i);
        assert k < GetVersion(Merge(v, w), i);
      }
      if Known(log, w, f) {
        var i: NodeId, k: nat :| Carries(log, i, k, f) && k < GetVersion(w, i);
        assert k < GetVersion(Merge(v, w), i);
      }
    }
  }

  /** A later update is not covered by an earlier vector. */
  lemma CompleteFrame(log: Log, n: NodeId, delta: Facts, v: VersionMap, facts: Facts)
    requires n in log && Complete(log, v, facts)
    ensures Complete(log[n := log[n] + [delta]], v, facts)
  {
    var after := log[n := log[n] + [delta]];
    forall i: NodeId
      ensures 0 <= GetVersion(v, i) <= LogLength(after, i)
    {
      assert LogLength(log, i) >= GetVersion(v, i) >= 0;
    }
    forall f: Fact
      ensures Known(log, v, f) <==> Known(after, v, f)
    {
      if Known(log, v, f) {
        var i: NodeId, k: nat :| Carries(log, i, k, f) && k < GetVersion(v, i);
        assert Carries(after, i, k, f);
      }
      if Known(after, v, f) {
        var i: NodeId, k: nat :| Carries(after, i, k, f) && k < GetVersion(v, i);
        assert GetVersion(v, i) <= LogLength(log, i);
        assert Carries(log, i, k, f);
      }
    }
  }

  /** The node that makes the update covers it, and nothing else becomes covered. */
  lemma CompleteUpdate(log: Log, n: NodeId, delta: Facts, v: VersionMap, facts: Facts)
    requires n in log && Complete(log, v, facts) && GetVersion(v, n) == |log[n]|
    ensures Complete(log[n := log[n] + [delta]], WithUpdate(v, n, |log[n]| + 1), JoinFacts(facts, delta))
  {
    var after, w := log[n := log[n] + [delta]], WithUpdate(v, n, |log[n]| + 1);
    CompleteFrame(log, n, delta, v, facts);
    forall i: NodeId
      ensures 0 <= GetVersion(w, i) <= LogLength(after, i)
    {
      assert LogLength(log, i) >= GetVersion(v, i) >= 0;
    }
    forall f: Fact
      ensures Holds(JoinFacts(facts, delta), f) <==> Known(after, w, f)
    {
      JoinHolds(facts, delta, f);
      if Known(after, v, f) {
        var i: NodeId, k: nat :| Carries(after, i, k, f) && k < GetVersion(v, i);
        assert k < GetVersion(w, i);
      }
      if Holds(delta, f) {
        assert Carries(after, n, |log[n]|, f) && |log[n]| < GetVersion(w, n);
      }
      if Known(after, w, f) {
        var i: NodeId, k: nat :| Carries(after, i, k, f) && k < GetVersion(w, i);
        assert (i == n && k == |log[n]|) || k < GetVersion(v, i);
      }
    }
  }

  /** A dominated vector stands for facts that the dominating side already has. */
  lemma DominatedAddsNothing(log: Log, v: VersionMap, a: Facts, w: VersionMap, b: Facts)
    requires Complete(log, v, a) && Complete(log, w, b) && Le(w, v)
    ensures forall f: Fact :: Holds(b, f) ==> Holds(a, f)
    ensures SameFacts(JoinFacts(a, b), a)
  {
    forall f: Fact
      ensures Holds(b, f) ==> Holds(a, f)
      ensures Holds(JoinFacts(a, b), f) <==> Holds(a, f)
    {
      JoinHolds(a, b, f);
      if Known(log, w, f) {
        var i: NodeId, k: nat :| Carries(log, i, k, f) && k < GetVersion(w, i);
        assert GetVersion(w, i) <= GetVersion(v, i);
        assert Known(log, v, f);
      }
    }
    HoldsDecides(JoinFacts(a, b), a);
  }

  // ---- The causal invariant of the whole network ----

  ghost predicate NodeOk(net: Network, n: NodeId)
    requires n in net.nodes
  {
    var node := net.nodes[n];
    && node.id == n
    && n in net.log
    && OwnVersion(node) == |net.log[n]|
    && Complete(net.log, node.versions, node.facts)
  }

  ghost predicate EnvelopeOk(net: Network, e: Envelope) {
    && e.sender in net.nodes
    && Le(e.versions, net.nodes[e.sender].versions)
    && Complete(net.log, e.versions, e.payload.facts)
  }

  /** A remembered message id stands for an envelope that the node's vector dominates. */
  ghost predicate MemoryOk(net: Network, n: NodeId, e: Envelope)
    requires n in net.nodes
  {
    e.messageId in net.nodes[n].processed ==> Le(e.versions, net.nodes[n].versions)
  }

  ghost predicate WasSent(net: Network, id: MessageId) {
    exists e :: e in net.sent && e.messageId == id
  }

  ghost predicate NodesInv(net: Network) {
    && net.nodes.Keys == net.log.Keys
    && forall n {:trigger NodeOk(net, n)} :: n in net.nodes ==> NodeOk(net, n)
  }

  ghost predicate EnvelopesInv(net: Network) {
    forall e {:trigger EnvelopeOk(net, e)} :: e in net.sent ==> EnvelopeOk(net, e)
  }

  ghost predicate MemoryInv(net: Network) {
    && (forall n, e {:trigger MemoryOk(net, n, e)} :: n in net.nodes && e in net.sent ==> MemoryOk(net, n, e))
    && (forall n, id :: n in net.nodes && id in net.nodes[n].processed ==> WasSent(net, id))
    && (forall e, d :: e in net.sent && d in net.sent && e.messageId == d.messageId ==> e == d)
  }

  ghost predicate Inv(net: Network) {
    NodesInv(net) && EnvelopesInv(net) && MemoryInv(net)
  }

  lemma LeTransitive(a: VersionMap, b: VersionMap, c: VersionMap)
    requires Le(a, b) && Le(b, c)
    ensures Le(a, c)
  {
    forall n: NodeId
      ensures GetVersion(a, n) <= GetVersion(c, n)
    {
      assert GetVersion(a, n) <= GetVersion(b, n) <= GetVersion(c, n);
    }
  }

  lemma InitialInv(windows: map<NodeId, nat>)
    ensures Inv(Initial(windows))
  {
    var net := Initial(windows);
    forall n | n in net.nodes
      ensures NodeOk(net, n)
    {
      assert forall i: NodeId :: LogLength(net.log, i) >= GetVersion(map[n := 0], i) >= 0;
      assert forall f: Fact :: !Holds(NO_FACTS, f) && !Known(net.log, map[n := 0], f);
    }
  }

  /** Vectors only grow, and the log only gains covered entries: then envelopes and memory stay valid. */
  ghost predicate Grows(net: Network, after: Network) {
    && after.nodes.Keys == net.nodes.Keys
    && forall m :: m in net.nodes ==> Le(net.nodes[m].versions, after.nodes[m].versions)
  }

  lemma RecordNodes(net: Network, n: NodeId, delta: Facts, m: NodeId)
    requires n in net.nodes && m in net.nodes && NodeOk(net, n) && NodeOk(net, m)
    ensures NodeOk(Record(net, n, delta), m)
    ensures Le(net.nodes[m].versions, Record(net, n, delta).nodes[m].versions)
  {
    if m == n {
      CompleteUpdate(net.log, n, delta, net.nodes[n].versions, net.nodes[n].facts);
    } else {
      CompleteFrame(net.log, n, delta, net.nodes[m].versions, net.nodes[m].facts);
    }
  }

  lemma RecordEnvelopes(net: Network, n: NodeId, delta: Facts, e: Envelope)
    requires n in net.nodes && n in net.log && EnvelopeOk(net, e)
    requires Grows(net, Record(net, n, delta))
    ensures EnvelopeOk(Record(net, n, delta), e)
  {
    CompleteFrame(net.log, n, delta, e.versions, e.payload.facts);
    LeTransitive(e.versions, net.nodes[e.sender].versions, Record(net, n, delta).nodes[e.sender].versions);
  }

  lemma MemoryKept(net: Network, after: Network, m: NodeId, e: Envelope)
    requires Grows(net, after) && m in net.nodes && MemoryOk(net, m, e)
    requires after.nodes[m].processed == net.nodes[m].processed
    ensures MemoryOk(after, m, e)
  {
    if e.messageId in net.nodes[m].processed {
      LeTransitive(e.versions, net.nodes[m].versions, after.nodes[m].versions);
    }
  }

  lemma RecordNodesInv(net: Network, n: NodeId, delta: Facts)
    requires NodesInv(net) && n in net.nodes
    ensures NodesInv(Record(net, n, delta)) && Grows(net, Record(net, n, delta))
  {
    var after := Record(net, n, delta);
    forall m | m in net.nodes
      ensures NodeOk(after, m) && Le(net.nodes[m].versions, after.nodes[m].versions)
    {
      RecordNodes(net, n, delta, m);
    }
  }

  lemma RecordMemoryInv(net: Network, n: NodeId, delta: Facts)
    requires MemoryInv(net) && n in net.nodes && n in net.log
    requires Grows(net, Record(net, n, delta))
    ensures MemoryInv(Record(net, n, delta))
  {
    var after := Record(net, n, delta);
    forall m, e | m in net.nodes && e in net.sent
      ensures MemoryOk(after, m, e)
    {
      MemoryKept(net, after, m, e);
    }
    forall m, id | m in net.nodes && id in net.nodes[m].processed
      ensures WasSent(after, id)
    {
      WasSentStays(net, after, id);
    }
  }

  lemma RecordInv(net: Network, n: NodeId, delta: Facts)
    requires Inv(net) && n in net.nodes
    ensures Inv(Record(net, n, delta))
  {
    RecordNodesInv(net, n, delta);
    forall e | e in net.sent
      ensures EnvelopeOk(Record(net, n, delta), e)
    {
      RecordEnvelopes(net, n, delta, e);
    }
    RecordMemoryInv(net, n, delta);
  }

  lemma SendEnvelopes(net: Network, step: Step, e: Envelope)
    requires step.Send? && Enabled(net, step) && net.nodes.Keys == net.log.Keys
    requires NodeOk(net, step.node) && (e in net.sent ==> EnvelopeOk(net, e))
    requires e in Apply(net, step).sent
    ensures EnvelopeOk(Apply(net, step), e)
  {
  }

  lemma SendMemory(net: Network, step: Step, m: NodeId, e: Envelope)
    requires step.Send? && Enabled(net, step) && net.nodes.Keys == net.log.Keys
    requires m in net.nodes && (e in net.sent ==> MemoryOk(net, m, e))
    requires forall id :: id in net.nodes[m].processed ==> WasSent(net, id)
    requires e in Apply(net, step).sent
    ensures MemoryOk(Apply(net, step), m, e)
  {
    if e !in net.sent {
      assert e.messageId in net.nodes[m].processed ==> WasSent(net, e.messageId);
    }
  }

  lemma SendMemoryInv(net: Network, step: Step)
    requires step.Send? && Enabled(net, step) && net.nodes.Keys == net.log.Keys
    requires MemoryInv(net)
    ensures MemoryInv(Apply(net, step))
  {
    var after := Apply(net, step);
    forall m, e | m in net.nodes && e in after.sent
      ensures MemoryOk(after, m, e)
    {
      SendMemory(net, step, m, e);
    }
    forall m, id | m in net.nodes && id in net.nodes[m].processed
      ensures WasSent(after, id)
    {
      WasSentStays(net, after, id);
    }
  }

  lemma SendNodesInv(net: Network, step: Step)
    requires step.Send? && Enabled(net, step) && NodesInv(net) && EnvelopesInv(net)
    ensures NodesInv(Apply(net, step)) && EnvelopesInv(Apply(net, step))
  {
    forall m | m in net.nodes
      ensures NodeOk(Apply(net, step), m)
    {
      assert NodeOk(net, m);
    }
    forall e | e in Apply(net, step).sent
      ensures EnvelopeOk(Apply(net, step), e)
    {
      SendEnvelopes(net, step, e);
    }
  }

  lemma SendInv(net: Network, step: Step)
    requires Inv(net) && step.Send? && Enabled(net, step)
    ensures Inv(Apply(net, step))
  {
    SendNodesInv(net, step);
    SendMemoryInv(net, step);
  }

  lemma WasSentStays(net: Network, after: Network, id: MessageId)
    requires WasSent(net, id) && net.sent <= after.sent
    ensures WasSent(after, id)
  {
    var e :| e in net.sent && e.messageId == id;
    assert e in after.sent;
  }

  /** The node after an accepted delivery: its vector is the least upper bound of both, and its
      facts are the union of both. */
  ghost predicate Joined(log: Log, before: Node, e: Envelope, after: Node) {
    && after.id == before.id
    && Complete(log, after.versions, after.facts)
    && Le(before.versions, after.versions)
    && Le(e.versions, after.versions)
    && SameVector(after.versions, Merge(before.versions, e.versions))
    && SameFacts(after.facts, JoinFacts(before.facts, e.payload.facts))
  }

  lemma DominatedIsMerge(v: VersionMap, w: VersionMap)
    requires Le(w, v)
    ensures SameVector(v, Merge(v, w))
  {
    forall i: NodeId
      ensures GetVersion(v, i) == GetVersion(Merge(v, w), i)
    {
      assert GetVersion(w, i) <= GetVersion(v, i);
    }
  }

  lemma SkippedJoins(log: Log, node: Node, e: Envelope, after: Node)
    requires Complete(log, node.versions, node.facts) && Complete(log, e.versions, e.payload.facts)
    requires Le(e.versions, node.versions)
    requires after.id == node.id && after.versions == node.versions && after.facts == node.facts
    ensures Joined(log, node, e, after)
  {
    DominatedAddsNothing(log, node.versions, node.facts, e.versions, e.payload.facts);
    DominatedIsMerge(node.versions, e.versions);
  }

  /** What is skipped is dominated, and what is merged is not. */
  lemma ReceiveCases(node: Node, e: Envelope)
    requires e.sender == node.id || e.messageId in node.processed ==> Le(e.versions, node.versions)
    ensures
      var (after, result) := Receive(node, e);
      && after.id == node.id
      && result.outcome in {Applied, Conflict, AlreadyCurrent}
      && (result.outcome == AlreadyCurrent <==> Le(e.versions, node.versions))
      && (result.outcome == Applied <==> Compared(node.versions, e.versions) == Behind)
      && (if Le(e.versions, node.versions)
          then after.versions == node.versions && after.facts == node.facts
          else && after.versions == Merge(node.versions, e.versions)
               && after.facts == JoinFacts(node.facts, e.payload.facts))
  {
  }

  lemma ReceiveJoinsValues(log: Log, node: Node, e: Envelope)
    requires Complete(log, node.versions, node.facts) && Complete(log, e.versions, e.payload.facts)
    requires e.sender == node.id || e.messageId in node.processed ==> Le(e.versions, node.versions)
    ensures Joined(log, node, e, Receive(node, e).0)
  {
    ReceiveCases(node, e);
    var after := Receive(node, e).0;
    if Le(e.versions, node.versions) {
      SkippedJoins(log, node, e, after);
    } else {
      CompleteMerge(log, node.versions, node.facts, e.versions, e.payload.facts);
      MergeIsSupremum(node.versions, e.versions);
    }
  }

  /** The causal invariant is what makes the receiver's shortcuts right: an envelope that is sent by
      the node itself, remembered, equal or dominated is one whose join would change nothing. */
  lemma ShortcutsAreDominated(net: Network, n: NodeId, e: Envelope)
    requires Inv(net) && n in net.nodes && e in net.sent
    requires e.sender == n || e.messageId in net.nodes[n].processed
    ensures Le(e.versions, net.nodes[n].versions)
  {
    assert EnvelopeOk(net, e) && MemoryOk(net, n, e);
  }

  lemma ReceiveJoins(net: Network, n: NodeId, e: Envelope)
    requires Inv(net) && n in net.nodes && e in net.sent
    ensures Joined(net.log, net.nodes[n], e, Receive(net.nodes[n], e).0)
  {
    assert NodeOk(net, n) && EnvelopeOk(net, e);
    if e.sender == n || e.messageId in net.nodes[n].processed {
      ShortcutsAreDominated(net, n, e);
    }
    ReceiveJoinsValues(net.log, net.nodes[n], e);
  }

  lemma DeliverNodes(net: Network, n: NodeId, e: Envelope, m: NodeId)
    requires n in net.nodes && NodeOk(net, n) && EnvelopeOk(net, e)
    requires Joined(net.log, net.nodes[n], e, Receive(net.nodes[n], e).0)
    requires m in net.nodes && NodeOk(net, m)
    ensures NodeOk(Delivered(net, n, e), m)
    ensures Le(net.nodes[m].versions, Delivered(net, n, e).nodes[m].versions)
  {
    if m == n {
      OwnVersionKept(net, n, e);
    }
  }

  /** No node learns a version of itself that it did not make. */
  lemma OwnVersionKept(net: Network, n: NodeId, e: Envelope)
    requires n in net.nodes && NodeOk(net, n) && EnvelopeOk(net, e)
    requires Joined(net.log, net.nodes[n], e, Receive(net.nodes[n], e).0)
    ensures OwnVersion(Receive(net.nodes[n], e).0) == OwnVersion(net.nodes[n])
  {
    var after := Receive(net.nodes[n], e).0;
    assert GetVersion(e.versions, n) <= LogLength(net.log, n);
    assert GetVersion(after.versions, n) == GetVersion(Merge(net.nodes[n].versions, e.versions), n);
  }

  lemma DeliverMemory(net: Network, n: NodeId, e: Envelope, m: NodeId, d: Envelope)
    requires n in net.nodes && Joined(net.log, net.nodes[n], e, Receive(net.nodes[n], e).0)
    requires m in net.nodes && MemoryOk(net, m, d) && (d.messageId == e.messageId ==> d == e)
    requires Grows(net, Delivered(net, n, e))
    ensures MemoryOk(Delivered(net, n, e), m, d)
  {
    var after := Delivered(net, n, e);
    if d.messageId in net.nodes[m].processed {
      LeTransitive(d.versions, net.nodes[m].versions, after.nodes[m].versions);
    } else if d.messageId in after.nodes[m].processed {
      assert d.messageId == e.messageId;
    }
  }

  lemma DeliverEnvelopes(net: Network, n: NodeId, e: Envelope, d: Envelope)
    requires n in net.nodes && EnvelopeOk(net, d) && Grows(net, Delivered(net, n, e))
    ensures EnvelopeOk(Delivered(net, n, e), d)
  {
    LeTransitive(d.versions, net.nodes[d.sender].versions, Delivered(net, n, e).nodes[d.sender].versions);
  }

  lemma DeliverIds(net: Network, n: NodeId, e: Envelope, m: NodeId, id: MessageId)
    requires n in net.nodes && e in net.sent && m in net.nodes
    requires id in net.nodes[m].processed ==> WasSent(net, id)
    requires id in Delivered(net, n, e).nodes[m].processed
    ensures WasSent(net, id)
  {
    assert id in net.nodes[m].processed || id == e.messageId;
  }

  lemma DeliverNodesInv(net: Network, n: NodeId, e: Envelope)
    requires NodesInv(net) && EnvelopesInv(net) && n in net.nodes && e in net.sent
    requires Joined(net.log, net.nodes[n], e, Receive(net.nodes[n], e).0)
    ensures NodesInv(Delivered(net, n, e)) && Grows(net, Delivered(net, n, e))
  {
    forall m | m in net.nodes
      ensures NodeOk(Delivered(net, n, e), m)
      ensures Le(net.nodes[m].versions, Delivered(net, n, e).nodes[m].versions)
    {
      DeliverNodes(net, n, e, m);
    }
  }

  lemma DeliverMemoryInv(net: Network, n: NodeId, e: Envelope)
    requires MemoryInv(net) && n in net.nodes && e in net.sent
    requires Joined(net.log, net.nodes[n], e, Receive(net.nodes[n], e).0)
    requires Grows(net, Delivered(net, n, e))
    ensures MemoryInv(Delivered(net, n, e))
  {
    var after := Delivered(net, n, e);
    forall m, d | m in net.nodes && d in net.sent
      ensures MemoryOk(after, m, d)
    {
      DeliverMemory(net, n, e, m, d);
    }
    forall m, id | m in net.nodes && id in after.nodes[m].processed
      ensures WasSent(after, id)
    {
      DeliverIds(net, n, e, m, id);
      WasSentStays(net, after, id);
    }
  }

  lemma DeliverInv(net: Network, n: NodeId, e: Envelope)
    requires Inv(net) && n in net.nodes && e in net.sent
    ensures Inv(Delivered(net, n, e))
  {
    ReceiveJoins(net, n, e);
    DeliverNodesInv(net, n, e);
    forall d | d in net.sent
      ensures EnvelopeOk(Delivered(net, n, e), d)
    {
      DeliverEnvelopes(net, n, e, d);
    }
    DeliverMemoryInv(net, n, e);
  }

  lemma StepInv(net: Network, step: Step)
    requires Inv(net) && Enabled(net, step)
    ensures Inv(Apply(net, step))
  {
    match step
    case Bump(n) => RecordInv(net, n, NO_FACTS);
    case Update(n, delta) => RecordInv(net, n, delta);
    case Send(_, _, _, _, _) => SendInv(net, step);
    case Deliver(n, e, accepted) => if accepted { DeliverInv(net, n, e); }
  }

  lemma {:induction false} RunInv(net: Network, steps: seq<Step>)
    requires Inv(net) && ValidRun(net, steps)
    ensures Inv(Run(net, steps))
    decreases |steps|
  {
    if steps != [] {
      StepInv(net, steps[0]);
      RunInv(Apply(net, steps[0]), steps[1..]);
    }
  }

  /** In every reachable network each node and each envelope holds exactly the facts of the updates
      that its vector covers, and no vector runs ahead of the node it talks about. */
  lemma CausalCompleteness(windows: map<NodeId, nat>, steps: seq<Step>)
    requires ValidRun(Initial(windows), steps)
    ensures
      var net := Run(Initial(windows), steps);
      && (forall n :: n in net.nodes ==>
            && GetVersion(net.nodes[n].versions, n) == |net.log[n]|
            && Complete(net.log, net.nodes[n].versions, net.nodes[n].facts))
      && (forall e :: e in net.sent ==> Complete(net.log, e.versions, e.payload.facts))
  {
    InitialInv(windows);
    RunInv(Initial(windows), steps);
    var net := Run(Initial(windows), steps);
    assert forall n :: n in net.nodes ==> NodeOk(net, n);
    assert forall e :: e in net.sent ==> EnvelopeOk(net, e);
  }
}
