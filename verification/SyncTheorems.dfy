/** What the causal invariant of SyncNetwork buys: order independence, replay safety, fast-forward,
    convergence and a bound on gossip; and what it does not buy for availability values. */
module SyncTheorems {
  import opened Versions
  import opened SyncModel
  import opened SyncNetwork

  // ---- Order independence ----

  ghost function StepAccepted(step: Step, n: NodeId): set<Envelope> {
    if step.Deliver? && step.node == n && step.accepted then {step.envelope} else {}
  }

  ghost function StepUpdates(step: Step, n: NodeId): seq<Facts> {
    if step.node != n then []
    else match step
         case Bump(_) => [NO_FACTS]
         case Update(_, delta) => [delta]
         case _ => []
  }

  /** The envelopes that node n accepted: a set, so order and repetition are forgotten. */
  ghost function Accepted(steps: seq<Step>, n: NodeId): set<Envelope> {
    if steps == [] then {} else StepAccepted(steps[0], n) + Accepted(steps[1..], n)
  }

  /** The updates that node n made itself. */
  ghost function OwnUpdates(steps: seq<Step>, n: NodeId): seq<Facts> {
    if steps == [] then [] else StepUpdates(steps[0], n) + OwnUpdates(steps[1..], n)
  }

  ghost predicate IsSupremum(start: Node, got: set<Envelope>, end: Node, i: NodeId) {
    && GetVersion(start.versions, i) <= GetVersion(end.versions, i)
    && (forall e :: e in got ==> GetVersion(e.versions, i) <= GetVersion(end.versions, i))
    && (GetVersion(end.versions, i) != GetVersion(start.versions, i) ==>
          exists e :: e in got && GetVersion(end.versions, i) == GetVersion(e.versions, i))
  }

  ghost predicate Gathered(start: Node, own: seq<Facts>, got: set<Envelope>, f: Fact) {
    || Holds(start.facts, f)
    || (exists d :: d in own && Holds(d, f))
    || (exists e :: e in got && Holds(e.payload.facts, f))
  }

  /** `end` is the join of `start`, its own updates and the set of envelopes it accepted. */
  ghost predicate IsJoin(start: Node, own: seq<Facts>, got: set<Envelope>, end: Node) {
    && end.id == start.id
    && OwnVersion(end) == OwnVersion(start) + |own|
    && (forall i: NodeId :: i != start.id ==> IsSupremum(start, got, end, i))
    && (forall f: Fact {:trigger Gathered(start, own, got, f)} ::
          Holds(end.facts, f) <==> Gathered(start, own, got, f))
  }

  lemma SupremumCompose(a: Node, got1: set<Envelope>, b: Node, got2: set<Envelope>, c: Node, i: NodeId)
    requires IsSupremum(a, got1, b, i) && IsSupremum(b, got2, c, i)
    ensures IsSupremum(a, got1 + got2, c, i)
  {
    if GetVersion(c.versions, i) != GetVersion(b.versions, i) {
      var e :| e in got2 && GetVersion(c.versions, i) == GetVersion(e.versions, i);
      assert e in got1 + got2;
    } else if GetVersion(b.versions, i) != GetVersion(a.versions, i) {
      var e :| e in got1 && GetVersion(b.versions, i) == GetVersion(e.versions, i);
      assert e in got1 + got2;
    }
  }

  lemma GatheredCompose(a: Node, own1: seq<Facts>, got1: set<Envelope>, b: Node,
                        own2: seq<Facts>, got2: set<Envelope>, f: Fact)
    requires Holds(b.facts, f) <==> Gathered(a, own1, got1, f)
    ensures Gathered(b, own2, got2, f) <==> Gathered(a, own1 + own2, got1 + got2, f)
  {
    assert forall d :: d in own1 + own2 <==> d in own1 || d in own2;
  }

  lemma JoinCompose(a: Node, own1: seq<Facts>, got1: set<Envelope>, b: Node,
                    own2: seq<Facts>, got2: set<Envelope>, c: Node)
    requires IsJoin(a, own1, got1, b) && IsJoin(b, own2, got2, c)
    ensures IsJoin(a, own1 + own2, got1 + got2, c)
  {
    forall i: NodeId | i != a.id
      ensures IsSupremum(a, got1 + got2, c, i)
    {
      SupremumCompose(a, got1, b, got2, c, i);
    }
    forall f: Fact
      ensures Holds(c.facts, f) <==> Gathered(a, own1 + own2, got1 + got2, f)
    {
      GatheredCompose(a, own1, got1, b, own2, got2, f);
    }
  }

  lemma UpdateIsJoin(node: Node, delta: Facts)
    ensures IsJoin(node, [delta], {}, Updated(node, delta))
  {
    forall f: Fact
      ensures Holds(JoinFacts(node.facts, delta), f) <==> Gathered(node, [delta], {}, f)
    {
      JoinHolds(node.facts, delta, f);
      assert delta in [delta];
    }
  }

  lemma DeliveryIsJoin(net: Network, n: NodeId, e: Envelope)
    requires Inv(net) && n in net.nodes && e in net.sent
    ensures IsJoin(net.nodes[n], [], {e}, Receive(net.nodes[n], e).0)
  {
    var before, after := net.nodes[n], Receive(net.nodes[n], e).0;
    ReceiveJoins(net, n, e);
    assert NodeOk(net, n) && EnvelopeOk(net, e);
    OwnVersionKept(net, n, e);
    JoinedIsJoin(net.log, before, e, after);
  }

  lemma JoinedIsJoin(log: Log, before: Node, e: Envelope, after: Node)
    requires Joined(log, before, e, after) && OwnVersion(after) == OwnVersion(before)
    ensures IsJoin(before, [], {e}, after)
  {
    forall i: NodeId
      ensures IsSupremum(before, {e}, after, i)
    {
      assert GetVersion(after.versions, i) == GetVersion(Merge(before.versions, e.versions), i);
      assert e in {e};
    }
    forall f: Fact
      ensures Holds(after.facts, f) <==> Gathered(before, [], {e}, f)
    {
      JoinHolds(before.facts, e.payload.facts, f);
      SameFactsHold(after.facts, JoinFacts(before.facts, e.payload.facts), f);
      assert e in {e};
    }
  }

  lemma SameFactsHold(a: Facts, b: Facts, f: Fact)
    requires SameFacts(a, b)
    ensures Holds(a, f) <==> Holds(b, f)
  {
  }

  lemma NothingIsJoin(node: Node)
    ensures IsJoin(node, [], {}, node)
  {
    forall f: Fact
      ensures Holds(node.facts, f) <==> Gathered(node, [], {}, f)
    {
    }
  }

  lemma StepIsJoin(net: Network, step: Step, n: NodeId)
    requires Inv(net) && Enabled(net, step) && n in net.nodes
    ensures IsJoin(net.nodes[n], StepUpdates(step, n), StepAccepted(step, n), Apply(net, step).nodes[n])
  {
    if step.node != n || step.Send? || (step.Deliver? && !step.accepted) {
      NothingIsJoin(net.nodes[n]);
    } else {
      match step
      case Bump(_) => UpdateIsJoin(net.nodes[n], NO_FACTS);
      case Update(_, delta) => UpdateIsJoin(net.nodes[n], delta);
      case Deliver(_, e, _) => DeliveryIsJoin(net, n, e);
    }
  }

  /** Strong eventual consistency: whatever the interleaving and for every bound on the dedup deque,
      a node ends as the join of its start, its own updates and the set of accepted envelopes. */
  lemma {:induction false} RunIsJoin(net: Network, steps: seq<Step>, n: NodeId)
    requires Inv(net) && ValidRun(net, steps) && n in net.nodes
    ensures IsJoin(net.nodes[n], OwnUpdates(steps, n), Accepted(steps, n), Run(net, steps).nodes[n])
    decreases |steps|
  {
    if steps == [] {
      NothingIsJoin(net.nodes[n]);
    } else {
      var next := Apply(net, steps[0]);
      StepInv(net, steps[0]);
      StepIsJoin(net, steps[0], n);
      RunIsJoin(next, steps[1..], n);
      JoinCompose(net.nodes[n], StepUpdates(steps[0], n), StepAccepted(steps[0], n), next.nodes[n],
                  OwnUpdates(steps[1..], n), Accepted(steps[1..], n), Run(net, steps).nodes[n]);
    }
  }

  lemma JoinIsUnique(a: Node, own1: seq<Facts>, b: Node, own2: seq<Facts>, got: set<Envelope>,
                     end1: Node, end2: Node)
    requires IsJoin(a, own1, got, end1) && IsJoin(b, own2, got, end2)
    requires a.id == b.id && SameVector(a.versions, b.versions) && SameFacts(a.facts, b.facts)
    requires |own1| == |own2| && forall d :: d in own1 <==> d in own2
    ensures SameVector(end1.versions, end2.versions) && SameFacts(end1.facts, end2.facts)
  {
    forall i: NodeId
      ensures GetVersion(end1.versions, i) == GetVersion(end2.versions, i)
    {
      assert GetVersion(a.versions, i) == GetVersion(b.versions, i);
      if i != a.id {
        assert IsSupremum(a, got, end1, i) && IsSupremum(b, got, end2, i);
      }
    }
    forall f: Fact
      ensures Holds(end1.facts, f) <==> Holds(end2.facts, f)
    {
      SameFactsHold(a.facts, b.facts, f);
      assert Gathered(a, own1, got, f) <==> Gathered(b, own2, got, f);
    }
    HoldsDecides(end1.facts, end2.facts);
  }

  /** Two runs, possibly of two networks with different deque bounds, that give a node the same own
      updates in any order and the same set of accepted envelopes leave it in the same state. */
  lemma {:induction false} OrderDoesNotMatter(
      net1: Network, steps1: seq<Step>, net2: Network, steps2: seq<Step>, n: NodeId)
    requires Inv(net1) && ValidRun(net1, steps1) && n in net1.nodes
    requires Inv(net2) && ValidRun(net2, steps2) && n in net2.nodes
    requires SameVector(net1.nodes[n].versions, net2.nodes[n].versions)
    requires SameFacts(net1.nodes[n].facts, net2.nodes[n].facts)
    requires multiset(OwnUpdates(steps1, n)) == multiset(OwnUpdates(steps2, n))
    requires Accepted(steps1, n) == Accepted(steps2, n)
    ensures SameVector(Run(net1, steps1).nodes[n].versions, Run(net2, steps2).nodes[n].versions)
    ensures SameFacts(Run(net1, steps1).nodes[n].facts, Run(net2, steps2).nodes[n].facts)
  {
    RunIsJoin(net1, steps1, n);
    RunIsJoin(net2, steps2, n);
    var own1, own2 := OwnUpdates(steps1, n), OwnUpdates(steps2, n);
    SameElements(own1, own2);
    assert NodeOk(net1, n) && NodeOk(net2, n);
    JoinIsUnique(net1.nodes[n], own1, net2.nodes[n], own2, Accepted(steps1, n),
                 Run(net1, steps1).nodes[n], Run(net2, steps2).nodes[n]);
  }

  lemma SameElements(a: seq<Facts>, b: seq<Facts>)
    requires multiset(a) == multiset(b)
    ensures |a| == |b| && forall d :: d in a <==> d in b
  {
    assert |multiset(a)| == |multiset(b)|;
    assert forall d :: (d in a <==> d in multiset(a)) && (d in b <==> d in multiset(b));
  }

  // ---- Replay and fast-forward ----

  lemma {:induction false} RunGrows(net: Network, steps: seq<Step>)
    requires Inv(net) && ValidRun(net, steps)
    ensures Grows(net, Run(net, steps)) && net.sent <= Run(net, steps).sent
    decreases |steps|
  {
    if steps != [] {
      StepInv(net, steps[0]);
      StepGrows(net, steps[0]);
      RunGrows(Apply(net, steps[0]), steps[1..]);
      forall m | m in net.nodes
        ensures Le(net.nodes[m].versions, Run(net, steps).nodes[m].versions)
      {
        LeTransitive(net.nodes[m].versions, Apply(net, steps[0]).nodes[m].versions,
                     Run(net, steps).nodes[m].versions);
      }
    }
  }

  lemma StepGrows(net: Network, step: Step)
    requires Inv(net) && Enabled(net, step)
    ensures Grows(net, Apply(net, step)) && net.sent <= Apply(net, step).sent
  {
    match step
    case Bump(n) => RecordNodesInv(net, n, NO_FACTS);
    case Update(n, delta) => RecordNodesInv(net, n, delta);
    case Send(_, _, _, _, _) =>
    case Deliver(n, e, accepted) => ReceiveJoins(net, n, e); DeliverNodesInv(net, n, e);
  }

  /** An envelope that a node accepted once is harmless in every later state: a redelivery answers
      AlreadyCurrent and changes no fact and no version, even after its id left the deque. */
  lemma ReplayIsHarmless(net: Network, n: NodeId, e: Envelope, steps: seq<Step>)
    requires Inv(net) && n in net.nodes && e in net.sent
    requires ValidRun(Delivered(net, n, e), steps)
    ensures
      var later := Run(Delivered(net, n, e), steps).nodes[n];
      var (after, result) := Receive(later, e);
      && result.outcome == AlreadyCurrent
      && after.versions == later.versions
      && after.facts == later.facts
  {
    var delivered := Delivered(net, n, e);
    DeliverInv(net, n, e);
    RunInv(delivered, steps);
    RunGrows(delivered, steps);
    ReceiveJoins(net, n, e);
    var final := Run(delivered, steps);
    LeTransitive(e.versions, delivered.nodes[n].versions, final.nodes[n].versions);
    ReceiveCases(final.nodes[n], e);
  }

  /** A receiver that is behind ends with exactly the sender's vector and facts, values included. */
  lemma FastForward(net: Network, n: NodeId, e: Envelope)
    requires Inv(net) && n in net.nodes && e in net.sent
    requires Compared(net.nodes[n].versions, e.versions) == Behind
    ensures
      var (after, result) := Receive(net.nodes[n], e);
      && result.outcome == Applied
      && SameVector(after.versions, e.versions)
      && after.facts == e.payload.facts
  {
    var node := net.nodes[n];
    assert NodeOk(net, n) && EnvelopeOk(net, e);
    if e.sender == n || e.messageId in node.processed {
      ShortcutsAreDominated(net, n, e);
    }
    ReceiveCases(node, e);
    DominatedIsMerge(e.versions, node.versions);
    DominatedAddsNothing(net.log, e.versions, e.payload.facts, node.versions, node.facts);
    JoinOverCovered(node.facts, e.payload.facts);
    assert forall i: NodeId :: GetVersion(Merge(node.versions, e.versions), i)
                            == GetVersion(Merge(e.versions, node.versions), i);
  }

  lemma JoinOverCovered(local: Facts, remote: Facts)
    requires SameFacts(JoinFacts(remote, local), remote)
    ensures JoinFacts(local, remote) == remote
  {
    var lr, rl := MergeCapabilities(local.capabilities, remote.capabilities),
                  MergeCapabilities(remote.capabilities, local.capabilities);
    assert lr.Keys == rl.Keys;
    assert forall m :: m in lr ==> lr[m] == rl[m];
    assert lr == rl;
    assert local.availability.Keys <= remote.availability.Keys;
    assert local.availability + remote.availability == remote.availability;
  }

  /** The reported own version never moves when an envelope is processed. */
  lemma ReportedVersions(net: Network, n: NodeId, e: Envelope)
    requires Inv(net) && n in net.nodes && e in net.sent
    ensures
      var result := Receive(net.nodes[n], e).1;
      && result.versionBefore == result.versionAfter
      && (result.outcome != AlreadyCurrent ==> result.versionBefore == |net.log[n]|)
  {
    assert NodeOk(net, n) && EnvelopeOk(net, e);
    ReceiveJoins(net, n, e);
    OwnVersionKept(net, n, e);
  }

  // ---- Convergence ----

  ghost predicate Quiescent(steps: seq<Step>) {
    forall k :: 0 <= k < |steps| ==> !steps[k].Bump? && !steps[k].Update?
  }

  lemma {:induction false} QuiescentKeepsLog(net: Network, steps: seq<Step>)
    requires net.nodes.Keys == net.log.Keys && ValidRun(net, steps) && Quiescent(steps)
    ensures Run(net, steps).log == net.log
    decreases |steps|
  {
    if steps != [] {
      assert !steps[0].Bump? && !steps[0].Update?;
      QuiescentKeepsLog(Apply(net, steps[0]), steps[1..]);
    }
  }

  /** Node i's envelope that covers all of i's updates, accepted by node j. */
  ghost predicate Heard(net: Network, steps: seq<Step>, i: NodeId, j: NodeId) {
    && i in net.log
    && exists e :: e in Accepted(steps, j) && e.sender == i && GetVersion(e.versions, i) == |net.log[i]|
  }

  /** The vector that covers every update of every node. */
  ghost function Everything(log: Log): VersionMap {
    map i | i in log :: |log[i]|
  }

  lemma HeardIsCovered(net: Network, steps: seq<Step>, i: NodeId, j: NodeId)
    requires Inv(net) && ValidRun(net, steps) && Quiescent(steps)
    requires i in net.nodes && j in net.nodes && i != j && Heard(net, steps, i, j)
    ensures GetVersion(Run(net, steps).nodes[j].versions, i) == |net.log[i]|
  {
    var e :| e in Accepted(steps, j) && e.sender == i && GetVersion(e.versions, i) == |net.log[i]|;
    var final := Run(net, steps);
    RunInv(net, steps);
    QuiescentKeepsLog(net, steps);
    RunIsJoin(net, steps, j);
    assert NodeOk(net, j) && NodeOk(final, j);
    assert IsSupremum(net.nodes[j], Accepted(steps, j), final.nodes[j], i);
    assert GetVersion(final.nodes[j].versions, i) <= LogLength(final.log, i);
  }

  /** Once updates stop and every node has accepted, in any order, one envelope of each other node
      made after that node's last update, all nodes hold one vector and one set of facts: all of them. */
  lemma Convergence(net: Network, steps: seq<Step>)
    requires Inv(net) && ValidRun(net, steps) && Quiescent(steps)
    requires forall i, j :: i in net.nodes && j in net.nodes && i != j ==> Heard(net, steps, i, j)
    ensures
      var final := Run(net, steps);
      && (forall j :: j in net.nodes ==> SameVector(final.nodes[j].versions, Everything(net.log)))
      && (forall j, f: Fact :: j in net.nodes ==>
            (Holds(final.nodes[j].facts, f) <==> Known(net.log, Everything(net.log), f)))
      && (forall i, j :: i in net.nodes && j in net.nodes ==>
            SameFacts(final.nodes[i].facts, final.nodes[j].facts))
  {
    var final := Run(net, steps);
    RunInv(net, steps);
    QuiescentKeepsLog(net, steps);
    forall j | j in net.nodes
      ensures SameVector(final.nodes[j].versions, Everything(net.log))
      ensures forall f: Fact :: Holds(final.nodes[j].facts, f) <==> Known(net.log, Everything(net.log), f)
    {
      assert NodeOk(final, j);
      forall i: NodeId
        ensures GetVersion(final.nodes[j].versions, i) == GetVersion(Everything(net.log), i)
      {
        if i in net.nodes && i != j {
          assert Heard(net, steps, i, j);
          HeardIsCovered(net, steps, i, j);
        } else {
          assert LogLength(final.log, i) >= GetVersion(final.nodes[j].versions, i) >= 0;
        }
      }
      SameVectorSameKnown(net.log, final.nodes[j].versions, Everything(net.log));
    }
    forall i, j | i in net.nodes && j in net.nodes
      ensures SameFacts(final.nodes[i].facts, final.nodes[j].facts)
    {
      HoldsDecides(final.nodes[i].facts, final.nodes[j].facts);
    }
  }

  lemma SameVectorSameKnown(log: Log, v: VersionMap, w: VersionMap)
    requires SameVector(v, w)
    ensures forall f: Fact :: Known(log, v, f) <==> Known(log, w, f)
  {
    forall f: Fact
      ensures Known(log, v, f) <==> Known(log, w, f)
    {
      if Known(log, v, f) {
        var i: NodeId, k: nat :| Carries(log, i, k, f) && k < GetVersion(v, i);
        assert k < GetVersion(w, i);
      }
      if Known(log, w, f) {
        var i: NodeId, k: nat :| Carries(log, i, k, f) && k < GetVersion(w, i);
        assert k < GetVersion(v, i);
      }
    }
  }

  // ---- Gossip terminates ----

  /** How many updates of `ids` the vector does not cover. */
  ghost function Gap(log: Log, v: VersionMap, ids: seq<NodeId>): int {
    if ids == [] then 0 else LogLength(log, ids[0]) - GetVersion(v, ids[0]) + Gap(log, v, ids[1..])
  }

  /** The gaps of all `readers`, added up. */
  ghost function Lag(net: Network, readers: seq<NodeId>, ids: seq<NodeId>): int {
    if readers == [] then 0
    else (if readers[0] in net.nodes then Gap(net.log, net.nodes[readers[0]].versions, ids) else 0)
         + Lag(net, readers[1..], ids)
  }

  ghost predicate Changes(net: Network, step: Step) {
    && step.Deliver? && step.accepted && step.node in net.nodes
    && Receive(net.nodes[step.node], step.envelope).1.outcome != AlreadyCurrent
  }

  /** The number of deliveries in the run that answered Applied or Conflict. */
  ghost function ChangeCount(net: Network, steps: seq<Step>): nat
    requires net.nodes.Keys == net.log.Keys && ValidRun(net, steps)
    decreases |steps|
  {
    if steps == [] then 0
    else (if Changes(net, steps[0]) then 1 else 0) + ChangeCount(Apply(net, steps[0]), steps[1..])
  }

  lemma {:induction false} GapShrinks(log: Log, v: VersionMap, w: VersionMap, ids: seq<NodeId>)
    requires Le(v, w)
    ensures Gap(log, w, ids) <= Gap(log, v, ids)
    ensures (exists i :: i in ids && GetVersion(v, i) < GetVersion(w, i)) ==> Gap(log, w, ids) < Gap(log, v, ids)
  {
    if ids != [] {
      GapShrinks(log, v, w, ids[1..]);
      assert GetVersion(v, ids[0]) <= GetVersion(w, ids[0]);
    }
  }

  lemma {:induction false} GapNonNegative(log: Log, v: VersionMap, ids: seq<NodeId>)
    requires forall i: NodeId :: GetVersion(v, i) <= LogLength(log, i)
    ensures 0 <= Gap(log, v, ids)
  {
    if ids != [] {
      GapNonNegative(log, v, ids[1..]);
      assert GetVersion(v, ids[0]) <= LogLength(log, ids[0]);
    }
  }

  lemma {:induction false} LagNonNegative(net: Network, readers: seq<NodeId>, ids: seq<NodeId>)
    requires Inv(net)
    ensures 0 <= Lag(net, readers, ids)
  {
    if readers != [] {
      LagNonNegative(net, readers[1..], ids);
      if readers[0] in net.nodes {
        assert NodeOk(net, readers[0]);
        GapNonNegative(net.log, net.nodes[readers[0]].versions, ids);
      }
    }
  }

  lemma {:induction false} LagShrinks(net: Network, after: Network, readers: seq<NodeId>, ids: seq<NodeId>, n: NodeId)
    requires Grows(net, after) && after.log == net.log && n in net.nodes
    ensures Lag(after, readers, ids) <= Lag(net, readers, ids)
    ensures n in readers && Gap(net.log, after.nodes[n].versions, ids) < Gap(net.log, net.nodes[n].versions, ids)
            ==> Lag(after, readers, ids) < Lag(net, readers, ids)
  {
    if readers != [] {
      LagShrinks(net, after, readers[1..], ids, n);
      if readers[0] in net.nodes {
        GapShrinks(net.log, net.nodes[readers[0]].versions, after.nodes[readers[0]].versions, ids);
      }
    }
  }

  /** A delivery that changes state closes part of the receiver's gap. */
  lemma ChangeClosesGap(net: Network, n: NodeId, e: Envelope, ids: seq<NodeId>)
    requires Inv(net) && n in net.nodes && e in net.sent && Changes(net, Deliver(n, e, true))
    requires forall i :: i in net.nodes ==> i in ids
    ensures Gap(net.log, Receive(net.nodes[n], e).0.versions, ids) < Gap(net.log, net.nodes[n].versions, ids)
  {
    var before, after := net.nodes[n], Receive(net.nodes[n], e).0;
    ReceiveJoins(net, n, e);
    assert NodeOk(net, n) && EnvelopeOk(net, e);
    if e.sender == n || e.messageId in before.processed {
      ShortcutsAreDominated(net, n, e);
    }
    ReceiveCases(before, e);
    var i: NodeId :| GetVersion(before.versions, i) < GetVersion(e.versions, i);
    assert LogLength(net.log, i) > 0;
    assert GetVersion(e.versions, i) <= GetVersion(after.versions, i);
    GapShrinks(net.log, before.versions, after.versions, ids);
  }

  /** Each gossip step lowers the lag by at least one if it changes state, and never raises it. */
  lemma QuietStepLag(net: Network, step: Step, ids: seq<NodeId>)
    requires Inv(net) && Enabled(net, step) && !step.Bump? && !step.Update?
    requires forall i :: i in net.nodes ==> i in ids
    ensures Lag(Apply(net, step), ids, ids) + (if Changes(net, step) then 1 else 0) <= Lag(net, ids, ids)
  {
    var after := Apply(net, step);
    StepGrows(net, step);
    LagShrinks(net, after, ids, ids, step.node);
    if Changes(net, step) {
      ChangeClosesGap(net, step.node, step.envelope, ids);
    }
  }

  lemma {:induction false} GossipLag(net: Network, steps: seq<Step>, ids: seq<NodeId>)
    requires Inv(net) && ValidRun(net, steps) && Quiescent(steps)
    requires forall i :: i in net.nodes ==> i in ids
    ensures ChangeCount(net, steps) + Lag(Run(net, steps), ids, ids) <= Lag(net, ids, ids)
    decreases |steps|
  {
    if steps == [] {
      assert Run(net, steps) == net;
    } else {
      var next, rest := Apply(net, steps[0]), steps[1..];
      assert !steps[0].Bump? && !steps[0].Update?;
      StepInv(net, steps[0]);
      QuietStepLag(net, steps[0], ids);
      GossipLag(next, rest, ids);
      assert Run(net, steps) == Run(next, rest);
      assert ChangeCount(net, steps) == (if Changes(net, steps[0]) then 1 else 0) + ChangeCount(next, rest);
    }
  }

  /** Without local updates, however long the gossip goes on, the number of deliveries that change
      any state is at most the initial lag. */
  lemma GossipIsBounded(net: Network, steps: seq<Step>, ids: seq<NodeId>)
    requires Inv(net) && ValidRun(net, steps) && Quiescent(steps)
    requires forall i :: i in net.nodes ==> i in ids
    ensures ChangeCount(net, steps) <= Lag(net, ids, ids)
  {
    GossipLag(net, steps, ids);
    RunInv(net, steps);
    LagNonNegative(Run(net, steps), ids, ids);
  }
}
