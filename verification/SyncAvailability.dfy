/** Availability values. The vectors decide the capabilities and the availability keys of a node
    (SyncTheorems), but not the availability values: a merge overwrites them. */
module SyncAvailability {
  import opened Versions
  import opened SyncModel
  import opened SyncNetwork
  import opened SyncTheorems

  /** Exactly when an accepted delivery leaves the receiver with the sender's availability values, and
      exactly when it leaves the receiver's own values alone. */
  lemma AgreementAfterDelivery(net: Network, n: NodeId, e: Envelope)
    requires Inv(net) && n in net.nodes && e in net.sent
    ensures
      var local, remote := net.nodes[n].facts.availability, e.payload.facts.availability;
      var after := Receive(net.nodes[n], e).0.facts.availability;
      var dominated := Le(e.versions, net.nodes[n].versions);
      && (after == remote <==> if dominated then local == remote else local.Keys <= remote.Keys)
      && ((forall m :: m in local ==> m in after && after[m] == local[m]) <==>
            dominated || forall m :: m in local && m in remote ==> local[m] == remote[m])
  {
    var local, remote := net.nodes[n].facts.availability, e.payload.facts.availability;
    assert NodeOk(net, n) && EnvelopeOk(net, e);
    if e.sender == n || e.messageId in net.nodes[n].processed {
      ShortcutsAreDominated(net, n, e);
    }
    ReceiveCases(net.nodes[n], e);
    if !Le(e.versions, net.nodes[n].versions) {
      assert forall m :: m in local && m in remote ==> (local + remote)[m] == remote[m];
      if local + remote == remote {
        assert local.Keys <= (local + remote).Keys;
      }
    }
  }

  /** Nodes that no vector comparison tells apart hold the same availability. */
  ghost predicate Agreed(net: Network) {
    forall i, j | i in net.nodes && j in net.nodes && SameVector(net.nodes[i].versions, net.nodes[j].versions) ::
      net.nodes[i].facts.availability == net.nodes[j].facts.availability
  }

  /** Update k + 1 of node i writes value v under key m. */
  ghost predicate Writes(log: Log, i: NodeId, k: nat, m: NodeId, v: string) {
    i in log && k < |log[i]| && m in log[i][k].availability && log[i][k].availability[m] == v
  }

  /** No key is ever given two different values. */
  ghost predicate OneValueEach(log: Log) {
    forall i: NodeId, k: nat, j: NodeId, l: nat, m: NodeId, v: string, w: string
      {:trigger Writes(log, i, k, m, v), Writes(log, j, l, m, w)} ::
      Writes(log, i, k, m, v) && Writes(log, j, l, m, w) ==> v == w
  }

  /** At most one node makes any update; a bump is an update that adds nothing. */
  ghost predicate AtMostOneUpdater(log: Log) {
    forall i, j | i in log && j in log && log[i] != [] && log[j] != [] :: i == j
  }

  // ---- One value for each key ----

  ghost predicate Written(log: Log, m: NodeId, v: string) {
    exists i: NodeId, k: nat :: Writes(log, i, k, m, v)
  }

  /** Every value comes from some update. */
  ghost predicate Sourced(log: Log, a: Availability) {
    forall m {:trigger Written(log, m, a[m])} | m in a :: Written(log, m, a[m])
  }

  ghost predicate AllSourced(net: Network) {
    && (forall n | n in net.nodes :: Sourced(net.log, net.nodes[n].facts.availability))
    && (forall e | e in net.sent :: Sourced(net.log, e.payload.facts.availability))
  }

  lemma SourcedStays(log: Log, n: NodeId, delta: Facts, a: Availability)
    requires n in log && Sourced(log, a)
    ensures Sourced(log[n := log[n] + [delta]], a)
  {
    var after := log[n := log[n] + [delta]];
    forall m | m in a
      ensures Written(after, m, a[m])
    {
      assert Written(log, m, a[m]);
      var i: NodeId, k: nat :| Writes(log, i, k, m, a[m]);
      assert Writes(after, i, k, m, a[m]);
    }
  }

  lemma SourcedUpdate(log: Log, n: NodeId, delta: Facts, a: Availability)
    requires n in log && Sourced(log, a)
    ensures Sourced(log[n := log[n] + [delta]], a + delta.availability)
  {
    var after := log[n := log[n] + [delta]];
    SourcedStays(log, n, delta, a);
    forall m | m in a + delta.availability
      ensures Written(after, m, (a + delta.availability)[m])
    {
      if m in delta.availability {
        assert Writes(after, n, |log[n]|, m, delta.availability[m]);
      } else {
        assert Written(after, m, a[m]);
      }
    }
  }

  lemma SourcedJoin(log: Log, a: Availability, b: Availability)
    requires Sourced(log, a) && Sourced(log, b)
    ensures Sourced(log, a + b)
  {
    forall m | m in a + b
      ensures Written(log, m, (a + b)[m])
    {
      assert if m in b then Written(log, m, b[m]) else Written(log, m, a[m]);
    }
  }

  lemma RecordSourced(net: Network, n: NodeId, delta: Facts)
    requires n in net.nodes && n in net.log && AllSourced(net)
    ensures AllSourced(Record(net, n, delta))
  {
    forall m | m in net.nodes
      ensures Sourced(Record(net, n, delta).log, Record(net, n, delta).nodes[m].facts.availability)
    {
      if m == n {
        SourcedUpdate(net.log, n, delta, net.nodes[n].facts.availability);
      } else {
        SourcedStays(net.log, n, delta, net.nodes[m].facts.availability);
      }
    }
    forall e | e in net.sent
      ensures Sourced(Record(net, n, delta).log, e.payload.facts.availability)
    {
      SourcedStays(net.log, n, delta, e.payload.facts.availability);
    }
  }

  lemma StepSourced(net: Network, step: Step)
    requires net.nodes.Keys == net.log.Keys && Enabled(net, step) && AllSourced(net)
    ensures AllSourced(Apply(net, step))
  {
    match step
    case Bump(n) => RecordSourced(net, n, NO_FACTS);
    case Update(n, delta) => RecordSourced(net, n, delta);
    case Send(_, _, _, _, _) =>
    case Deliver(n, e, accepted) =>
      SourcedJoin(net.log, net.nodes[n].facts.availability, e.payload.facts.availability);
  }

  lemma {:induction false} RunSourced(net: Network, steps: seq<Step>)
    requires net.nodes.Keys == net.log.Keys && ValidRun(net, steps) && AllSourced(net)
    ensures AllSourced(Run(net, steps))
    decreases |steps|
  {
    if steps != [] {
      StepSourced(net, steps[0]);
      RunSourced(Apply(net, steps[0]), steps[1..]);
    }
  }

  lemma OneValueAgrees(net: Network)
    requires NodesInv(net) && AllSourced(net) && OneValueEach(net.log)
    ensures Agreed(net)
  {
    forall i, j | i in net.nodes && j in net.nodes && SameVector(net.nodes[i].versions, net.nodes[j].versions)
      ensures net.nodes[i].facts.availability == net.nodes[j].facts.availability
    {
      var a, b := net.nodes[i].facts.availability, net.nodes[j].facts.availability;
      SameKeys(net, i, j);
      forall m | m in a
        ensures a[m] == b[m]
      {
        assert Written(net.log, m, a[m]) && Written(net.log, m, b[m]);
      }
    }
  }

  lemma SameKeys(net: Network, i: NodeId, j: NodeId)
    requires NodesInv(net) && i in net.nodes && j in net.nodes
    requires SameVector(net.nodes[i].versions, net.nodes[j].versions)
    ensures net.nodes[i].facts.availability.Keys == net.nodes[j].facts.availability.Keys
  {
    assert NodeOk(net, i) && NodeOk(net, j);
    SameVectorSameKnown(net.log, net.nodes[i].versions, net.nodes[j].versions);
    forall f: Fact
      ensures Holds(net.nodes[i].facts, f) <==> Holds(net.nodes[j].facts, f)
    {
      assert Known(net.log, net.nodes[i].versions, f) <==> Known(net.log, net.nodes[j].versions, f);
    }
    HoldsDecides(net.nodes[i].facts, net.nodes[j].facts);
  }

  // ---- One updater ----

  /** What a list of updates leaves under each key. */
  function Latest(updates: seq<Facts>): Availability {
    if updates == [] then map[] else Latest(updates[..|updates| - 1]) + updates[|updates| - 1].availability
  }

  ghost predicate OnlyUpdater(log: Log, p: NodeId) {
    p in log && forall i | i in log && i != p :: log[i] == []
  }

  /** The availability is what the covered updates of p leave. */
  ghost predicate Follows(log: Log, p: NodeId, v: VersionMap, a: Availability) {
    p in log && 0 <= GetVersion(v, p) <= |log[p]| && a == Latest(log[p][..GetVersion(v, p)])
  }

  ghost predicate AllFollow(net: Network, p: NodeId) {
    && (forall n | n in net.nodes :: Follows(net.log, p, net.nodes[n].versions, net.nodes[n].facts.availability))
    && (forall e | e in net.sent :: Follows(net.log, p, e.versions, e.payload.facts.availability))
  }

  lemma FollowsStays(log: Log, p: NodeId, delta: Facts, v: VersionMap, a: Availability)
    requires p in log && Follows(log, p, v, a)
    ensures Follows(log[p := log[p] + [delta]], p, v, a)
  {
    var k := GetVersion(v, p);
    assert (log[p] + [delta])[..k] == log[p][..k];
  }

  lemma RecordFollows(net: Network, p: NodeId, delta: Facts)
    requires NodesInv(net) && p in net.nodes && AllFollow(net, p)
    ensures AllFollow(Record(net, p, delta), p)
  {
    var after := Record(net, p, delta);
    assert NodeOk(net, p);
    forall n | n in net.nodes
      ensures Follows(after.log, p, after.nodes[n].versions, after.nodes[n].facts.availability)
    {
      if n == p {
        var all := net.log[p] + [delta];
        assert all[..|all|] == all && all[..|all| - 1] == net.log[p] == net.log[p][..|net.log[p]|];
      } else {
        FollowsStays(net.log, p, delta, net.nodes[n].versions, net.nodes[n].facts.availability);
      }
    }
    forall e | e in net.sent
      ensures Follows(after.log, p, e.versions, e.payload.facts.availability)
    {
      FollowsStays(net.log, p, delta, e.versions, e.payload.facts.availability);
    }
  }

  /** Only p's counter tells vectors apart, so a delivery that is not skipped is a fast-forward. */
  lemma DeliverFollows(net: Network, p: NodeId, n: NodeId, e: Envelope)
    requires Inv(net) && OnlyUpdater(net.log, p) && AllFollow(net, p) && n in net.nodes && e in net.sent
    ensures
      var after := Receive(net.nodes[n], e).0;
      Follows(net.log, p, after.versions, after.facts.availability)
  {
    var node := net.nodes[n];
    assert NodeOk(net, n) && EnvelopeOk(net, e);
    if Le(e.versions, node.versions) {
      if e.sender == n || e.messageId in node.processed {
        ShortcutsAreDominated(net, n, e);
      }
      ReceiveCases(node, e);
    } else {
      OnlyCounter(net.log, p, node.versions, node.facts, e.versions, e.payload.facts);
      FastForward(net, n, e);
      var after := Receive(node, e).0;
      assert GetVersion(after.versions, p) == GetVersion(e.versions, p);
    }
  }

  lemma OnlyCounter(log: Log, p: NodeId, v: VersionMap, a: Facts, w: VersionMap, b: Facts)
    requires OnlyUpdater(log, p) && Complete(log, v, a) && Complete(log, w, b) && !Le(w, v)
    ensures Le(v, w)
  {
    forall i: NodeId | i != p
      ensures GetVersion(v, i) == GetVersion(w, i)
    {
      assert LogLength(log, i) >= GetVersion(v, i) >= 0 && LogLength(log, i) >= GetVersion(w, i) >= 0;
    }
  }

  lemma DeliveredFollow(net: Network, p: NodeId, n: NodeId, e: Envelope)
    requires Inv(net) && OnlyUpdater(net.log, p) && AllFollow(net, p) && n in net.nodes && e in net.sent
    ensures AllFollow(Delivered(net, n, e), p)
  {
    DeliverFollows(net, p, n, e);
  }

  lemma RecorderIsOnly(net: Network, n: NodeId, delta: Facts, p: NodeId)
    requires n in net.nodes && net.nodes.Keys == net.log.Keys && OnlyUpdater(Record(net, n, delta).log, p)
    ensures n == p && OnlyUpdater(net.log, p)
  {
    var after := Record(net, n, delta).log;
    assert after[n] != [];
    forall i | i in net.log && i != p
      ensures net.log[i] == []
    {
      assert after[i] == [];
    }
  }

  lemma StepFollows(net: Network, step: Step, p: NodeId)
    requires Inv(net) && Enabled(net, step) && AllFollow(net, p) && OnlyUpdater(Apply(net, step).log, p)
    ensures AllFollow(Apply(net, step), p)
  {
    match step
    case Bump(n) =>
      RecorderIsOnly(net, n, NO_FACTS, p);
      RecordFollows(net, p, NO_FACTS);
    case Update(n, delta) =>
      RecorderIsOnly(net, n, delta, p);
      RecordFollows(net, p, delta);
    case Send(_, _, _, _, _) =>
    case Deliver(n, e, accepted) =>
      if accepted {
        DeliveredFollow(net, p, n, e);
      }
  }

  /** A log only gains entries, so who is the only updater at the end was it all along. */
  lemma {:induction false} OnlyUpdaterBefore(net: Network, steps: seq<Step>, p: NodeId)
    requires net.nodes.Keys == net.log.Keys && ValidRun(net, steps) && OnlyUpdater(Run(net, steps).log, p)
    ensures OnlyUpdater(net.log, p)
    decreases |steps|
  {
    if steps != [] {
      OnlyUpdaterBefore(Apply(net, steps[0]), steps[1..], p);
      match steps[0]
      case Bump(n) => RecorderIsOnly(net, n, NO_FACTS, p);
      case Update(n, delta) => RecorderIsOnly(net, n, delta, p);
      case _ =>
    }
  }

  lemma {:induction false} RunFollows(net: Network, steps: seq<Step>, p: NodeId)
    requires Inv(net) && ValidRun(net, steps) && AllFollow(net, p) && OnlyUpdater(Run(net, steps).log, p)
    ensures AllFollow(Run(net, steps), p)
    decreases |steps|
  {
    if steps != [] {
      var next := Apply(net, steps[0]);
      StepInv(net, steps[0]);
      OnlyUpdaterBefore(next, steps[1..], p);
      StepFollows(net, steps[0], p);
      RunFollows(next, steps[1..], p);
    }
  }

  lemma OneUpdaterAgrees(net: Network, p: NodeId)
    requires AllFollow(net, p)
    ensures Agreed(net)
  {
    forall i, j | i in net.nodes && j in net.nodes && SameVector(net.nodes[i].versions, net.nodes[j].versions)
      ensures net.nodes[i].facts.availability == net.nodes[j].facts.availability
    {
      assert GetVersion(net.nodes[i].versions, p) == GetVersion(net.nodes[j].versions, p);
    }
  }

  lemma FindUpdater(log: Log) returns (p: NodeId)
    requires AtMostOneUpdater(log) && log != map[]
    ensures OnlyUpdater(log, p)
  {
    if i :| i in log && log[i] != [] {
      p := i;
    } else {
      p :| p in log;
    }
  }

  lemma InitialFollows(windows: map<NodeId, nat>, p: NodeId)
    requires p in windows
    ensures AllFollow(Initial(windows), p)
  {
  }

  /** Values agree under equal vectors when no key is ever given two values, or one node makes all updates. */
  lemma {:induction false} ValuesAgree(windows: map<NodeId, nat>, steps: seq<Step>)
    requires ValidRun(Initial(windows), steps)
    requires
      var log := Run(Initial(windows), steps).log;
      AtMostOneUpdater(log) || OneValueEach(log)
    ensures Agreed(Run(Initial(windows), steps))
  {
    var start, final := Initial(windows), Run(Initial(windows), steps);
    if OneValueEach(final.log) {
      InitialInv(windows);
      RunInv(start, steps);
      RunSourced(start, steps);
      OneValueAgrees(final);
    } else if windows != map[] {
      var p := FindUpdater(final.log);
      InitialInv(windows);
      InitialFollows(windows, p);
      RunFollows(start, steps, p);
      OneUpdaterAgrees(final, p);
    }
  }
}
