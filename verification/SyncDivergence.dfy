/** Runs that leave two nodes with equal vectors and different availability values; together with SyncAvailability,
    exactly which update histories admit such a run. */
module SyncDivergence {
  import opened Versions
  import opened SyncModel
  import opened SyncNetwork
  import opened SyncAvailability

  // ---- What networks a run can reach ----

  ghost predicate Reaches(net: Network, after: Network) {
    net.nodes.Keys == net.log.Keys && exists steps :: ValidRun(net, steps) && Run(net, steps) == after
  }

  lemma {:induction false} RunThen(net: Network, steps: seq<Step>, step: Step)
    requires net.nodes.Keys == net.log.Keys && ValidRun(net, steps) && Enabled(Run(net, steps), step)
    ensures ValidRun(net, steps + [step]) && Run(net, steps + [step]) == Apply(Run(net, steps), step)
    decreases |steps|
  {
    if steps == [] {
      assert [step][1..] == [];
      assert Run(Apply(net, step), []) == Apply(net, step);
    } else {
      RunThen(Apply(net, steps[0]), steps[1..], step);
      assert (steps + [step])[1..] == steps[1..] + [step];
    }
  }

  lemma ReachStep(start: Network, net: Network, step: Step)
    requires Reaches(start, net) && Enabled(net, step)
    ensures net.nodes.Keys == net.log.Keys && Reaches(start, Apply(net, step))
  {
    var steps :| ValidRun(start, steps) && Run(start, steps) == net;
    RunThen(start, steps, step);
  }

  /** A node after these updates of its own. */
  function Wrote(node: Node, updates: seq<Facts>): Node {
    if updates == [] then node else Updated(Wrote(node, updates[..|updates| - 1]), updates[|updates| - 1])
  }

  ghost function Write(net: Network, n: NodeId, updates: seq<Facts>): Network
    requires n in net.nodes && n in net.log
  {
    net.(nodes := net.nodes[n := Wrote(net.nodes[n], updates)], log := net.log[n := net.log[n] + updates])
  }

  lemma WriteThen(net: Network, n: NodeId, before: seq<Facts>, last: Facts)
    requires n in net.nodes && n in net.log
    ensures Write(net, n, before + [last]) == Record(Write(net, n, before), n, last)
  {
    var all := before + [last];
    assert all[..|all| - 1] == before;
    assert net.log[n] + all == (net.log[n] + before) + [last];
  }

  lemma ReachUpdate(start: Network, net: Network, n: NodeId, delta: Facts)
    requires Reaches(start, net) && n in net.nodes && n in net.log
    ensures Reaches(start, Record(net, n, delta))
  {
    ReachStep(start, net, Update(n, delta));
  }

  lemma {:induction false} ReachWrite(start: Network, net: Network, n: NodeId, updates: seq<Facts>)
    requires Reaches(start, net) && n in net.nodes && n in net.log
    ensures Reaches(start, Write(net, n, updates))
    decreases |updates|
  {
    if updates == [] {
      assert net.log[n] + [] == net.log[n];
      assert Write(net, n, []) == net;
    } else {
      var before, last := updates[..|updates| - 1], updates[|updates| - 1];
      ReachWrite(start, net, n, before);
      WriteThen(net, n, before, last);
      assert updates == before + [last];
      ReachUpdate(start, Write(net, n, before), n, last);
    }
  }

  function Mail(node: Node, id: MessageId): Envelope {
    Snapshot(node, "", "", id)
  }

  ghost function Mailed(net: Network, n: NodeId, id: MessageId): Network
    requires n in net.nodes
  {
    net.(sent := net.sent + {Mail(net.nodes[n], id)})
  }

  lemma ReachMail(start: Network, net: Network, n: NodeId, id: MessageId)
    requires Reaches(start, net) && n in net.nodes && forall e :: e in net.sent ==> e.messageId != id
    ensures Reaches(start, Mailed(net, n, id))
  {
    var step := Send(n, "", "", id, "");
    ReachStep(start, net, step);
    assert Sealed(net.nodes[n], step) == Mail(net.nodes[n], id);
  }

  lemma ReachDelivery(start: Network, net: Network, n: NodeId, e: Envelope)
    requires Reaches(start, net) && n in net.nodes && e in net.sent
    ensures Reaches(start, Delivered(net, n, e))
  {
    ReachStep(start, net, Deliver(n, e, true));
  }

  /** All nodes of `others` make their updates. */
  lemma {:induction false} OthersWrite(start: Network, net: Network, others: set<NodeId>, logs: Log)
    returns (after: Network)
    requires Reaches(start, net) && others <= net.nodes.Keys == net.log.Keys == logs.Keys
    requires forall n | n in others :: net.log[n] == []
    ensures Reaches(start, after) && after.sent == net.sent && after.nodes.Keys == after.log.Keys == logs.Keys
    ensures forall n | n in logs && n !in others :: after.nodes[n] == net.nodes[n] && after.log[n] == net.log[n]
    ensures forall n | n in others :: after.log[n] == logs[n]
    decreases others
  {
    if others == {} {
      after := net;
    } else {
      var n :| n in others;
      ReachWrite(start, net, n, logs[n]);
      after := OthersWrite(start, Write(net, n, logs[n]), others - {n}, logs);
    }
  }

  // ---- Two nodes exchange envelopes ----

  function Fresh(id: NodeId, window: nat): Node {
    Node(id, map[id := 0], NO_FACTS, [], window)
  }

  /** p mails, q writes and takes that mail, q mails, p writes on and mails; then each takes the other's last mail. */
  datatype Duel = Duel(p0: Node, q0: Node, first: seq<Facts>, second: seq<Facts>, own: seq<Facts>) {
    function P1(): Node {
      Wrote(p0, first)
    }

    ghost function Q2(): Node {
      Receive(Wrote(q0, own), Mail(P1(), "0")).0
    }

    function P2(): Node {
      Wrote(P1(), second)
    }

    ghost function P3(): Node {
      Receive(P2(), Mail(Q2(), "1")).0
    }

    ghost function Q3(): Node {
      Receive(Q2(), Mail(P2(), "2")).0
    }
  }

  /** A reachable network, as far as two of its nodes, the mail and the log go. */
  ghost predicate Stands(start: Network, net: Network, n: NodeId, here: Node, o: NodeId, there: Node,
                         sent: set<Envelope>, log: Log) {
    && Reaches(start, net) && n in net.nodes && o in net.nodes && n != o
    && net.nodes[n] == here && net.nodes[o] == there && net.sent == sent
    && net.nodes.Keys == net.log.Keys && net.log == log
  }

  lemma StandWrite(start: Network, net: Network, n: NodeId, here: Node, o: NodeId, there: Node,
                   sent: set<Envelope>, log: Log, updates: seq<Facts>) returns (after: Network)
    requires Stands(start, net, n, here, o, there, sent, log)
    ensures Stands(start, after, n, Wrote(here, updates), o, there, sent, log[n := log[n] + updates])
    ensures Stands(start, after, o, there, n, Wrote(here, updates), sent, log[n := log[n] + updates])
  {
    ReachWrite(start, net, n, updates);
    after := Write(net, n, updates);
  }

  lemma StandMail(start: Network, net: Network, n: NodeId, here: Node, o: NodeId, there: Node,
                  sent: set<Envelope>, log: Log, id: MessageId) returns (after: Network)
    requires Stands(start, net, n, here, o, there, sent, log) && forall e :: e in sent ==> e.messageId != id
    ensures Stands(start, after, n, here, o, there, sent + {Mail(here, id)}, log)
    ensures Stands(start, after, o, there, n, here, sent + {Mail(here, id)}, log)
  {
    ReachMail(start, net, n, id);
    after := Mailed(net, n, id);
  }

  lemma StandDelivery(start: Network, net: Network, n: NodeId, here: Node, o: NodeId, there: Node,
                      sent: set<Envelope>, log: Log, e: Envelope) returns (after: Network)
    requires Stands(start, net, n, here, o, there, sent, log) && e in sent
    ensures Stands(start, after, n, Receive(here, e).0, o, there, sent, log)
    ensures Stands(start, after, o, there, n, Receive(here, e).0, sent, log)
  {
    ReachDelivery(start, net, n, e);
    after := Delivered(net, n, e);
  }

  /** Both have written, and q's mail is on its way. */
  lemma ReachHalf(start: Network, net: Network, p: NodeId, q: NodeId, log: Log, d: Duel) returns (after: Network)
    requires Stands(start, net, p, d.p0, q, d.q0, {}, log)
    ensures
      Stands(start, after, p, d.P1(), q, d.Q2(), {Mail(d.P1(), "0")} + {Mail(d.Q2(), "1")},
             log[p := log[p] + d.first][q := log[q] + d.own])
  {
    var e := Mail(d.P1(), "0");
    var n1 := StandWrite(start, net, p, d.p0, q, d.q0, {}, log, d.first);
    var log1 := log[p := log[p] + d.first];
    var n2 := StandMail(start, n1, p, d.P1(), q, d.q0, {}, log1, "0");
    assert {} + {e} == {e};
    var n3 := StandWrite(start, n2, q, d.q0, p, d.P1(), {e}, log1, d.own);
    var log3 := log1[q := log1[q] + d.own];
    var n4 := StandDelivery(start, n3, q, Wrote(d.q0, d.own), p, d.P1(), {e}, log3, e);
    after := StandMail(start, n4, q, d.Q2(), p, d.P1(), {e}, log3, "1");
  }

  lemma ReachEnd(start: Network, net: Network, p: NodeId, q: NodeId, log: Log, d: Duel) returns (after: Network)
    requires Stands(start, net, p, d.P1(), q, d.Q2(), {Mail(d.P1(), "0")} + {Mail(d.Q2(), "1")}, log)
    ensures Reaches(start, after) && p in after.nodes && q in after.nodes
    ensures after.nodes[p] == d.P3() && after.nodes[q] == d.Q3() && after.log == log[p := log[p] + d.second]
  {
    var sent := {Mail(d.P1(), "0")} + {Mail(d.Q2(), "1")};
    var n1 := StandWrite(start, net, p, d.P1(), q, d.Q2(), sent, log, d.second);
    var end := log[p := log[p] + d.second];
    var n2 := StandMail(start, n1, p, d.P2(), q, d.Q2(), sent, end, "2");
    var all := sent + {Mail(d.P2(), "2")};
    var n3 := StandDelivery(start, n2, p, d.P2(), q, d.Q2(), all, end, Mail(d.Q2(), "1"));
    after := StandDelivery(start, n3, q, d.Q2(), p, d.P3(), all, end, Mail(d.P2(), "2"));
  }

  // ---- What the exchange leaves ----

  /** The vector counts `a` updates of p, `b` of q and none of anyone else. */
  ghost predicate Counts(v: VersionMap, p: NodeId, a: int, q: NodeId, b: int) {
    GetVersion(v, p) == a && GetVersion(v, q) == b && forall i | i != p && i != q :: GetVersion(v, i) == 0
  }

  lemma CountsLe(v: VersionMap, a: int, b: int, w: VersionMap, c: int, d: int, p: NodeId, q: NodeId)
    requires Counts(v, p, a, q, b) && Counts(w, p, c, q, d)
    ensures Le(v, w) <==> a <= c && b <= d
  {
    if a <= c && b <= d {
      forall i: NodeId
        ensures GetVersion(v, i) <= GetVersion(w, i)
      {
      }
    } else {
      assert GetVersion(v, p) > GetVersion(w, p) || GetVersion(v, q) > GetVersion(w, q);
    }
  }

  lemma CountsMerge(v: VersionMap, a: int, b: int, w: VersionMap, c: int, d: int, p: NodeId, q: NodeId)
    requires Counts(v, p, a, q, b) && Counts(w, p, c, q, d) && 0 <= a && 0 <= b && 0 <= c && 0 <= d
    ensures Counts(Merge(v, w), p, Max(a, c), q, Max(b, d))
  {
  }

  lemma Overwrite(a: Availability, b: Availability, c: Availability)
    ensures (a + b) + c == a + (b + c)
  {
  }

  lemma {:induction false} WroteIs(node: Node, updates: seq<Facts>)
    ensures
      var after := Wrote(node, updates);
      && after.id == node.id && after.processed == node.processed && after.window == node.window
      && OwnVersion(after) == OwnVersion(node) + |updates|
      && (forall i | i != node.id :: GetVersion(after.versions, i) == GetVersion(node.versions, i))
      && after.facts.availability == node.facts.availability + Latest(updates)
    decreases |updates|
  {
    if updates != [] {
      var before, last := updates[..|updates| - 1], updates[|updates| - 1];
      WroteIs(node, before);
      Overwrite(node.facts.availability, Latest(before), last.availability);
    } else {
      assert node.facts.availability + map[] == node.facts.availability;
    }
  }

  lemma {:induction false} LatestThen(a: seq<Facts>, b: seq<Facts>)
    ensures Latest(a + b) == Latest(a) + Latest(b)
    decreases |b|
  {
    if b == [] {
      assert a + b == a;
    } else {
      var before, last := b[..|b| - 1], b[|b| - 1];
      LatestThen(a, before);
      assert (a + b)[..|a + b| - 1] == a + before;
      Overwrite(Latest(a), Latest(before), last.availability);
    }
  }

  /** A node that counts (a, b) takes unread mail of the other that counts (c, e). */
  lemma TakeMail(node: Node, mail: Envelope, p: NodeId, a: nat, c: nat, q: NodeId, b: nat, e: nat)
    requires mail.sender != node.id && mail.messageId !in node.processed
    requires Counts(node.versions, p, a, q, b) && Counts(mail.versions, p, c, q, e)
    ensures
      var after := Receive(node, mail).0;
      && after.id == node.id
      && (forall id :: id in after.processed ==> id in node.processed || id == mail.messageId)
      && Counts(after.versions, p, Max(a, c), q, Max(b, e))
      && after.facts.availability ==
         if c <= a && e <= b then node.facts.availability else node.facts.availability + mail.payload.facts.availability
  {
    CountsLe(mail.versions, c, e, node.versions, a, b, p, q);
    CountsMerge(node.versions, a, b, mail.versions, c, e, p, q);
    ReceiveCases(node, mail);
  }

  ghost predicate Opens(d: Duel, p: NodeId, q: NodeId) {
    p != q && d.p0 == Fresh(p, d.p0.window) && d.q0 == Fresh(q, d.q0.window) && d.second != [] && d.own != []
  }

  /** What q's mail says: its own values, overwritten by p's first ones. */
  function Returned(d: Duel): Availability {
    Latest(d.own) + Latest(d.first)
  }

  /** What a node that wrote or took mail looks like to the rest of the exchange. */
  ghost predicate Looks(node: Node, id: NodeId, p: NodeId, a: int, q: NodeId, b: int, values: Availability) {
    node.id == id && Counts(node.versions, p, a, q, b) && node.facts.availability == values
  }

  lemma FreshWrote(id: NodeId, window: nat, updates: seq<Facts>)
    ensures
      var after := Wrote(Fresh(id, window), updates);
      && after.id == id && after.processed == []
      && GetVersion(after.versions, id) == |updates|
      && (forall i | i != id :: GetVersion(after.versions, i) == 0)
      && after.facts.availability == Latest(updates)
  {
    WroteIs(Fresh(id, window), updates);
    assert map[] + Latest(updates) == Latest(updates);
  }

  lemma DuelP2(d: Duel, p: NodeId, q: NodeId)
    requires Opens(d, p, q)
    ensures Looks(d.P1(), p, p, |d.first|, q, 0, Latest(d.first))
    ensures Looks(d.P2(), p, p, |d.first| + |d.second|, q, 0, Latest(d.first + d.second)) && d.P2().processed == []
  {
    FreshWrote(p, d.p0.window, d.first);
    WroteIs(d.P1(), d.second);
    LatestThen(d.first, d.second);
  }

  lemma DuelQ2(d: Duel, p: NodeId, q: NodeId)
    requires Opens(d, p, q) && Looks(d.P1(), p, p, |d.first|, q, 0, Latest(d.first))
    ensures Looks(d.Q2(), q, p, |d.first|, q, |d.own|, Returned(d))
    ensures forall id :: id in d.Q2().processed ==> id == "0"
  {
    FreshWrote(q, d.q0.window, d.own);
    TakeMail(Wrote(d.q0, d.own), Mail(d.P1(), "0"), p, 0, |d.first|, q, |d.own|, 0);
    if d.first == [] {
      assert Latest(d.own) + map[] == Latest(d.own);
    }
  }

  /** Both end with the same counts, and each with the other's last mail on top of its own values. */
  lemma DuelEnds(d: Duel, p: NodeId, q: NodeId)
    requires Opens(d, p, q)
    ensures
      var a, b := |d.first| + |d.second|, |d.own|;
      && Looks(d.P3(), p, p, a, q, b, Latest(d.first + d.second) + Returned(d))
      && Looks(d.Q3(), q, p, a, q, b, Returned(d) + Latest(d.first + d.second))
  {
    DuelP2(d, p, q);
    DuelQ2(d, p, q);
    var a, b := |d.first| + |d.second|, |d.own|;
    TakeMail(d.P2(), Mail(d.Q2(), "1"), p, a, |d.first|, q, 0, b);
    TakeMail(d.Q2(), Mail(d.P2(), "2"), p, |d.first|, a, q, b, 0);
  }

  // ---- Every other history admits a run that diverges ----

  lemma LogEnds(before: Log, logs: Log, p: NodeId, first: seq<Facts>, second: seq<Facts>, q: NodeId)
    requires before.Keys == logs.Keys && p in logs && q in logs && p != q
    requires before[p] == [] && before[q] == [] && logs[p] == first + second
    requires forall n | n in logs && n != p && n != q :: before[n] == logs[n]
    ensures
      var half := before[p := before[p] + first][q := before[q] + logs[q]];
      half[p := half[p] + second] == logs
  {
    assert [] + first == first && [] + logs[q] == logs[q];
    var half := before[p := first][q := logs[q]];
    forall n | n in logs
      ensures half[p := first + second][n] == logs[n]
    {
    }
  }

  lemma ReachStart(windows: map<NodeId, nat>, logs: Log, p: NodeId, q: NodeId) returns (net: Network)
    requires windows.Keys == logs.Keys && p in logs && q in logs && p != q
    ensures Stands(Initial(windows), net, p, Fresh(p, windows[p]), q, Fresh(q, windows[q]), {}, net.log)
    ensures net.log.Keys == logs.Keys && net.log[p] == [] && net.log[q] == []
    ensures forall n | n in logs && n != p && n != q :: net.log[n] == logs[n]
  {
    var start := Initial(windows);
    assert Run(start, []) == start;
    net := OthersWrite(start, start, logs.Keys - {p, q}, logs);
  }

  lemma ReachExchange(windows: map<NodeId, nat>, logs: Log, p: NodeId, first: seq<Facts>, second: seq<Facts>, q: NodeId)
    returns (end: Network)
    requires windows.Keys == logs.Keys && p in logs && q in logs && p != q && logs[p] == first + second
    ensures Reaches(Initial(windows), end) && end.log == logs && p in end.nodes && q in end.nodes
    ensures
      var d := Duel(Fresh(p, windows[p]), Fresh(q, windows[q]), first, second, logs[q]);
      end.nodes[p] == d.P3() && end.nodes[q] == d.Q3()
  {
    var start, d := Initial(windows), Duel(Fresh(p, windows[p]), Fresh(q, windows[q]), first, second, logs[q]);
    var n1 := ReachStart(windows, logs, p, q);
    var n2 := ReachHalf(start, n1, p, q, n1.log, d);
    LogEnds(n1.log, logs, p, first, second, q);
    end := ReachEnd(start, n2, p, q, n1.log[p := n1.log[p] + first][q := n1.log[q] + logs[q]], d);
  }

  /** p's vector equals q's, p holds `a` and q holds `b`. */
  ghost predicate Holding(net: Network, p: NodeId, a: Availability, q: NodeId, b: Availability) {
    && p in net.nodes && q in net.nodes && SameVector(net.nodes[p].versions, net.nodes[q].versions)
    && net.nodes[p].facts.availability == a && net.nodes[q].facts.availability == b
  }

  /** The updates `second` of p come after q has taken p's mail and mailed. */
  lemma Exchange(windows: map<NodeId, nat>, logs: Log, p: NodeId, q: NodeId, first: seq<Facts>, second: seq<Facts>)
    returns (steps: seq<Step>)
    requires windows.Keys == logs.Keys && p in logs && q in logs && p != q
    requires logs[p] == first + second && second != [] && logs[q] != []
    ensures ValidRun(Initial(windows), steps) && Run(Initial(windows), steps).log == logs
    ensures
      var returned := Latest(logs[q]) + Latest(first);
      Holding(Run(Initial(windows), steps), p, Latest(logs[p]) + returned, q, returned + Latest(logs[p]))
  {
    var end := ReachExchange(windows, logs, p, first, second, q);
    var d := Duel(Fresh(p, windows[p]), Fresh(q, windows[q]), first, second, logs[q]);
    DuelEnds(d, p, q);
    SameCounts(d.P3().versions, d.Q3().versions, p, |first| + |second|, q, |logs[q]|);
    steps :| ValidRun(Initial(windows), steps) && Run(Initial(windows), steps) == end;
  }

  lemma SameCounts(v: VersionMap, w: VersionMap, p: NodeId, a: int, q: NodeId, b: int)
    requires Counts(v, p, a, q, b) && Counts(w, p, a, q, b)
    ensures SameVector(v, w)
  {
    forall i: NodeId
      ensures GetVersion(v, i) == GetVersion(w, i)
    {
    }
  }

  lemma {:induction false} LatestWrite(updates: seq<Facts>, k: nat, m: NodeId)
    requires k < |updates| && m in updates[k].availability
    ensures m in Latest(updates)
    ensures m in Latest(updates[..k + 1]) && Latest(updates[..k + 1])[m] == updates[k].availability[m]
  {
    assert updates[..k + 1][..k] == updates[..k];
    LatestThen(updates[..k + 1], updates[k + 1..]);
    assert updates == updates[..k + 1] + updates[k + 1..];
  }

  lemma WrittenLater(updates: seq<Facts>, k: nat, m: NodeId)
    requires k < |updates| && m in updates[k].availability
    requires m in Latest(updates) && Latest(updates)[m] != updates[k].availability[m]
    ensures k + 1 < |updates|
  {
    LatestWrite(updates, k, m);
    assert updates[..|updates|] == updates;
  }

  ghost predicate Diverges(net: Network, p: NodeId, q: NodeId, m: NodeId) {
    && p in net.nodes && q in net.nodes && SameVector(net.nodes[p].versions, net.nodes[q].versions)
    && var a, b := net.nodes[p].facts.availability, net.nodes[q].facts.availability;
       m in a && m in b && a[m] != b[m]
  }

  /** A node that overwrote its own value of m can get the old one back. */
  lemma OverwrittenDiverges(windows: map<NodeId, nat>, logs: Log, p: NodeId, q: NodeId, k: nat, m: NodeId)
    returns (steps: seq<Step>)
    requires windows.Keys == logs.Keys && p in logs && q in logs && p != q && logs[q] != []
    requires k < |logs[p]| && m in logs[p][k].availability
    requires m in Latest(logs[p]) && Latest(logs[p])[m] != logs[p][k].availability[m]
    ensures ValidRun(Initial(windows), steps)
    ensures Run(Initial(windows), steps).log == logs && Diverges(Run(Initial(windows), steps), p, q, m)
  {
    LatestWrite(logs[p], k, m);
    WrittenLater(logs[p], k, m);
    var first, second := logs[p][..k + 1], logs[p][k + 1..];
    assert logs[p] == first + second;
    steps := Exchange(windows, logs, p, q, first, second);
  }

  /** Two nodes whose last values of m differ can swap them. */
  lemma DifferentDiverge(windows: map<NodeId, nat>, logs: Log, p: NodeId, q: NodeId, m: NodeId)
    returns (steps: seq<Step>)
    requires windows.Keys == logs.Keys && p in logs && q in logs && p != q
    requires m in Latest(logs[p]) && m in Latest(logs[q]) && Latest(logs[p])[m] != Latest(logs[q])[m]
    ensures ValidRun(Initial(windows), steps)
    ensures Run(Initial(windows), steps).log == logs && Diverges(Run(Initial(windows), steps), p, q, m)
  {
    assert logs[p] == [] + logs[p];
    steps := Exchange(windows, logs, p, q, [], logs[p]);
  }

  lemma Divergence(windows: map<NodeId, nat>, logs: Log) returns (steps: seq<Step>)
    requires windows.Keys == logs.Keys && !AtMostOneUpdater(logs) && !OneValueEach(logs)
    ensures ValidRun(Initial(windows), steps)
    ensures Run(Initial(windows), steps).log == logs && !Agreed(Run(Initial(windows), steps))
  {
    var i: NodeId, k: nat, j: NodeId, l: nat, m: NodeId, v: string, w: string :|
      Writes(logs, i, k, m, v) && Writes(logs, j, l, m, w) && v != w;
    LatestWrite(logs[i], k, m);
    LatestWrite(logs[j], l, m);
    if Latest(logs[i])[m] != v {
      var q := Other(logs, i);
      steps := OverwrittenDiverges(windows, logs, i, q, k, m);
    } else if Latest(logs[j])[m] != w {
      var q := Other(logs, j);
      steps := OverwrittenDiverges(windows, logs, j, q, l, m);
    } else {
      steps := DifferentDiverge(windows, logs, i, j, m);
    }
  }

  lemma Other(logs: Log, p: NodeId) returns (q: NodeId)
    requires !AtMostOneUpdater(logs)
    ensures q in logs && q != p && logs[q] != []
  {
    var i, j :| i in logs && j in logs && logs[i] != [] && logs[j] != [] && i != j;
    q := if i != p then i else j;
  }

  /** Every run that ends with these update histories leaves nodes with equal vectors holding equal availability. */
  ghost predicate AlwaysAgrees(windows: map<NodeId, nat>, logs: Log) {
    forall steps {:trigger ValidRun(Initial(windows), steps)} | ValidRun(Initial(windows), steps) ::
      Run(Initial(windows), steps).log == logs ==> Agreed(Run(Initial(windows), steps))
  }

  /** For given update histories, availability values always converge if and only if at most one node makes any update
      or no key is ever given two different values. */
  lemma {:induction false} ValuesConvergeExactly(windows: map<NodeId, nat>, logs: Log)
    requires windows.Keys == logs.Keys
    ensures AlwaysAgrees(windows, logs) <==> AtMostOneUpdater(logs) || OneValueEach(logs)
  {
    if AtMostOneUpdater(logs) || OneValueEach(logs) {
      forall steps | ValidRun(Initial(windows), steps)
        ensures Run(Initial(windows), steps).log == logs ==> Agreed(Run(Initial(windows), steps))
      {
        if Run(Initial(windows), steps).log == logs {
          ValuesAgree(windows, steps);
        }
      }
    } else {
      var steps := Divergence(windows, logs);
      assert !Agreed(Run(Initial(windows), steps));
    }
  }

  // ---- Two small histories ----

  function Status(key: NodeId, text: string): Facts {
    Facts(map[], map[key := text])
  }

  ghost predicate NoCapabilities(updates: seq<Facts>) {
    forall k | 0 <= k < |updates| :: updates[k].capabilities == map[]
  }

  lemma NothingListed(log: Log, v: VersionMap, m: NodeId)
    requires forall i | i in log :: NoCapabilities(log[i])
    ensures !Known(log, v, ListsNode(m))
  {
  }

  lemma {:induction false} OnlyStatuses(windows: map<NodeId, nat>, steps: seq<Step>, n: NodeId)
    requires ValidRun(Initial(windows), steps) && n in Run(Initial(windows), steps).nodes
    requires forall i | i in Run(Initial(windows), steps).log :: NoCapabilities(Run(Initial(windows), steps).log[i])
    ensures Run(Initial(windows), steps).nodes[n].facts.capabilities == map[]
    ensures OwnVersion(Run(Initial(windows), steps).nodes[n]) == |Run(Initial(windows), steps).log[n]|
  {
    InitialInv(windows);
    RunInv(Initial(windows), steps);
    var net := Run(Initial(windows), steps);
    assert NodeOk(net, n);
    forall m
      ensures m !in net.nodes[n].facts.capabilities
    {
      NothingListed(net.log, net.nodes[n].versions, m);
      assert Holds(net.nodes[n].facts, ListsNode(m)) <==> Known(net.log, net.nodes[n].versions, ListsNode(m));
    }
  }

  /** The history in which p makes `ps`, q makes `qs` and the others nothing. */
  function History(windows: map<NodeId, nat>, p: NodeId, ps: seq<Facts>, q: NodeId, qs: seq<Facts>): Log {
    map n | n in windows :: if n == p then ps else if n == q then qs else []
  }

  /** Exchange, for a history in which only p and q make updates, of availability alone. */
  lemma {:induction false} SmallExchange(windows: map<NodeId, nat>, p: NodeId, first: seq<Facts>, second: seq<Facts>,
                                         q: NodeId, own: seq<Facts>) returns (steps: seq<Step>)
    requires p in windows && q in windows && p != q && second != [] && own != []
    requires NoCapabilities(first + second) && NoCapabilities(own)
    ensures ValidRun(Initial(windows), steps)
    ensures
      var final := Run(Initial(windows), steps);
      var returned := Latest(own) + Latest(first);
      && final.log == History(windows, p, first + second, q, own) && p in final.nodes && q in final.nodes
      && SameVector(final.nodes[p].versions, final.nodes[q].versions)
      && OwnVersion(final.nodes[p]) == |first + second|
      && final.nodes[p].facts == Facts(map[], Latest(first + second) + returned)
      && final.nodes[q].facts == Facts(map[], returned + Latest(first + second))
  {
    steps := Exchange(windows, History(windows, p, first + second, q, own), p, q, first, second);
    OnlyStatuses(windows, steps, p);
    OnlyStatuses(windows, steps, q);
  }

  lemma LatestOne(delta: Facts)
    ensures Latest([delta]) == delta.availability
  {
    assert [delta][..0] == [];
  }

  /** Two nodes write one key once each: a run leaves them with equal vectors, so that every later envelope is skipped,
      and with their values swapped. */
  lemma {:induction false} ValuesDoNotConverge(windows: map<NodeId, nat>, p: NodeId, q: NodeId, key: NodeId,
                                               x: string, y: string) returns (steps: seq<Step>)
    requires p in windows && q in windows && p != q
    ensures ValidRun(Initial(windows), steps)
    ensures
      var final := Run(Initial(windows), steps);
      && final.log == History(windows, p, [Status(key, x)], q, [Status(key, y)])
      && p in final.nodes && q in final.nodes && SameVector(final.nodes[p].versions, final.nodes[q].versions)
      && final.nodes[p].facts == Status(key, y) && final.nodes[q].facts == Status(key, x)
  {
    assert [] + [Status(key, x)] == [Status(key, x)];
    steps := SmallExchange(windows, p, [], [Status(key, x)], q, [Status(key, y)]);
    SwapStatus(key, x, y);
  }

  lemma SwapStatus(key: NodeId, x: string, y: string)
    ensures Latest([] + [Status(key, x)]) + (Latest([Status(key, y)]) + Latest([])) == map[key := y]
    ensures (Latest([Status(key, y)]) + Latest([])) + Latest([] + [Status(key, x)]) == map[key := x]
  {
    LatestOne(Status(key, x));
    LatestOne(Status(key, y));
    assert [] + [Status(key, x)] == [Status(key, x)];
    assert map[key := y] + map[] == map[key := y];
  }

  /** One writer is enough to go back. p alone writes the key, first x, then y; q only bumps. A run leaves p with x, the
      value that q took from it, although p's vector says that p has seen its own second update. */
  lemma {:induction false} NewestValueIsLost(windows: map<NodeId, nat>, p: NodeId, q: NodeId, key: NodeId,
                                             x: string, y: string) returns (steps: seq<Step>)
    requires p in windows && q in windows && p != q
    ensures ValidRun(Initial(windows), steps)
    ensures
      var final := Run(Initial(windows), steps);
      && final.log == History(windows, p, [Status(key, x), Status(key, y)], q, [NO_FACTS])
      && p in final.nodes && final.nodes[p].facts == Status(key, x) && OwnVersion(final.nodes[p]) == 2
  {
    var first, second := [Status(key, x)], [Status(key, y)];
    assert first + second == [Status(key, x), Status(key, y)];
    steps := SmallExchange(windows, p, first, second, q, [NO_FACTS]);
    ReturnStatus(key, x, y);
  }

  lemma ReturnStatus(key: NodeId, x: string, y: string)
    ensures
      Latest([Status(key, x)] + [Status(key, y)]) + (Latest([NO_FACTS]) + Latest([Status(key, x)])) == map[key := x]
  {
    LatestThen([Status(key, x)], [Status(key, y)]);
    LatestOne(Status(key, x));
    LatestOne(Status(key, y));
    LatestOne(NO_FACTS);
  }
}
