/** The network of SyncNetwork behind the gates of its nodes. Every node has its own trust records, granted and revoked
    at any time, and authenticates whatever arrives: any envelope at all, sent by a node or made up. */
module GatedNetwork {
  import opened Versions
  import opened SyncModel
  import opened SyncNetwork
  import opened SyncSigning
  import opened SyncDivergence
  import opened Options
  import opened Trust
  import opened Authenticator

  /** The scheme that all nodes use, and the signing key of each. */
  datatype Ring = Ring(scheme: Scheme, keys: map<NodeId, int>) {
    function PublicKey(n: NodeId): string
      requires n in keys
    {
      scheme.publicKey(keys[n])
    }
  }

  datatype World = World(net: Network, trust: map<NodeId, TrustState>)

  datatype Event =
    | Observe(node: NodeId, delta: Facts)
    | Emit(node: NodeId, messageType: string, messageId: MessageId)
    | Arrive(node: NodeId, envelope: Envelope)
    | Decide(node: NodeId, op: TrustOp)

  function Signed(ring: Ring, node: Node, messageType: string, id: MessageId): Envelope
    requires node.id in ring.keys
  {
    SignEnvelope(ring.scheme, Snapshot(node, ring.PublicKey(node.id), messageType, id), ring.keys[node.id])
  }

  /** The envelope gets past the gate of node n. One that n sent itself is not looked at. */
  predicate Passes(scheme: Scheme, trust: TrustState, n: NodeId, e: Envelope) {
    e.sender != n && Authenticate(scheme, trust, e) == None
  }

  ghost predicate Possible(ring: Ring, w: World, ev: Event) {
    && ev.node in w.net.nodes && ev.node in w.net.log && ev.node in w.trust && ev.node in ring.keys
    && (ev.Emit? ==> w.net.nodes[ev.node].id == ev.node && forall e :: e in w.net.sent ==> e.messageId != ev.messageId)
  }

  /** An event that is not possible does not happen. */
  ghost function Next(ring: Ring, w: World, ev: Event): World {
    if !Possible(ring, w, ev) then w
    else
      match ev
      case Observe(n, delta) => w.(net := Record(w.net, n, delta))
      case Emit(n, messageType, id) =>
        w.(net := w.net.(sent := w.net.sent + {Signed(ring, w.net.nodes[n], messageType, id)}))
      case Arrive(n, e) =>
        World(if Passes(ring.scheme, w.trust[n], n, e) then Delivered(w.net, n, e) else w.net,
              w.trust[n := if e.sender == n then w.trust[n] else Consulted(w.trust[n], e)])
      case Decide(n, op) => w.(trust := w.trust[n := ApplyOp(w.trust[n], op)])
  }

  ghost function After(ring: Ring, w: World, events: seq<Event>): World {
    if events == [] then w else Next(ring, After(ring, w, events[..|events| - 1]), events[|events| - 1])
  }

  lemma AfterThen(ring: Ring, w: World, events: seq<Event>, ev: Event)
    ensures After(ring, w, events + [ev]) == Next(ring, After(ring, w, events), ev)
  {
    assert (events + [ev])[..|events|] == events;
  }

  // ---- Where facts come from ----

  /** The sender is TRUSTED, and the signature verifies under the carried key, which is the pinned one if any. */
  ghost predicate TrustedSource(scheme: Scheme, trust: TrustState, e: Envelope) {
    var record := RecordOf(trust, e.sender);
    && record.status == Trusted
    && scheme.verify(e.senderKey, Signable(e), e.signature)
    && (record.publicKey.Some? && record.publicKey.value != "" ==> record.publicKey.value == e.senderKey)
  }

  /** The event tells node n the fact. */
  ghost predicate Gives(ring: Ring, w: World, ev: Event, n: NodeId, f: Fact) {
    && ev.node == n && Possible(ring, w, ev)
    && match ev
       case Observe(_, delta) => Holds(delta, f)
       case Arrive(_, e) => Passes(ring.scheme, w.trust[n], n, e) && Holds(e.payload.facts, f)
       case _ => false
  }

  ghost predicate GivenAt(ring: Ring, w: World, events: seq<Event>, n: NodeId, f: Fact, i: nat) {
    i < |events| && Gives(ring, After(ring, w, events[..i]), events[i], n, f)
  }

  lemma GivenBefore(ring: Ring, w: World, events: seq<Event>, n: NodeId, f: Fact, i: nat)
    requires events != [] && i < |events| - 1
    ensures GivenAt(ring, w, events[..|events| - 1], n, f, i) <==> GivenAt(ring, w, events, n, f, i)
  {
    assert events[..|events| - 1][..i] == events[..i];
  }

  /** Some event of the run tells node n the fact. */
  ghost predicate Told(ring: Ring, w: World, events: seq<Event>, n: NodeId, f: Fact) {
    exists i: nat :: GivenAt(ring, w, events, n, f, i)
  }

  lemma ToldThen(ring: Ring, w: World, events: seq<Event>, n: NodeId, f: Fact)
    requires events != []
    ensures
      var before, last := events[..|events| - 1], events[|events| - 1];
      Told(ring, w, events, n, f) <==> Told(ring, w, before, n, f) || Gives(ring, After(ring, w, before), last, n, f)
  {
    var before, last := events[..|events| - 1], events[|events| - 1];
    assert GivenAt(ring, w, events, n, f, |events| - 1) <==> Gives(ring, After(ring, w, before), last, n, f);
    if Told(ring, w, events, n, f) {
      var i: nat :| GivenAt(ring, w, events, n, f, i);
      if i < |events| - 1 {
        GivenBefore(ring, w, events, n, f, i);
      }
    }
    if Told(ring, w, before, n, f) {
      var i: nat :| GivenAt(ring, w, before, n, f, i);
      GivenBefore(ring, w, events, n, f, i);
    }
  }

  lemma NextKeepsNodes(ring: Ring, w: World, ev: Event)
    ensures Next(ring, w, ev).net.nodes.Keys == w.net.nodes.Keys
    ensures Next(ring, w, ev).net.log.Keys == w.net.log.Keys
    ensures Next(ring, w, ev).trust.Keys == w.trust.Keys
  {
  }

  lemma {:induction false} AfterKeepsNodes(ring: Ring, w: World, events: seq<Event>)
    ensures After(ring, w, events).net.nodes.Keys == w.net.nodes.Keys
    ensures After(ring, w, events).net.log.Keys == w.net.log.Keys
    ensures After(ring, w, events).trust.Keys == w.trust.Keys
  {
    if events != [] {
      AfterKeepsNodes(ring, w, events[..|events| - 1]);
      NextKeepsNodes(ring, After(ring, w, events[..|events| - 1]), events[|events| - 1]);
    }
  }

  lemma NewFactIsGiven(ring: Ring, w: World, ev: Event, n: NodeId, f: Fact)
    requires n in w.net.nodes && Holds(Next(ring, w, ev).net.nodes[n].facts, f)
    ensures Holds(w.net.nodes[n].facts, f) || Gives(ring, w, ev, n, f)
  {
    if Possible(ring, w, ev) && ev.node == n {
      match ev
      case Observe(_, delta) => JoinHolds(w.net.nodes[n].facts, delta, f);
      case Arrive(_, e) => JoinHolds(w.net.nodes[n].facts, e.payload.facts, f);
      case _ =>
    }
  }

  /** Whatever arrives, a fact that a node holds and did not start with was observed by the node itself or carried by an
      envelope whose sender the node trusted at that moment, signed under the key it had pinned for it, if any. */
  lemma {:induction false} FactsHaveTrustedOrigin(ring: Ring, w: World, events: seq<Event>, n: NodeId, f: Fact)
    requires n in w.net.nodes
    ensures After(ring, w, events).net.nodes.Keys == w.net.nodes.Keys
    ensures Holds(After(ring, w, events).net.nodes[n].facts, f) && !Holds(w.net.nodes[n].facts, f) ==>
      exists i: nat ::
        && GivenAt(ring, w, events, n, f, i)
        && (events[i].Arrive? ==>
              var met := After(ring, w, events[..i]);
              n in met.trust && TrustedSource(ring.scheme, met.trust[n], events[i].envelope))
  {
    AfterKeepsNodes(ring, w, events);
    if Holds(After(ring, w, events).net.nodes[n].facts, f) && !Holds(w.net.nodes[n].facts, f) {
      NewFactIsTold(ring, w, events, n, f);
      var i: nat :| GivenAt(ring, w, events, n, f, i);
      if events[i].Arrive? {
        AuthenticMeans(ring.scheme, After(ring, w, events[..i]).trust[n], events[i].envelope);
      }
    }
  }

  lemma {:induction false} NewFactIsTold(ring: Ring, w: World, events: seq<Event>, n: NodeId, f: Fact)
    requires n in w.net.nodes && n in After(ring, w, events).net.nodes
    requires Holds(After(ring, w, events).net.nodes[n].facts, f) && !Holds(w.net.nodes[n].facts, f)
    ensures Told(ring, w, events, n, f)
  {
    if events != [] {
      var before := events[..|events| - 1];
      AfterKeepsNodes(ring, w, before);
      NewFactIsGiven(ring, After(ring, w, before), events[|events| - 1], n, f);
      ToldThen(ring, w, events, n, f);
      if Holds(After(ring, w, before).net.nodes[n].facts, f) {
        NewFactIsTold(ring, w, before, n, f);
      }
    }
  }

  // ---- Revocation ----

  /** The events without the arrivals at n of what m sent. */
  function Without(events: seq<Event>, n: NodeId, m: NodeId): seq<Event> {
    if events == [] then []
    else
      var before, last := Without(events[..|events| - 1], n, m), events[|events| - 1];
      if IsFrom(last, n, m) then before else before + [last]
  }

  predicate IsFrom(ev: Event, n: NodeId, m: NodeId) {
    ev.Arrive? && ev.node == n && ev.envelope.sender == m
  }

  predicate Grants(ev: Event, n: NodeId, m: NodeId) {
    ev.Decide? && ev.node == n && ev.op.GrantOp? && ev.op.node == m
  }

  /** The same records: node n may have loaded its store, which its memory mirrors, in one of the worlds only. */
  ghost predicate Alike(u: World, v: World, n: NodeId) {
    && u.net == v.net && u.trust.Keys == v.trust.Keys && n in u.trust
    && (forall k :: k in u.trust && k != n ==> u.trust[k] == v.trust[k])
    && u.trust[n].records == v.trust[n].records && Mirrored(u.trust[n]) && Mirrored(v.trust[n])
  }

  lemma AlikeNext(ring: Ring, u: World, v: World, n: NodeId, ev: Event)
    requires Alike(u, v, n)
    ensures Alike(Next(ring, u, ev), Next(ring, v, ev), n)
  {
    assert Possible(ring, u, ev) <==> Possible(ring, v, ev);
    if Possible(ring, u, ev) && ev.node == n {
      match ev
      case Arrive(_, _) => AlikeArrive(ring, u, v, n, ev);
      case Decide(_, op) => AlikeOp(u.trust[n], v.trust[n], op);
      case _ =>
    }
  }

  lemma AlikeArrive(ring: Ring, u: World, v: World, n: NodeId, ev: Event)
    requires Alike(u, v, n) && Possible(ring, u, ev) && Possible(ring, v, ev) && ev.Arrive? && ev.node == n
    ensures Alike(Next(ring, u, ev), Next(ring, v, ev), n)
  {
    AlikeRecords(u.trust[n], v.trust[n]);
  }

  lemma AlikeOp(s: TrustState, t: TrustState, op: TrustOp)
    requires s.records == t.records && Mirrored(s) && Mirrored(t)
    ensures
      && ApplyOp(s, op).records == ApplyOp(t, op).records
      && Mirrored(ApplyOp(s, op)) && Mirrored(ApplyOp(t, op))
  {
  }

  lemma AlikeRecords(s: TrustState, t: TrustState)
    requires s.records == t.records && Mirrored(s) && Mirrored(t)
    ensures forall n :: RecordOf(s, n) == RecordOf(t, n)
  {
  }

  lemma RevokedArrival(ring: Ring, u: World, n: NodeId, m: NodeId, ev: Event)
    requires n in u.trust && Mirrored(u.trust[n]) && RecordOf(u.trust[n], m).status == Revoked && IsFrom(ev, n, m)
    ensures Alike(Next(ring, u, ev), u, n)
  {
  }

  lemma StillRevoked(ring: Ring, u: World, n: NodeId, m: NodeId, ev: Event)
    requires n in u.trust && Mirrored(u.trust[n]) && RecordOf(u.trust[n], m).status == Revoked && !Grants(ev, n, m)
    ensures n in Next(ring, u, ev).trust && RecordOf(Next(ring, u, ev).trust[n], m).status == Revoked
  {
  }

  lemma AlikeTransitive(u: World, v: World, w: World, n: NodeId)
    requires Alike(u, v, n) && Alike(v, w, n)
    ensures Alike(u, w, n)
  {
  }

  lemma {:induction false} RevokedAlike(ring: Ring, w: World, n: NodeId, m: NodeId, events: seq<Event>)
    requires n in w.trust && Mirrored(w.trust[n]) && RecordOf(w.trust[n], m).status == Revoked
    requires forall ev :: ev in events ==> !Grants(ev, n, m)
    ensures Alike(After(ring, w, events), After(ring, w, Without(events, n, m)), n)
    ensures RecordOf(After(ring, w, events).trust[n], m).status == Revoked
  {
    if events != [] {
      var before, last := events[..|events| - 1], events[|events| - 1];
      RevokedAlike(ring, w, n, m, before);
      var u, v := After(ring, w, before), After(ring, w, Without(before, n, m));
      StillRevoked(ring, u, n, m, last);
      if IsFrom(last, n, m) {
        RevokedArrival(ring, u, n, m, last);
        AlikeTransitive(Next(ring, u, last), u, v, n);
      } else {
        AlikeNext(ring, u, v, n, last);
        AfterThen(ring, w, Without(before, n, m), last);
      }
    }
  }

  /** Once a node has revoked another, and until it grants it trust again, the whole network goes on as if nothing that
      the other signed had arrived at the node. */
  lemma {:induction false} RevokedIsUnheard(ring: Ring, w: World, n: NodeId, m: NodeId, reason: Option<string>,
                                            events: seq<Event>)
    requires Possible(ring, w, Decide(n, RevokeOp(m, reason)))
    requires forall ev :: ev in events ==> !Grants(ev, n, m)
    ensures
      var revoked := Next(ring, w, Decide(n, RevokeOp(m, reason)));
      After(ring, revoked, events).net == After(ring, revoked, Without(events, n, m)).net
  {
    var revoked := Next(ring, w, Decide(n, RevokeOp(m, reason)));
    RevokedAlike(ring, revoked, n, m, events);
  }

  // ---- With keys that nobody else signs with, the gate lets in only what was sent ----

  /** Every trusted record pins the key that its node signs with. */
  ghost predicate PinsRight(ring: Ring, records: Records) {
    forall m :: m in records && records[m].status == Trusted ==>
      m in ring.keys && records[m].publicKey == Some(ring.PublicKey(m))
  }

  ghost predicate Sure(ring: Ring, s: TrustState) {
    PinsRight(ring, s.records) && PinsRight(ring, s.disk)
  }

  ghost predicate Guarded(ring: Ring, trust: map<NodeId, TrustState>) {
    forall n :: n in trust ==> Sure(ring, trust[n])
  }

  /** What verifies under a node's public key is data of an envelope that was sent. */
  ghost predicate Unforged(ring: Ring, net: Network, e: Envelope) {
    forall h :: h in ring.keys && ring.scheme.verify(ring.PublicKey(h), Signable(e), e.signature) ==>
      exists d :: d in net.sent && Signable(d) == Signable(e)
  }

  ghost predicate Genuine(ring: Ring, w: World, ev: Event) {
    && (ev.Arrive? ==> Unforged(ring, w.net, ev.envelope))
    && (ev.Decide? && ev.op.GrantOp? && ev.node in w.trust ==>
          var m := ev.op.node;
          m in ring.keys
          && GrantedRecord(w.trust[ev.node].records, m, ev.op.grant).publicKey == Some(ring.PublicKey(m)))
  }

  ghost predicate AllGenuine(ring: Ring, w: World, events: seq<Event>) {
    events != [] ==>
      var before := events[..|events| - 1];
      AllGenuine(ring, w, before) && Genuine(ring, After(ring, w, before), events[|events| - 1])
  }

  lemma KeyHasText(scheme: Scheme, key: int)
    requires Correct(scheme)
    ensures scheme.publicKey(key) != ""
  {
  }

  /** The envelope that was sent, in place of the one that arrived: they differ in the signature at most. */
  lemma WhatWasSent(ring: Ring, w: World, n: NodeId, e: Envelope) returns (d: Envelope)
    requires Correct(ring.scheme) && Guarded(ring, w.trust) && n in w.trust
    requires Passes(ring.scheme, w.trust[n], n, e) && Unforged(ring, w.net, e)
    ensures d in w.net.sent && d.(signature := e.signature) == e
  {
    var record := RecordOf(w.trust[n], e.sender);
    assert e.sender in Loaded(w.trust[n]).records && Sure(ring, w.trust[n]);
    assert record.publicKey == Some(ring.PublicKey(e.sender));
    KeyHasText(ring.scheme, ring.keys[e.sender]);
    d :| d in w.net.sent && Signable(d) == Signable(e);
    SignableCoversEverything(e, d);
    assert d.(signature := e.signature) == d.(signature := "").(signature := e.signature);
  }

  lemma ReceiveIgnoresSignature(node: Node, e: Envelope, d: Envelope)
    requires d.(signature := e.signature) == e
    ensures Receive(node, d) == Receive(node, e)
  {
  }

  lemma SureOp(ring: Ring, s: TrustState, op: TrustOp)
    requires Sure(ring, s)
    requires op.GrantOp? ==>
      op.node in ring.keys && GrantedRecord(s.records, op.node, op.grant).publicKey == Some(ring.PublicKey(op.node))
    ensures Sure(ring, ApplyOp(s, op))
  {
  }

  lemma SureConsulted(ring: Ring, s: TrustState, e: Envelope)
    requires Sure(ring, s)
    ensures Sure(ring, Consulted(s, e))
  {
  }

  lemma GuardedNext(ring: Ring, w: World, ev: Event)
    requires Guarded(ring, w.trust) && Genuine(ring, w, ev)
    ensures Guarded(ring, Next(ring, w, ev).trust)
  {
    if Possible(ring, w, ev) {
      match ev
      case Decide(n, op) => SureOp(ring, w.trust[n], op);
      case Arrive(n, e) => SureConsulted(ring, w.trust[n], e);
      case _ =>
    }
  }

  lemma GatedStep(ring: Ring, start: Network, w: World, ev: Event)
    requires Correct(ring.scheme) && Guarded(ring, w.trust) && Genuine(ring, w, ev) && Reaches(start, w.net)
    ensures Reaches(start, Next(ring, w, ev).net)
  {
    if Possible(ring, w, ev) {
      match ev
      case Observe(n, delta) => ReachUpdate(start, w.net, n, delta);
      case Emit(n, messageType, id) =>
        var e := Signed(ring, w.net.nodes[n], messageType, id);
        ReachStep(start, w.net, Send(n, ring.PublicKey(n), messageType, id, e.signature));
      case Arrive(n, e) =>
        if Passes(ring.scheme, w.trust[n], n, e) {
          var d := WhatWasSent(ring, w, n, e);
          ReceiveIgnoresSignature(w.net.nodes[n], e, d);
          ReachDelivery(start, w.net, n, d);
        }
      case Decide(_, _) =>
    }
  }

  /** When trusted records pin the keys of their nodes and nobody else signs with those keys, then whatever else arrives
      anywhere, every run behind the gates is a run of the network: all that SyncTheorems says holds of it. */
  lemma {:induction false} GatedRunIsNetworkRun(ring: Ring, start: Network, w: World, events: seq<Event>)
    requires Correct(ring.scheme) && Guarded(ring, w.trust) && AllGenuine(ring, w, events) && Reaches(start, w.net)
    ensures Reaches(start, After(ring, w, events).net) && Guarded(ring, After(ring, w, events).trust)
  {
    if events != [] {
      var before, last := events[..|events| - 1], events[|events| - 1];
      GatedRunIsNetworkRun(ring, start, w, before);
      GatedStep(ring, start, After(ring, w, before), last);
      GuardedNext(ring, After(ring, w, before), last);
    }
  }

  ghost function Start(windows: map<NodeId, nat>, trust: map<NodeId, TrustState>): World {
    World(Initial(windows), trust)
  }

  lemma ReachesInv(windows: map<NodeId, nat>, net: Network)
    requires Reaches(Initial(windows), net)
    ensures Inv(net)
  {
    InitialInv(windows);
    var steps :| ValidRun(Initial(windows), steps) && Run(Initial(windows), steps) == net;
    RunInv(Initial(windows), steps);
  }

  lemma FactIsGivenExactly(ring: Ring, w: World, ev: Event, n: NodeId, f: Fact)
    requires Correct(ring.scheme) && Guarded(ring, w.trust) && Genuine(ring, w, ev) && Inv(w.net) && n in w.net.nodes
    ensures
      Holds(Next(ring, w, ev).net.nodes[n].facts, f) <==> Holds(w.net.nodes[n].facts, f) || Gives(ring, w, ev, n, f)
  {
    if Possible(ring, w, ev) && ev.node == n {
      match ev
      case Observe(_, delta) => JoinHolds(w.net.nodes[n].facts, delta, f);
      case Arrive(_, _) => ArrivalGivesExactly(ring, w, ev, f);
      case _ =>
    }
  }

  lemma ArrivalGivesExactly(ring: Ring, w: World, ev: Event, f: Fact)
    requires Correct(ring.scheme) && Guarded(ring, w.trust) && Genuine(ring, w, ev) && Inv(w.net)
    requires ev.Arrive? && Possible(ring, w, ev)
    ensures
      Holds(Next(ring, w, ev).net.nodes[ev.node].facts, f) <==>
      Holds(w.net.nodes[ev.node].facts, f) || Gives(ring, w, ev, ev.node, f)
  {
    var n, e := ev.node, ev.envelope;
    if Passes(ring.scheme, w.trust[n], n, e) {
      var d := WhatWasSent(ring, w, n, e);
      ReceivedFact(w.net, n, e, d, f);
    }
  }

  lemma ReceivedFact(net: Network, n: NodeId, e: Envelope, d: Envelope, f: Fact)
    requires Inv(net) && n in net.nodes && d in net.sent && d.(signature := e.signature) == e
    ensures
      Holds(Receive(net.nodes[n], e).0.facts, f) <==> Holds(net.nodes[n].facts, f) || Holds(e.payload.facts, f)
  {
    ReceiveIgnoresSignature(net.nodes[n], e, d);
    ReceiveJoins(net, n, d);
    JoinHolds(net.nodes[n].facts, d.payload.facts, f);
    SameHolds(Receive(net.nodes[n], d).0.facts, JoinFacts(net.nodes[n].facts, d.payload.facts), f);
  }

  lemma SameHolds(a: Facts, b: Facts, f: Fact)
    requires SameFacts(a, b)
    ensures Holds(a, f) <==> Holds(b, f)
  {
  }

  /** Then a node holds exactly the facts that it observed or that passed its gate: a skipped envelope loses nothing. */
  lemma {:induction false} FactsAreThoseGiven(ring: Ring, windows: map<NodeId, nat>, trust: map<NodeId, TrustState>,
                                              events: seq<Event>, n: NodeId, f: Fact)
    requires Correct(ring.scheme) && Guarded(ring, trust)
    requires AllGenuine(ring, Start(windows, trust), events) && n in windows
    ensures
      var w := Start(windows, trust);
      && n in After(ring, w, events).net.nodes
      && (Holds(After(ring, w, events).net.nodes[n].facts, f) <==> Told(ring, w, events, n, f))
  {
    var w := Start(windows, trust);
    AfterKeepsNodes(ring, w, events);
    if events != [] {
      var before, last := events[..|events| - 1], events[|events| - 1];
      FactsAreThoseGiven(ring, windows, trust, before, n, f);
      assert ValidRun(w.net, []) && Run(w.net, []) == w.net;
      GatedRunIsNetworkRun(ring, w.net, w, before);
      ReachesInv(windows, After(ring, w, before).net);
      FactIsGivenExactly(ring, After(ring, w, before), last, n, f);
      ToldThen(ring, w, events, n, f);
    }
  }
}
