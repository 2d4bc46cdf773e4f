/** Where candidates come from: exactly one for each listing of the capability in the snapshot, in the snapshot's order
    (src/shyam/navigation/candidates.py). */
module CandidateOrigins {
  import opened Navigation
  import opened Candidates

  /** The candidate shows this node, provider and capability, each property in its own field. */
  predicate Describes(c: Candidate, n: Node, p: Provider, a: Capability) {
    && c.nodeId == n.id && c.nodeName == n.name && c.nodeState == n.state && c.isLocal == n.isLocal
    && c.nodeMetadata == n.metadata
    && c.providerId == p.id && c.providerName == p.name && c.providerStatus == p.status
    && c.providerMetadata == p.metadata
    && c.capabilityId == a.id && c.capabilityAvailability == a.availability
  }

  /** Positions in the order of the nodes, of a node's providers and of a provider's capabilities. */
  datatype Origin = Origin(node: nat, provider: nat, capability: nat)

  predicate Earlier(a: Origin, b: Origin) {
    if a.node != b.node then a.node < b.node
    else if a.provider != b.provider then a.provider < b.provider
    else a.capability < b.capability
  }

  predicate HasNode(nodes: Dict<Node>, k: nat) {
    k < |nodes.order| && nodes.order[k] in nodes.at
  }

  function NodeAt(nodes: Dict<Node>, k: nat): Node
    requires HasNode(nodes, k)
  {
    nodes.at[nodes.order[k]]
  }

  predicate HasProvider(n: Node, k: nat) {
    k < |n.providers.order| && n.providers.order[k] in n.providers.at
  }

  function ProviderAt(n: Node, k: nat): Provider
    requires HasProvider(n, k)
  {
    n.providers.at[n.providers.order[k]]
  }

  /** There the snapshot lists the capability. */
  predicate Lists(nodes: Dict<Node>, id: string, o: Origin) {
    HasNode(nodes, o.node) && HasProvider(NodeAt(nodes, o.node), o.provider) &&
    var caps := ProviderAt(NodeAt(nodes, o.node), o.provider).capabilities;
    o.capability < |caps| && caps[o.capability].id == id
  }

  predicate ComesFrom(nodes: Dict<Node>, id: string, c: Candidate, o: Origin) {
    Lists(nodes, id, o) &&
    var n := NodeAt(nodes, o.node);
    var p := ProviderAt(n, o.provider);
    Describes(c, n, p, p.capabilities[o.capability])
  }

  predicate Within(o: Origin, from: Origin, to: Origin) {
    !Earlier(o, from) && Earlier(o, to)
  }

  /** The candidates come from the listings between `from` and `to`, one from each, in order. */
  ghost predicate Traces(nodes: Dict<Node>, id: string, cs: seq<Candidate>, os: seq<Origin>, from: Origin, to: Origin) {
    && |os| == |cs|
    && (forall i | 0 <= i < |os| :: ComesFrom(nodes, id, cs[i], os[i]) && Within(os[i], from, to))
    && (forall i, j | 0 <= i < j < |os| :: Earlier(os[i], os[j]))
    && (forall o | Lists(nodes, id, o) && Within(o, from, to) :: o in os)
  }

  lemma WithinJoin(o: Origin, from: Origin, mid: Origin, to: Origin)
    requires !Earlier(mid, from) && !Earlier(to, mid)
    ensures Within(o, from, to) <==> Within(o, from, mid) || Within(o, mid, to)
  {
  }

  lemma Across(a: Origin, b: Origin, from: Origin, mid: Origin, to: Origin)
    requires Within(a, from, mid) && Within(b, mid, to)
    ensures Earlier(a, b)
  {
  }

  lemma TracesJoin(nodes: Dict<Node>, id: string, cs: seq<Candidate>, os: seq<Origin>, from: Origin, mid: Origin,
                   cs': seq<Candidate>, os': seq<Origin>, to: Origin)
    requires Traces(nodes, id, cs, os, from, mid) && Traces(nodes, id, cs', os', mid, to)
    requires !Earlier(mid, from) && !Earlier(to, mid)
    ensures Traces(nodes, id, cs + cs', os + os', from, to)
  {
    var all, both := cs + cs', os + os';
    forall i | 0 <= i < |both|
      ensures ComesFrom(nodes, id, all[i], both[i]) && Within(both[i], from, to)
    {
      WithinJoin(both[i], from, mid, to);
      assert if i < |os| then both[i] == os[i] && all[i] == cs[i]
             else both[i] == os'[i - |os|] && all[i] == cs'[i - |os|];
    }
    forall i, j | 0 <= i < j < |both|
      ensures Earlier(both[i], both[j])
    {
      if i < |os| <= j {
        Across(os[i], os'[j - |os|], from, mid, to);
      } else if |os| <= i {
        assert Earlier(os'[i - |os|], os'[j - |os|]);
      }
    }
    forall o | Lists(nodes, id, o) && Within(o, from, to)
      ensures o in both
    {
      WithinJoin(o, from, mid, to);
    }
  }

  lemma {:induction false} OfProviderTraces(nodes: Dict<Node>, id: string, k: nat, j: nat, i: nat)
    returns (os: seq<Origin>)
    requires HasNode(nodes, k) && HasProvider(NodeAt(nodes, k), j)
    requires i <= |ProviderAt(NodeAt(nodes, k), j).capabilities|
    ensures
      var p := ProviderAt(NodeAt(nodes, k), j);
      Traces(nodes, id, OfProvider(NodeAt(nodes, k), p, p.capabilities[i..], id), os,
             Origin(k, j, i), Origin(k, j + 1, 0))
    decreases |ProviderAt(NodeAt(nodes, k), j).capabilities| - i
  {
    var n, p := NodeAt(nodes, k), ProviderAt(NodeAt(nodes, k), j);
    if i == |p.capabilities| {
      os := [];
    } else {
      var rest := OfProviderTraces(nodes, id, k, j, i + 1);
      assert p.capabilities[i..][1..] == p.capabilities[i + 1..];
      var here, first: seq<Candidate> := [], [];
      if p.capabilities[i].id == id {
        here, first := [Origin(k, j, i)], [CandidateOf(n, p, p.capabilities[i])];
      }
      assert Traces(nodes, id, first, here, Origin(k, j, i), Origin(k, j, i + 1));
      TracesJoin(nodes, id, first, here, Origin(k, j, i), Origin(k, j, i + 1),
                 OfProvider(n, p, p.capabilities[i + 1..], id), rest, Origin(k, j + 1, 0));
      os := here + rest;
    }
  }

  lemma {:induction false} OfNodeTraces(nodes: Dict<Node>, id: string, k: nat, j: nat)
    returns (os: seq<Origin>)
    requires HasNode(nodes, k) && NodeAt(nodes, k).providers.Valid() && j <= |NodeAt(nodes, k).providers.order|
    ensures
      var n := NodeAt(nodes, k);
      Traces(nodes, id, Flat(n.providers.order[j..], ProviderLists(n, id)), os, Origin(k, j, 0), Origin(k + 1, 0, 0))
    decreases |NodeAt(nodes, k).providers.order| - j
  {
    var n := NodeAt(nodes, k);
    var order, lists := n.providers.order, ProviderLists(n, id);
    if j == |order| {
      os := [];
    } else {
      assert order[j] in order;
      assert order[j..][1..] == order[j + 1..];
      var first := OfProviderTraces(nodes, id, k, j, 0);
      var rest := OfNodeTraces(nodes, id, k, j + 1);
      var p := ProviderAt(n, j);
      assert p.capabilities[0..] == p.capabilities;
      TracesJoin(nodes, id, lists[order[j]], first, Origin(k, j, 0), Origin(k, j + 1, 0),
                 Flat(order[j + 1..], lists), rest, Origin(k + 1, 0, 0));
      os := first + rest;
    }
  }

  lemma {:induction false} SnapshotTraces(nodes: Dict<Node>, id: string, k: nat) returns (os: seq<Origin>)
    requires ValidSnapshot(nodes) && k <= |nodes.order|
    ensures
      Traces(nodes, id, Flat(nodes.order[k..], NodeLists(nodes, id)), os,
             Origin(k, 0, 0), Origin(|nodes.order|, 0, 0))
    decreases |nodes.order| - k
  {
    var lists := NodeLists(nodes, id);
    if k == |nodes.order| {
      os := [];
    } else {
      assert nodes.order[k] in nodes.order;
      assert nodes.order[k..][1..] == nodes.order[k + 1..];
      var first := OfNodeTraces(nodes, id, k, 0);
      var rest := SnapshotTraces(nodes, id, k + 1);
      var n := NodeAt(nodes, k);
      assert n.providers.order[0..] == n.providers.order;
      TracesJoin(nodes, id, lists[nodes.order[k]], first, Origin(k, 0, 0), Origin(k + 1, 0, 0),
                 Flat(nodes.order[k + 1..], lists), rest, Origin(|nodes.order|, 0, 0));
      os := first + rest;
    }
  }

  /** The discovered candidates come one from each listing of the capability and from nothing else, in the order of the
      nodes, then the providers, then the capabilities. */
  lemma {:induction false} DiscoveredExactly(nodes: Dict<Node>, id: string) returns (os: seq<Origin>)
    requires ValidSnapshot(nodes)
    ensures
      var cs := Discovered(nodes, id);
      && |os| == |cs| && (forall i | 0 <= i < |cs| :: ComesFrom(nodes, id, cs[i], os[i]))
      && (forall i, j | 0 <= i < j < |os| :: Earlier(os[i], os[j]))
      && (forall o :: o in os <==> Lists(nodes, id, o))
  {
    os := SnapshotTraces(nodes, id, 0);
    assert nodes.order[0..] == nodes.order;
  }
}
