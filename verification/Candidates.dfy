/** From a snapshot of the ecosystem to candidates: src/shyam/navigation/candidates.py. */
module Candidates {
  import opened Navigation

  /** A Python dictionary: its content and its insertion order. */
  datatype Dict<V> = Dict(order: seq<string>, at: map<string, V>) {
    ghost predicate Valid() {
      IsOrderOf(order, at.Keys)
    }
  }

  ghost predicate IsOrderOf(order: seq<string>, keys: set<string>) {
    && (forall n :: n in order <==> n in keys)
    && (forall i, j :: 0 <= i < j < |order| ==> order[i] != order[j])
  }

  datatype Capability = Capability(id: string, availability: Availability)

  datatype Provider = Provider(
    id: string, name: string, capabilities: seq<Capability>, status: Availability, metadata: map<string, string>)

  datatype Node = Node(
    id: string, name: string, state: NodeState, isLocal: bool, providers: Dict<Provider>, metadata: map<string, string>)

  function CandidateOf(n: Node, p: Provider, c: Capability): Candidate {
    Candidate(n.id, n.name, p.id, p.name, c.id, n.isLocal, n.state, p.status, c.availability, n.metadata, p.metadata)
  }

  function OfProvider(n: Node, p: Provider, caps: seq<Capability>, id: string): seq<Candidate> {
    if caps == [] then []
    else (if caps[0].id == id then [CandidateOf(n, p, caps[0])] else []) + OfProvider(n, p, caps[1..], id)
  }

  /** The lists under the keys, one after the other in the given order. */
  function Flat(order: seq<string>, lists: map<string, seq<Candidate>>): seq<Candidate> {
    if order == [] then []
    else (if order[0] in lists then lists[order[0]] else []) + Flat(order[1..], lists)
  }

  function ProviderLists(n: Node, id: string): map<string, seq<Candidate>> {
    map p | p in n.providers.at :: OfProvider(n, n.providers.at[p], n.providers.at[p].capabilities, id)
  }

  function OfNode(n: Node, id: string): seq<Candidate> {
    Flat(n.providers.order, ProviderLists(n, id))
  }

  function NodeLists(nodes: Dict<Node>, id: string): map<string, seq<Candidate>> {
    map n | n in nodes.at :: OfNode(nodes.at[n], id)
  }

  function Discovered(nodes: Dict<Node>, id: string): seq<Candidate> {
    Flat(nodes.order, NodeLists(nodes, id))
  }

  ghost predicate ValidSnapshot(nodes: Dict<Node>) {
    nodes.Valid() && forall n :: n in nodes.at ==> nodes.at[n].providers.Valid()
  }

  lemma FlatStep(done: seq<Candidate>, order: seq<string>, i: nat, lists: map<string, seq<Candidate>>)
    requires i < |order| && order[i] in lists
    ensures done + Flat(order[i..], lists) == (done + lists[order[i]]) + Flat(order[i + 1..], lists)
  {
    assert order[i..][1..] == order[i + 1..];
  }

  lemma NodeListAt(nodes: Dict<Node>, id: string, name: string)
    requires name in nodes.at
    ensures name in NodeLists(nodes, id) && NodeLists(nodes, id)[name] == OfNode(nodes.at[name], id)
  {
  }

  method DiscoverCandidates(nodes: Dict<Node>, capabilityId: string) returns (candidates: seq<Candidate>)
    requires ValidSnapshot(nodes)
    ensures candidates == Discovered(nodes, capabilityId)
  {
    candidates := [];
    ghost var lists := NodeLists(nodes, capabilityId);
    for i := 0 to |nodes.order|
      invariant candidates + Flat(nodes.order[i..], lists) == Flat(nodes.order, lists)
    {
      var name := nodes.order[i];
      assert name in nodes.order;
      NodeListAt(nodes, capabilityId, name);
      FlatStep(candidates, nodes.order, i, lists);
      var found := DiscoverOnNode(nodes.at[name], capabilityId);
      candidates := candidates + found;
    }
  }

  method DiscoverOnNode(node: Node, capabilityId: string) returns (candidates: seq<Candidate>)
    requires node.providers.Valid()
    ensures candidates == OfNode(node, capabilityId)
  {
    candidates := [];
    ghost var lists := ProviderLists(node, capabilityId);
    for i := 0 to |node.providers.order|
      invariant candidates + Flat(node.providers.order[i..], lists) == Flat(node.providers.order, lists)
    {
      assert node.providers.order[i] in node.providers.order;
      FlatStep(candidates, node.providers.order, i, lists);
      var found := DiscoverOnProvider(node, node.providers.at[node.providers.order[i]], capabilityId);
      candidates := candidates + found;
    }
  }

  method DiscoverOnProvider(node: Node, provider: Provider, capabilityId: string) returns (found: seq<Candidate>)
    ensures found == OfProvider(node, provider, provider.capabilities, capabilityId)
  {
    found := [];
    var caps := provider.capabilities;
    for j := 0 to |caps|
      invariant found + OfProvider(node, provider, caps[j..], capabilityId)
             == OfProvider(node, provider, caps, capabilityId)
    {
      assert caps[j..][1..] == caps[j + 1..];
      if caps[j].id == capabilityId {
        found := found + [CandidateOf(node, provider, caps[j])];
      }
    }
  }

  // ---- The insertion order of the dictionaries does not matter ----

  lemma {:induction false} FlatRemove(order: seq<string>, j: nat, lists: map<string, seq<Candidate>>)
    requires j < |order| && order[j] in lists
    ensures multiset(Flat(order, lists))
         == multiset(lists[order[j]]) + multiset(Flat(order[..j] + order[j + 1..], lists))
  {
    if j == 0 {
      assert order[..0] + order[1..] == order[1..];
    } else {
      FlatRemove(order[1..], j - 1, lists);
      var rest := order[..j] + order[j + 1..];
      assert rest[1..] == order[1..][..j - 1] + order[1..][j..];
      assert rest[0] == order[0];
    }
  }

  /** The same candidates under each key, up to order. */
  ghost predicate SameLists(l1: map<string, seq<Candidate>>, l2: map<string, seq<Candidate>>, keys: set<string>) {
    forall k | k in keys :: k in l1 && k in l2 && multiset(l1[k]) == multiset(l2[k])
  }

  lemma FlatTakeOut(order: seq<string>, j: nat, lists: map<string, seq<Candidate>>, keys: set<string>, k: string)
    returns (rest: seq<string>)
    requires IsOrderOf(order, keys) && j < |order| && order[j] == k && k in lists
    ensures |rest| < |order| && IsOrderOf(rest, keys - {k})
    ensures multiset(Flat(order, lists)) == multiset(lists[k]) + multiset(Flat(rest, lists))
  {
    rest := order[..j] + order[j + 1..];
    OrderRest(order, j, keys);
    FlatRemove(order, j, lists);
  }

  lemma NoOrder(order: seq<string>, keys: set<string>)
    requires IsOrderOf(order, keys) && IsOrderOf([], keys)
    ensures order == []
  {
    if order != [] {
      HeadIsKey(order, keys);
    }
  }

  lemma {:induction false} FlatPermutes(o1: seq<string>, l1: map<string, seq<Candidate>>,
                                        o2: seq<string>, l2: map<string, seq<Candidate>>, keys: set<string>)
    requires IsOrderOf(o1, keys) && IsOrderOf(o2, keys) && SameLists(l1, l2, keys)
    ensures multiset(Flat(o1, l1)) == multiset(Flat(o2, l2))
    decreases |o1|
  {
    if o1 == [] {
      NoOrder(o2, keys);
    } else {
      var k := o1[0];
      HeadIsKey(o1, keys);
      var j := FindKey(o2, keys, k);
      var rest1 := FlatTakeOut(o1, 0, l1, keys, k);
      var rest2 := FlatTakeOut(o2, j, l2, keys, k);
      assert SameLists(l1, l2, keys - {k});
      FlatPermutes(rest1, l1, rest2, l2, keys - {k});
    }
  }

  lemma FindKey(order: seq<string>, keys: set<string>, k: string) returns (j: nat)
    requires IsOrderOf(order, keys) && k in keys
    ensures j < |order| && order[j] == k
  {
    assert k in order;
    j :| 0 <= j < |order| && order[j] == k;
  }

  lemma HeadIsKey(order: seq<string>, keys: set<string>)
    requires IsOrderOf(order, keys) && order != []
    ensures order[0] in keys
  {
    assert order[0] in order;
  }

  lemma OrderRest(order: seq<string>, j: nat, keys: set<string>)
    requires IsOrderOf(order, keys) && j < |order|
    ensures IsOrderOf(order[..j] + order[j + 1..], keys - {order[j]})
  {
    var rest := order[..j] + order[j + 1..];
    forall n
      ensures n in rest <==> n in keys - {order[j]}
    {
      if n in order && n != order[j] {
        var i :| 0 <= i < |order| && order[i] == n;
        assert rest[if i < j then i else i - 1] == n;
      }
      if n in rest {
        var i :| 0 <= i < |rest| && rest[i] == n;
        assert order[if i < j then i else i + 1] == n;
      }
    }
  }

  /** Equal as Python dictionaries, at both levels: the insertion orders may differ. */
  ghost predicate SameSnapshot(a: Dict<Node>, b: Dict<Node>) {
    && a.at.Keys == b.at.Keys
    && forall n :: n in a.at ==>
         && a.at[n].providers.at == b.at[n].providers.at
         && a.at[n].(providers := b.at[n].providers) == b.at[n]
  }

  lemma ProviderListsAgree(m: Node, n: Node, id: string)
    requires m.providers.Valid() && n.providers.Valid()
    requires m.providers.at == n.providers.at && m.(providers := n.providers) == n
    ensures multiset(OfNode(m, id)) == multiset(OfNode(n, id))
  {
    forall p | p in m.providers.at
      ensures ProviderLists(m, id)[p] == ProviderLists(n, id)[p]
    {
      OfProviderAgrees(m, n, m.providers.at[p], m.providers.at[p].capabilities, id);
    }
    FlatPermutes(m.providers.order, ProviderLists(m, id), n.providers.order, ProviderLists(n, id), m.providers.at.Keys);
  }

  lemma {:induction false} OfProviderAgrees(m: Node, n: Node, p: Provider, caps: seq<Capability>, id: string)
    requires m.(providers := n.providers) == n
    ensures OfProvider(m, p, caps, id) == OfProvider(n, p, caps, id)
  {
    if caps != [] {
      OfProviderAgrees(m, n, p, caps[1..], id);
    }
  }

  lemma {:induction false} DiscoveryPermutes(a: Dict<Node>, b: Dict<Node>, id: string)
    requires ValidSnapshot(a) && ValidSnapshot(b) && SameSnapshot(a, b)
    ensures multiset(Discovered(a, id)) == multiset(Discovered(b, id))
  {
    forall n | n in a.at
      ensures multiset(NodeLists(a, id)[n]) == multiset(NodeLists(b, id)[n])
    {
      ProviderListsAgree(a.at[n], b.at[n], id);
    }
    FlatPermutes(a.order, NodeLists(a, id), b.order, NodeLists(b, id), a.at.Keys);
  }

  /** Navigating two snapshots with the same content, whatever their insertion orders, selects the same
      target and ranks the same alternatives, as long as the ranking key tells the eligible apart. */
  lemma {:induction false} NavigationIgnoresInsertionOrder(a: Dict<Node>, b: Dict<Node>, id: string, k: Constraints)
    requires ValidSnapshot(a) && ValidSnapshot(b) && SameSnapshot(a, b)
    requires KeysTellApart(Discovered(a, id), k)
    ensures SameChoice(Discovered(a, id), Discovered(b, id), k)
  {
    DiscoveryPermutes(a, b, id);
    SameChoiceWhenToldApart(Discovered(a, id), Discovered(b, id), k);
  }

  // ---- Nodes and providers that are stored under their own ids ----

  ghost predicate FiledById(nodes: Dict<Node>) {
    forall n :: n in nodes.at ==>
      nodes.at[n].id == n && forall p :: p in nodes.at[n].providers.at ==> nodes.at[n].providers.at[p].id == p
  }

  lemma {:induction false} OfProviderIds(n: Node, p: Provider, caps: seq<Capability>, id: string)
    ensures forall c :: c in OfProvider(n, p, caps, id) ==> c.nodeId == n.id && c.providerId == p.id
  {
    if caps != [] {
      OfProviderIds(n, p, caps[1..], id);
    }
  }

  /** Only one list has candidates with this key. */
  ghost predicate OnlyAt(lists: map<string, seq<Candidate>>, at: string, key: Key, k: Constraints) {
    forall n :: n in lists && n != at ==> Tied(lists[n], key, k) == []
  }

  function TiedAt(lists: map<string, seq<Candidate>>, at: string, key: Key, k: Constraints): seq<Candidate> {
    if at in lists then Tied(lists[at], key, k) else []
  }

  lemma {:induction false} FlatTied(order: seq<string>, lists: map<string, seq<Candidate>>, at: string, key: Key,
                                    k: Constraints)
    requires OnlyAt(lists, at, key, k)
    requires forall i, j :: 0 <= i < j < |order| ==> order[i] != order[j]
    ensures Tied(Flat(order, lists), key, k) == if at in order then TiedAt(lists, at, key, k) else []
  {
    if order != [] {
      var first := if order[0] in lists then lists[order[0]] else [];
      FlatTied(order[1..], lists, at, key, k);
      TiedThen(first, Flat(order[1..], lists), key, k);
      assert order == [order[0]] + order[1..];
    }
  }

  /** What a node contributes to one key comes from one provider. */
  lemma OfNodeTied(n: Node, id: string, key: Key, k: Constraints)
    requires n.providers.Valid() && forall p :: p in n.providers.at ==> n.providers.at[p].id == p
    ensures Tied(OfNode(n, id), key, k) == TiedAt(ProviderLists(n, id), key.providerId, key, k)
    ensures key.nodeId != n.id ==> Tied(OfNode(n, id), key, k) == []
  {
    var lists := ProviderLists(n, id);
    forall p | p in lists
      ensures key.providerId != p || key.nodeId != n.id ==> Tied(lists[p], key, k) == []
    {
      OfProviderIds(n, n.providers.at[p], n.providers.at[p].capabilities, id);
      if key.providerId != p || key.nodeId != n.id {
        TiedNowhere(lists[p], key, k);
      }
    }
    FlatTied(n.providers.order, lists, key.providerId, key, k);
  }

  /** What a snapshot contributes to one key comes from one node. */
  lemma DiscoveredTied(nodes: Dict<Node>, id: string, key: Key, k: Constraints)
    requires ValidSnapshot(nodes) && FiledById(nodes)
    ensures Tied(Discovered(nodes, id), key, k) == TiedAt(NodeLists(nodes, id), key.nodeId, key, k)
  {
    var lists := NodeLists(nodes, id);
    forall n | n in lists && n != key.nodeId
      ensures Tied(lists[n], key, k) == []
    {
      OfNodeTied(nodes.at[n], id, key, k);
    }
    FlatTied(nodes.order, lists, key.nodeId, key, k);
  }

  lemma OfNodeTiesAgree(m: Node, n: Node, id: string, key: Key, k: Constraints)
    requires m.providers.Valid() && n.providers.Valid()
    requires m.providers.at == n.providers.at && m.(providers := n.providers) == n
    requires forall p :: p in m.providers.at ==> m.providers.at[p].id == p
    ensures Tied(OfNode(m, id), key, k) == Tied(OfNode(n, id), key, k)
  {
    OfNodeTied(m, id, key, k);
    OfNodeTied(n, id, key, k);
    var p := key.providerId;
    if p in m.providers.at {
      OfProviderAgrees(m, n, m.providers.at[p], m.providers.at[p].capabilities, id);
    }
  }

  /** When every node and provider is stored under its own id, candidates with one ranking key come from one list of
      capabilities, whose order is no dictionary's: the choice then never depends on an insertion order. */
  lemma {:induction false} FiledSnapshotsChooseAlike(a: Dict<Node>, b: Dict<Node>, id: string, k: Constraints)
    requires ValidSnapshot(a) && ValidSnapshot(b) && SameSnapshot(a, b) && FiledById(a)
    ensures SameChoice(Discovered(a, id), Discovered(b, id), k)
  {
    forall key
      ensures Tied(Discovered(a, id), key, k) == Tied(Discovered(b, id), key, k)
    {
      FiledAlike(a, b);
      DiscoveredTied(a, id, key, k);
      DiscoveredTied(b, id, key, k);
      if key.nodeId in a.at {
        OfNodeTiesAgree(a.at[key.nodeId], b.at[key.nodeId], id, key, k);
      }
    }
    SameTiesSameChoice(Discovered(a, id), Discovered(b, id), k);
  }

  lemma FiledAlike(a: Dict<Node>, b: Dict<Node>)
    requires SameSnapshot(a, b) && FiledById(a)
    ensures FiledById(b)
  {
    forall n | n in b.at
      ensures b.at[n].id == n && b.at[n].providers.at == a.at[n].providers.at
    {
      assert a.at[n].(providers := b.at[n].providers) == b.at[n];
    }
  }
}
