/** The data that a sync envelope's signature covers: get_signable_bytes of
    src/shyam/sync/serializer.py over the fields of src/shyam/sync/models.py. Lists that the source
    builds from sets are written in string order. */
module SyncSigning {
  import opened Ordering
  import opened Canonical
  import opened SyncModel

  lemma {:induction false} LeastExists(s: set<string>)
    requires s != {}
    ensures exists m :: IsLeast(m, s)
  {
    var a :| a in s;
    StrReflexive(a);
    if s == {a} {
      assert IsLeast(a, s);
    } else {
      LeastExists(s - {a});
      var m :| IsLeast(m, s - {a});
      LeastOfTwo(s, a, m);
    }
  }

  predicate IsLeast(m: string, s: set<string>) {
    m in s && forall x :: x in s ==> StrLe(m, x)
  }

  lemma LeastOfTwo(s: set<string>, a: string, m: string)
    requires a in s && IsLeast(m, s - {a})
    ensures IsLeast(a, s) || IsLeast(m, s)
  {
    StrReflexive(a);
    StrTotal(a, m);
    if StrLe(a, m) {
      forall x | x in s - {a}
        ensures StrLe(a, x)
      {
        StrTransitive(a, m, x);
      }
    }
  }

  lemma LeastUnique(s: set<string>, m: string, n: string)
    requires IsLeast(m, s) && IsLeast(n, s)
    ensures m == n
  {
    StrAntisymmetric(m, n);
  }

  function Least(s: set<string>): (m: string)
    requires s != {}
    ensures IsLeast(m, s)
  {
    LeastExists(s);
    assert forall m, n | IsLeast(m, s) && IsLeast(n, s) :: m == n by {
      forall m, n | IsLeast(m, s) && IsLeast(n, s) ensures m == n { LeastUnique(s, m, n); }
    }
    var m :| IsLeast(m, s);
    m
  }

  function SetTree(s: set<string>): Values {
    if s == {} then Nil else Cons(Text(Least(s)), SetTree(s - {Least(s)}))
  }

  function DictTree(m: map<string, Value>): Entries
    decreases m.Keys
  {
    if m.Keys == {} then End
    else
      var k := Least(m.Keys);
      Entry(k, m[k], DictTree(m - {k}))
  }

  function CapabilityFields(capabilities: Capabilities): map<string, Value> {
    map m | m in capabilities :: List(SetTree(capabilities[m]))
  }

  function AvailabilityFields(availability: Availability): map<string, Value> {
    map m | m in availability :: Text(availability[m])
  }

  function VersionFields(versions: map<string, int>): map<string, Value> {
    map m | m in versions :: Num(versions[m])
  }

  function PayloadFieldsOf(known: Values, capabilities: Entries, availability: Entries): map<string, Value> {
    map["known_node_ids" := List(known),
        "node_capabilities" := Dict(capabilities),
        "node_availability" := Dict(availability)]
  }

  function PayloadFields(p: Payload): map<string, Value> {
    PayloadFieldsOf(SetTree(p.knownNodeIds), DictTree(CapabilityFields(p.facts.capabilities)),
                    DictTree(AvailabilityFields(p.facts.availability)))
  }

  function FieldsOf(e: Envelope, versions: Entries, payload: Entries): map<string, Value> {
    map["sender_node_id" := Text(e.sender),
        "sender_public_key" := Text(e.senderKey),
        "protocol_version" := Text(e.protocol),
        "message_type" := Text(e.messageType),
        "version_map" := Dict(versions),
        "payload" := Dict(payload),
        "message_id" := Text(e.messageId)]
  }

  function Fields(e: Envelope): map<string, Value> {
    FieldsOf(e, DictTree(VersionFields(e.versions)), DictTree(PayloadFields(e.payload)))
  }

  /** The model dump without its signature, in canonical form. */
  function Signable(e: Envelope): Value {
    Normalize(Dict(DictTree(Fields(e))))
  }

  lemma {:induction false} DictTreeLooksUp(m: map<string, Value>, k: string)
    ensures HasKey(DictTree(m), k) <==> k in m
    ensures k in m ==> Lookup(DictTree(m), k) == m[k]
    decreases m.Keys
  {
    if m.Keys != {} {
      DictTreeLooksUp(m - {Least(m.Keys)}, k);
    }
  }

  ghost predicate ValuesWellFormed(m: map<string, Value>) {
    forall k :: k in m ==> WellFormed(m[k])
  }

  lemma {:induction false} DictTreeWellFormed(m: map<string, Value>)
    requires ValuesWellFormed(m)
    ensures EntriesWellFormed(DictTree(m))
    decreases m.Keys
  {
    if m.Keys != {} {
      DictTreeWellFormed(m - {Least(m.Keys)});
      DictTreeLooksUp(m - {Least(m.Keys)}, Least(m.Keys));
    }
  }

  lemma {:induction false} SetTreeWellFormed(s: set<string>)
    ensures AllWellFormed(SetTree(s))
  {
    if s != {} {
      SetTreeWellFormed(s - {Least(s)});
    }
  }

  lemma {:induction false} SetTreeInjective(s: set<string>, t: set<string>)
    requires AllEquivalent(SetTree(s), SetTree(t))
    ensures s == t
  {
    if s != {} {
      assert t != {} && Least(s) == Least(t);
      SetTreeInjective(s - {Least(s)}, t - {Least(t)});
      assert s == (s - {Least(s)}) + {Least(s)};
      assert t == (t - {Least(t)}) + {Least(t)};
    }
  }

  lemma {:induction false} AgreeAt(xs: Entries, ys: Entries, k: string)
    requires EntriesAgree(xs, ys) && HasKey(xs, k)
    ensures HasKey(ys, k) && Equivalent(Lookup(xs, k), Lookup(ys, k))
  {
    if xs.key != k {
      AgreeAt(xs.rest, ys, k);
    }
  }

  ghost predicate FieldAgrees(m: map<string, Value>, n: map<string, Value>, k: string) {
    (k in m <==> k in n) && (k in m && k in n ==> Equivalent(m[k], n[k]))
  }

  /** Equivalent dictionaries of two maps: the same keys, and equivalent values under each. */
  lemma DictTreesAgree(m: map<string, Value>, n: map<string, Value>)
    requires Equivalent(Dict(DictTree(m)), Dict(DictTree(n)))
    ensures forall k :: FieldAgrees(m, n, k)
  {
    forall k
      ensures FieldAgrees(m, n, k)
    {
      DictTreeLooksUp(m, k);
      DictTreeLooksUp(n, k);
      if k in m {
        AgreeAt(DictTree(m), DictTree(n), k);
      }
    }
  }

  lemma CapabilitiesCovered(a: Capabilities, b: Capabilities)
    requires Equivalent(Dict(DictTree(CapabilityFields(a))), Dict(DictTree(CapabilityFields(b))))
    ensures a == b
  {
    var x, y := CapabilityFields(a), CapabilityFields(b);
    DictTreesAgree(x, y);
    forall m
      ensures m in a <==> m in b
      ensures m in a && m in b ==> a[m] == b[m]
    {
      assert FieldAgrees(x, y, m);
      if m in a && m in b {
        SetTreeInjective(a[m], b[m]);
      }
    }
  }

  lemma AvailabilityCovered(a: Availability, b: Availability)
    requires Equivalent(Dict(DictTree(AvailabilityFields(a))), Dict(DictTree(AvailabilityFields(b))))
    ensures a == b
  {
    DictTreesAgree(AvailabilityFields(a), AvailabilityFields(b));
    forall m
      ensures m in a <==> m in b
      ensures m in a && m in b ==> a[m] == b[m]
    {
      assert FieldAgrees(AvailabilityFields(a), AvailabilityFields(b), m);
    }
  }

  lemma VersionsCovered(a: map<string, int>, b: map<string, int>)
    requires Equivalent(Dict(DictTree(VersionFields(a))), Dict(DictTree(VersionFields(b))))
    ensures a == b
  {
    DictTreesAgree(VersionFields(a), VersionFields(b));
    forall m
      ensures m in a <==> m in b
      ensures m in a && m in b ==> a[m] == b[m]
    {
      assert FieldAgrees(VersionFields(a), VersionFields(b), m);
    }
  }

  predicate HasPayloadFields(m: map<string, Value>, known: Values, capabilities: Entries, availability: Entries) {
    && "known_node_ids" in m && m["known_node_ids"] == List(known)
    && "node_capabilities" in m && m["node_capabilities"] == Dict(capabilities)
    && "node_availability" in m && m["node_availability"] == Dict(availability)
  }

  lemma PayloadFieldsAt(known: Values, capabilities: Entries, availability: Entries)
    ensures HasPayloadFields(PayloadFieldsOf(known, capabilities, availability), known, capabilities, availability)
  {
  }

  lemma AgreeUnder(m: map<string, Value>, n: map<string, Value>, k: string, x: Value, y: Value)
    requires FieldAgrees(m, n, k) && k in m && k in n && m[k] == x && n[k] == y
    ensures Equivalent(x, y)
  {
  }

  lemma PayloadFieldsAgree(
      m: map<string, Value>, known: Values, capabilities: Entries, availability: Entries,
      n: map<string, Value>, known': Values, capabilities': Entries, availability': Entries)
    requires HasPayloadFields(m, known, capabilities, availability)
    requires HasPayloadFields(n, known', capabilities', availability')
    requires forall k :: FieldAgrees(m, n, k)
    ensures Equivalent(List(known), List(known'))
    ensures Equivalent(Dict(capabilities), Dict(capabilities')) && Equivalent(Dict(availability), Dict(availability'))
  {
    AgreeUnder(m, n, "known_node_ids", List(known), List(known'));
    AgreeUnder(m, n, "node_capabilities", Dict(capabilities), Dict(capabilities'));
    AgreeUnder(m, n, "node_availability", Dict(availability), Dict(availability'));
  }

  lemma PayloadCovered(p: Payload, q: Payload)
    requires Equivalent(Dict(DictTree(PayloadFields(p))), Dict(DictTree(PayloadFields(q))))
    ensures p == q
  {
    DictTreesAgree(PayloadFields(p), PayloadFields(q));
    var known, capabilities, availability :=
      SetTree(p.knownNodeIds), DictTree(CapabilityFields(p.facts.capabilities)),
      DictTree(AvailabilityFields(p.facts.availability));
    var known', capabilities', availability' :=
      SetTree(q.knownNodeIds), DictTree(CapabilityFields(q.facts.capabilities)),
      DictTree(AvailabilityFields(q.facts.availability));
    PayloadFieldsAt(known, capabilities, availability);
    PayloadFieldsAt(known', capabilities', availability');
    PayloadFieldsAgree(PayloadFields(p), known, capabilities, availability,
                       PayloadFields(q), known', capabilities', availability');
    SetTreeInjective(p.knownNodeIds, q.knownNodeIds);
    CapabilitiesCovered(p.facts.capabilities, q.facts.capabilities);
    AvailabilityCovered(p.facts.availability, q.facts.availability);
  }

  lemma PayloadFieldsWellFormed(known: Values, capabilities: Entries, availability: Entries)
    requires AllWellFormed(known) && EntriesWellFormed(capabilities) && EntriesWellFormed(availability)
    ensures ValuesWellFormed(PayloadFieldsOf(known, capabilities, availability))
  {
  }

  lemma CapabilitiesWellFormed(capabilities: Capabilities)
    ensures EntriesWellFormed(DictTree(CapabilityFields(capabilities)))
  {
    forall m | m in capabilities
      ensures WellFormed(List(SetTree(capabilities[m])))
    {
      SetTreeWellFormed(capabilities[m]);
    }
    DictTreeWellFormed(CapabilityFields(capabilities));
  }

  lemma PayloadWellFormed(p: Payload)
    ensures EntriesWellFormed(DictTree(PayloadFields(p)))
  {
    SetTreeWellFormed(p.knownNodeIds);
    CapabilitiesWellFormed(p.facts.capabilities);
    DictTreeWellFormed(AvailabilityFields(p.facts.availability));
    PayloadFieldsWellFormed(SetTree(p.knownNodeIds), DictTree(CapabilityFields(p.facts.capabilities)),
                            DictTree(AvailabilityFields(p.facts.availability)));
    DictTreeWellFormed(PayloadFields(p));
  }

  lemma FieldsOfWellFormed(e: Envelope, versions: Entries, payload: Entries)
    requires EntriesWellFormed(versions) && EntriesWellFormed(payload)
    ensures ValuesWellFormed(FieldsOf(e, versions, payload))
  {
  }

  lemma FieldsWellFormed(e: Envelope)
    ensures EntriesWellFormed(DictTree(Fields(e)))
  {
    PayloadWellFormed(e.payload);
    DictTreeWellFormed(VersionFields(e.versions));
    FieldsOfWellFormed(e, DictTree(VersionFields(e.versions)), DictTree(PayloadFields(e.payload)));
    DictTreeWellFormed(Fields(e));
  }

  /** A signature covers every field except itself, and nothing but the logical content. */
  lemma SignableCoversEverything(e: Envelope, d: Envelope)
    ensures Signable(e) == Signable(d) <==> e.(signature := "") == d.(signature := "")
  {
    if Signable(e) == Signable(d) {
      FieldsWellFormed(e);
      FieldsWellFormed(d);
      CanonicalExactly(Dict(DictTree(Fields(e))), Dict(DictTree(Fields(d))));
      FieldsCovered(e, d);
    } else {
      assert Fields(e) != Fields(d);
    }
  }

  lemma SenderAgrees(
      e: Envelope, versions: Entries, payload: Entries, d: Envelope, versions': Entries, payload': Entries)
    requires forall k :: FieldAgrees(FieldsOf(e, versions, payload), FieldsOf(d, versions', payload'), k)
    ensures e.sender == d.sender && e.senderKey == d.senderKey
  {
    assert FieldAgrees(FieldsOf(e, versions, payload), FieldsOf(d, versions', payload'), "sender_node_id");
    assert FieldAgrees(FieldsOf(e, versions, payload), FieldsOf(d, versions', payload'), "sender_public_key");
  }

  lemma MessageAgrees(
      e: Envelope, versions: Entries, payload: Entries, d: Envelope, versions': Entries, payload': Entries)
    requires forall k :: FieldAgrees(FieldsOf(e, versions, payload), FieldsOf(d, versions', payload'), k)
    ensures e.protocol == d.protocol && e.messageType == d.messageType && e.messageId == d.messageId
  {
    assert FieldAgrees(FieldsOf(e, versions, payload), FieldsOf(d, versions', payload'), "protocol_version");
    assert FieldAgrees(FieldsOf(e, versions, payload), FieldsOf(d, versions', payload'), "message_type");
    assert FieldAgrees(FieldsOf(e, versions, payload), FieldsOf(d, versions', payload'), "message_id");
  }

  predicate HasState(m: map<string, Value>, versions: Entries, payload: Entries) {
    && "version_map" in m && m["version_map"] == Dict(versions)
    && "payload" in m && m["payload"] == Dict(payload)
  }

  lemma StateFields(e: Envelope, versions: Entries, payload: Entries)
    ensures HasState(FieldsOf(e, versions, payload), versions, payload)
  {
  }

  lemma StateAgrees(m: map<string, Value>, versions: Entries, payload: Entries,
                    n: map<string, Value>, versions': Entries, payload': Entries)
    requires HasState(m, versions, payload) && HasState(n, versions', payload') && forall k :: FieldAgrees(m, n, k)
    ensures Equivalent(Dict(versions), Dict(versions')) && Equivalent(Dict(payload), Dict(payload'))
  {
    AgreeUnder(m, n, "version_map", Dict(versions), Dict(versions'));
    AgreeUnder(m, n, "payload", Dict(payload), Dict(payload'));
  }

  lemma FieldsCovered(e: Envelope, d: Envelope)
    requires Equivalent(Dict(DictTree(Fields(e))), Dict(DictTree(Fields(d))))
    ensures e.(signature := "") == d.(signature := "")
  {
    DictTreesAgree(Fields(e), Fields(d));
    var v, p := DictTree(VersionFields(e.versions)), DictTree(PayloadFields(e.payload));
    var v', p' := DictTree(VersionFields(d.versions)), DictTree(PayloadFields(d.payload));
    SenderAgrees(e, v, p, d, v', p');
    MessageAgrees(e, v, p, d, v', p');
    StateFields(e, v, p);
    StateFields(d, v', p');
    StateAgrees(Fields(e), v, p, Fields(d), v', p');
    VersionsCovered(e.versions, d.versions);
    PayloadCovered(e.payload, d.payload);
  }
}
