/** Which field of an envelope is signed under which name: src/shyam/sync/serializer.py. */
module SignedFields {
  import opened Canonical
  import opened SyncModel
  import opened SyncSigning

  /** The dictionary holds this value under the key. */
  predicate Under(v: Value, key: string, w: Value) {
    v.Dict? && HasKey(v.entries, key) && Lookup(v.entries, key) == w
  }

  predicate Contains(vs: Values, v: Value) {
    vs.Cons? && (vs.head == v || Contains(vs.tail, v))
  }

  /** A sorted dictionary with exactly the keys of the map. */
  ghost predicate HasKeys<T>(v: Value, m: map<string, T>) {
    v.Dict? && Sorted(v.entries) && DistinctKeys(v.entries) && forall k :: HasKey(v.entries, k) <==> k in m
  }

  /** A list of exactly these texts. */
  ghost predicate IsSetOf(v: Value, s: set<string>) {
    v.List? && forall x :: Contains(v.items, Text(x)) <==> x in s
  }

  lemma {:induction false} SetTreeHolds(s: set<string>, x: string)
    ensures NormalizeAll(SetTree(s)) == SetTree(s)
    ensures Contains(SetTree(s), Text(x)) <==> x in s
  {
    if s != {} {
      SetTreeHolds(s - {Least(s)}, x);
    }
  }

  lemma NormalSet(s: set<string>)
    ensures IsSetOf(Normalize(List(SetTree(s))), s)
  {
    SetTreeHolds(s, "");
    forall x
      ensures Contains(SetTree(s), Text(x)) <==> x in s
    {
      SetTreeHolds(s, x);
    }
  }

  lemma NormalFields(m: map<string, Value>)
    requires EntriesWellFormed(DictTree(m))
    ensures HasKeys(Normalize(Dict(DictTree(m))), m)
    ensures forall k :: k in m ==> Under(Normalize(Dict(DictTree(m))), k, Normalize(m[k]))
  {
    NormalDict(DictTree(m), "");
    forall k
      ensures HasKey(Normalize(Dict(DictTree(m))).entries, k) <==> k in m
      ensures k in m ==> Under(Normalize(Dict(DictTree(m))), k, Normalize(m[k]))
    {
      NormalDict(DictTree(m), k);
      DictTreeLooksUp(m, k);
    }
  }

  ghost predicate IsVersions(v: Value, versions: map<string, int>) {
    HasKeys(v, versions) && forall n :: n in versions ==> Under(v, n, Num(versions[n]))
  }

  ghost predicate IsAvailability(v: Value, availability: Availability) {
    HasKeys(v, availability) && forall n :: n in availability ==> Under(v, n, Text(availability[n]))
  }

  ghost predicate IsCapabilities(v: Value, capabilities: Capabilities) {
    HasKeys(v, capabilities)
    && forall n :: n in capabilities ==> HasKey(v.entries, n) && IsSetOf(Lookup(v.entries, n), capabilities[n])
  }

  ghost predicate IsPayload(v: Value, p: Payload) {
    && v.Dict? && (forall k :: HasKey(v.entries, k) <==> k in PAYLOAD_NAMES)
    && IsSetOf(Lookup(v.entries, "known_node_ids"), p.knownNodeIds)
    && IsCapabilities(Lookup(v.entries, "node_capabilities"), p.facts.capabilities)
    && IsAvailability(Lookup(v.entries, "node_availability"), p.facts.availability)
  }

  lemma PayloadFieldsAre(p: Payload)
    ensures IsPayload(Normalize(Dict(DictTree(PayloadFields(p)))), p)
  {
    PayloadWellFormed(p);
    NormalFields(PayloadFields(p));
    NamedPayload(SetTree(p.knownNodeIds), DictTree(CapabilityFields(p.facts.capabilities)),
                 DictTree(AvailabilityFields(p.facts.availability)));
    NormalSet(p.knownNodeIds);
    CapabilitiesAre(p.facts.capabilities);
    AvailabilityIs(p.facts.availability);
  }

  lemma NamedPayload(known: Values, capabilities: Entries, availability: Entries)
    ensures
      var m := PayloadFieldsOf(known, capabilities, availability);
      && m.Keys == PAYLOAD_NAMES
      && m["known_node_ids"] == List(known) && m["node_capabilities"] == Dict(capabilities)
      && m["node_availability"] == Dict(availability)
  {
  }

  const PAYLOAD_NAMES := {"known_node_ids", "node_capabilities", "node_availability"}

  lemma CapabilitiesAre(capabilities: Capabilities)
    ensures IsCapabilities(Normalize(Dict(DictTree(CapabilityFields(capabilities)))), capabilities)
  {
    CapabilitiesWellFormed(capabilities);
    NormalFields(CapabilityFields(capabilities));
    forall n | n in capabilities
      ensures IsSetOf(Normalize(CapabilityFields(capabilities)[n]), capabilities[n])
    {
      NormalSet(capabilities[n]);
    }
    assert forall k :: k in CapabilityFields(capabilities) <==> k in capabilities;
  }

  lemma AvailabilityIs(availability: Availability)
    ensures IsAvailability(Normalize(Dict(DictTree(AvailabilityFields(availability)))), availability)
  {
    DictTreeWellFormed(AvailabilityFields(availability));
    NormalFields(AvailabilityFields(availability));
    assert forall k :: k in AvailabilityFields(availability) <==> k in availability;
  }

  lemma VersionsAre(versions: map<string, int>)
    ensures IsVersions(Normalize(Dict(DictTree(VersionFields(versions)))), versions)
  {
    DictTreeWellFormed(VersionFields(versions));
    NormalFields(VersionFields(versions));
    assert forall k :: k in VersionFields(versions) <==> k in versions;
  }

  const NAMES := {
    "sender_node_id", "sender_public_key", "protocol_version", "message_type", "version_map", "payload", "message_id"}

  /** The signed tree has exactly the envelope's fields but the signature, each under its own name. */
  lemma {:induction false} SignableFields(e: Envelope)
    ensures
      var s := Signable(e);
      && s.Dict? && Sorted(s.entries) && (forall k :: HasKey(s.entries, k) <==> k in NAMES)
      && Under(s, "sender_node_id", Text(e.sender)) && Under(s, "sender_public_key", Text(e.senderKey))
      && Under(s, "protocol_version", Text(e.protocol)) && Under(s, "message_type", Text(e.messageType))
      && Under(s, "message_id", Text(e.messageId))
      && IsVersions(Lookup(s.entries, "version_map"), e.versions)
      && IsPayload(Lookup(s.entries, "payload"), e.payload)
  {
    FieldsWellFormed(e);
    NormalFields(Fields(e));
    NamedFields(e, DictTree(VersionFields(e.versions)), DictTree(PayloadFields(e.payload)));
    VersionsAre(e.versions);
    PayloadFieldsAre(e.payload);
  }

  lemma NamedFields(e: Envelope, versions: Entries, payload: Entries)
    ensures
      var m := FieldsOf(e, versions, payload);
      && m.Keys == NAMES
      && m["sender_node_id"] == Text(e.sender) && m["sender_public_key"] == Text(e.senderKey)
      && m["protocol_version"] == Text(e.protocol) && m["message_type"] == Text(e.messageType)
      && m["message_id"] == Text(e.messageId)
      && m["version_map"] == Dict(versions) && m["payload"] == Dict(payload)
  {
  }
}
