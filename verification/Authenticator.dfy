/** The gate in front of sync: src/shyam/sync/authenticator.py. Keys and signatures are those of an
    arbitrary scheme; base64 and Ed25519 are inside it. */
module Authenticator {
  import opened Options
  import opened Canonical
  import opened SyncModel
  import opened SyncSigning
  import opened Trust

  datatype Scheme = Scheme(
    publicKey: int -> string,
    sign: (int, Value) -> string,
    verify: (string, Value, string) -> bool)

  /** What is asked of a scheme: a key verifies what it signed, and neither text is empty. */
  ghost predicate Correct(scheme: Scheme) {
    && (forall key: int :: scheme.publicKey(key) != "")
    && (forall key: int, data: Value :: scheme.sign(key, data) != "")
    && (forall key: int, data: Value :: scheme.verify(scheme.publicKey(key), data, scheme.sign(key, data)))
  }

  function SignEnvelope(scheme: Scheme, e: Envelope, key: int): Envelope {
    e.(signature := scheme.sign(key, Signable(e)))
  }

  /** The checks that need no trust record: Some(outcome) rejects. */
  function Precheck(e: Envelope): Option<Outcome> {
    if e.protocol != SYNC_PROTOCOL_VERSION then Some(RejectedProtocolMismatch)
    else if e.signature == "" then Some(RejectedInvalidSignature)
    else if e.sender == "" then Some(RejectedMalformed)
    else None
  }

  function CheckRecord(scheme: Scheme, record: TrustRecord, e: Envelope): Option<Outcome> {
    var pinned := if record.publicKey.Some? then record.publicKey.value else "";
    var key := OrText(pinned, e.senderKey);
    if record.status == Revoked then Some(RejectedRevoked)
    else if record.status != Trusted then Some(RejectedUntrusted)
    else if pinned != "" && pinned != e.senderKey then Some(RejectedInvalidSignature)
    else if key == "" then Some(RejectedMalformed)
    else if !scheme.verify(key, Signable(e), e.signature) then Some(RejectedInvalidSignature)
    else None
  }

  /** None: the envelope is authentic. */
  function Authenticate(scheme: Scheme, trust: TrustState, e: Envelope): Option<Outcome> {
    var early := Precheck(e);
    if early.Some? then early else CheckRecord(scheme, RecordOf(trust, e.sender), e)
  }

  /** The records are loaded when they are consulted, which a well-formed envelope makes happen. */
  function Consulted(trust: TrustState, e: Envelope): TrustState {
    if Precheck(e).Some? then trust else Loaded(trust)
  }

  /** An envelope that a node signs with its own key passes exactly at the peers that trust the node
      and have pinned that key or no key. */
  lemma SignedPassesExactly(scheme: Scheme, trust: TrustState, node: Node, key: int,
                            messageType: string, id: MessageId)
    requires Correct(scheme)
    ensures
      var e := SignEnvelope(scheme, Snapshot(node, scheme.publicKey(key), messageType, id), key);
      var record := RecordOf(trust, node.id);
      Authenticate(scheme, trust, e) == None <==>
        && node.id != ""
        && record.status == Trusted
        && (record.publicKey == None || record.publicKey.value in {"", scheme.publicKey(key)})
  {
    var bare := Snapshot(node, scheme.publicKey(key), messageType, id);
    assert scheme.verify(scheme.publicKey(key), Signable(bare), scheme.sign(key, Signable(bare)));
  }

  /** An authentic envelope carries a signature, over every field but itself, that verifies under the
      key that its TRUSTED sender's record pins, if it pins one. */
  lemma AuthenticMeans(scheme: Scheme, trust: TrustState, e: Envelope)
    requires Authenticate(scheme, trust, e) == None
    ensures
      var record := RecordOf(trust, e.sender);
      && record.status == Trusted
      && e.senderKey != ""
      && scheme.verify(e.senderKey, Signable(e), e.signature)
      && (record.publicKey.Some? && record.publicKey.value != "" ==> record.publicKey.value == e.senderKey)
  {
  }

  /** The sender's record has a key. */
  predicate Pins(trust: TrustState, e: Envelope) {
    RecordOf(trust, e.sender).publicKey.Some? && RecordOf(trust, e.sender).publicKey.value != ""
  }

  /** The trust record is consulted before the signature: whatever is signed, a well-formed envelope of a revoked or
      unknown sender is refused as such, and of no other sender. One of a trusted sender is refused exactly when it
      carries another key than the pinned one or does not verify under the key that it carries. */
  lemma RejectionExactly(scheme: Scheme, trust: TrustState, e: Envelope)
    ensures
      var outcome, status := Authenticate(scheme, trust, e), RecordOf(trust, e.sender).status;
      var wellFormed := e.protocol == SYNC_PROTOCOL_VERSION && e.signature != "" && e.sender != "";
      && (outcome == Some(RejectedRevoked) <==> wellFormed && status == Revoked)
      && (outcome == Some(RejectedUntrusted) <==> wellFormed && status == Unknown)
      && (outcome == Some(RejectedProtocolMismatch) <==> e.protocol != SYNC_PROTOCOL_VERSION)
      && (outcome == Some(RejectedMalformed) <==>
            && e.protocol == SYNC_PROTOCOL_VERSION && e.signature != ""
            && (e.sender == "" || (status == Trusted && e.senderKey == "" && !Pins(trust, e))))
      && (outcome == Some(RejectedInvalidSignature) <==>
            && e.protocol == SYNC_PROTOCOL_VERSION
            && (e.signature == ""
                || (&& e.sender != "" && status == Trusted && (e.senderKey != "" || Pins(trust, e))
                    && !(&& scheme.verify(e.senderKey, Signable(e), e.signature)
                         && (Pins(trust, e) ==> RecordOf(trust, e.sender).publicKey == Some(e.senderKey))))))
      && outcome !in {Some(Applied), Some(AlreadyCurrent), Some(Conflict)}
  {
  }
}
