/** What the authority admits: src/shyam/bootstrap/service.py. */
module BootstrapAdmission {
  import opened Options
  import opened Trust
  import opened Authenticator
  import opened Bootstrap

  /** The request carries a signature by the key that it carries. */
  predicate IsSigned(scheme: Scheme, r: Request) {
    scheme.verify(r.publicKey, RequestText(r), r.signature)
  }

  /** The first eight characters, or all. */
  predicate IsShort(short: string, s: string) {
    short <= s && (|short| == 8 || (|short| < 8 && short == s))
  }

  /** The record of an admitted node, given its record before. */
  ghost predicate Admits(before: TrustRecord, r: Request, after: TrustRecord) {
    && after.status == Trusted && after.relationship == Peer
    && after.nodeId == before.nodeId && after.metadata == before.metadata
    && (r.publicKey != "" ==> after.publicKey == Some(r.publicKey))
    && (r.nodeName != "" ==> after.alias == r.nodeName)
    && (r.nodeName == "" ==> exists short :: after.alias == "node-" + short && IsShort(short, r.nodeId))
  }

  /** A request is accepted exactly when its signature verifies under the key it carries and the node it names is not
      REVOKED; the signature is checked first. A refused request leaves every record alone, an accepted one changes the
      record of the node it names and no other, and only it is told who the authority is. */
  lemma {:induction false} AcceptedExactly(scheme: Scheme, trust: TrustState, authorityId: string,
                                           authorityKey: string, r: Request)
    ensures
      var (after, response) := Handle(scheme, trust, authorityId, authorityKey, r);
      var revoked := RecordOf(trust, r.nodeId).status == Revoked;
      && (response.accepted <==> IsSigned(scheme, r) && !revoked)
      && (response.outcome == RejectedSignature <==> !IsSigned(scheme, r))
      && (response.outcome == RejectedByRevocation <==> IsSigned(scheme, r) && revoked)
      && response.requestId == r.requestId
      && (response.authorityNodeId, response.authorityKey) ==
         (if response.accepted then (authorityId, authorityKey) else ("", ""))
      && (forall n | n != r.nodeId || !response.accepted :: RecordOf(after, n) == RecordOf(trust, n))
      && (response.accepted ==>
            Mirrored(after) && Admits(RecordOf(trust, r.nodeId), r, RecordOf(after, r.nodeId)))
  {
    assert IsShort(if |r.nodeId| < 8 then r.nodeId else r.nodeId[..8], r.nodeId);
  }

  /** The request names the node and is signed. */
  predicate Speaks(scheme: Scheme, r: Request, n: string) {
    r.nodeId == n && IsSigned(scheme, r)
  }

  ghost predicate Spoken(scheme: Scheme, rs: seq<Request>, n: string) {
    exists r :: r in rs && Speaks(scheme, r, n)
  }

  /** Over any sequence of requests, the record of a node changes only when some signed request names it, and then the
      node was not REVOKED and becomes TRUSTED. */
  lemma {:induction false} RecordChangesWhenSpoken(scheme: Scheme, trust: TrustState, authorityId: string,
                                                   authorityKey: string, rs: seq<Request>, n: string)
    ensures
      var after := HandleAll(scheme, trust, authorityId, authorityKey, rs);
      if RecordOf(trust, n).status == Revoked || !Spoken(scheme, rs, n)
      then RecordOf(after, n) == RecordOf(trust, n)
      else RecordOf(after, n).status == Trusted
    decreases |rs|
  {
    if rs != [] {
      AcceptedExactly(scheme, trust, authorityId, authorityKey, rs[0]);
      var next := Handle(scheme, trust, authorityId, authorityKey, rs[0]).0;
      RecordChangesWhenSpoken(scheme, next, authorityId, authorityKey, rs[1..], n);
      assert Spoken(scheme, rs, n) <==> Speaks(scheme, rs[0], n) || Spoken(scheme, rs[1..], n) by {
        assert forall r :: r in rs <==> r == rs[0] || r in rs[1..];
      }
    }
  }

  // ---- The client's side ----

  /** The place of a state on the way from UNINITIALIZED to READY; the other three end the session. */
  function Place(s: State): Option<nat> {
    match s
    case Uninitialized => Some(0)
    case IdentityReady => Some(1)
    case BootstrapRequested => Some(2)
    case Authenticating => Some(3)
    case TrustEstablished => Some(4)
    case StateInitializing => Some(5)
    case Syncing => Some(6)
    case Ready => Some(7)
    case _ => None
  }

  /** A session goes one place further, or ends: FAILED or CANCELLED from AUTHENTICATING on, REJECTED only there. READY,
      FAILED, REJECTED and CANCELLED are final. */
  lemma LegalExactly(from: State, to: State)
    ensures
      to in Successors(from) <==>
        && Place(from).Some? && from != Ready
        && match to
           case Failed => Place(from).value >= 3
           case Cancelled => Place(from).value >= 3
           case Rejected => from == Authenticating
           case _ => Place(to).value == Place(from).value + 1
    ensures Transition(from, to) == if to in Successors(from) then Some(to) else None
  {
  }

  /** A node's own request is signed with its key and says who it is. */
  lemma RequestIsSigned(scheme: Scheme, key: int, identity: Identity, id: string, timestamp: string)
    requires Correct(scheme)
    ensures
      var r := SignedRequest(scheme, key, identity, id, timestamp);
      && IsSigned(scheme, r) && r.publicKey == scheme.publicKey(key)
      && r.requestId == id && r.nodeId == identity.nodeId && r.nodeName == identity.nodeName && r.timestamp == timestamp
  {
    var r := SignedRequest(scheme, key, identity, id, timestamp);
    assert RequestText(r.(signature := "")) == RequestText(r);
    assert scheme.verify(scheme.publicKey(key), RequestText(r), scheme.sign(key, RequestText(r)));
  }

  /** The session ends FAILED when the transport raises, REJECTED on a refusal, READY on an acceptance; only the last
      touches the records, and of those in memory only the authority's, which pins the key that came with the reply. */
  lemma {:induction false} ClientEndsExactly(trust: TrustState, reply: Reply)
    ensures
      var (after, state) := Complete(trust, reply);
      var accepted := reply.Replied? && reply.response.accepted;
      && (state == Failed <==> reply.TransportFailed?)
      && (state == Bootstrap.Rejected <==> reply.Replied? && !reply.response.accepted)
      && (state == Ready <==> accepted)
      && (!accepted ==> after == trust)
      && (accepted ==>
            var n := reply.response.authorityNodeId;
            var record := RecordOf(after, n);
            && record.status == Trusted && record.relationship == Infrastructure
            && record.alias == "Bootstrap Authority"
            && (reply.response.authorityKey != "" ==> record.publicKey == Some(reply.response.authorityKey))
            && (forall m | m != n :: m in trust.records <==> m in after.records)
            && (forall m | m != n && m in trust.records :: after.records[m] == trust.records[m])
            && Mirrored(after))
  {
  }

  // ---- What a request signs ----

  predicate Unseparated(s: string) {
    ':' !in s
  }

  lemma {:induction false} SplitOnce(a: string, b: string, x: string, y: string)
    requires Unseparated(a) && Unseparated(b) && a + ":" + x == b + ":" + y
    ensures a == b && x == y
  {
    if a == [] || b == [] {
      assert (a + ":" + x)[0] == (b + ":" + y)[0];
    } else {
      assert (a + ":" + x)[0] == a[0] && (b + ":" + y)[0] == b[0];
      assert (a + ":" + x)[1..] == a[1..] + ":" + x && (b + ":" + y)[1..] == b[1..] + ":" + y;
      SplitOnce(a[1..], b[1..], x, y);
      assert a == [a[0]] + a[1..] && b == [b[0]] + b[1..];
    }
    if a == b {
      assert (a + ":" + x)[|a| + 1..] == x && (b + ":" + y)[|b| + 1..] == y;
    }
  }

  /** When the ids and keys hold no colon, as UUIDs and base64 do not, two requests sign the same text exactly when they
      agree on request, node, key and time; the node's name and the signature are not signed. */
  lemma {:induction false} SignedTextExactly(r: Request, s: Request)
    requires Unseparated(r.requestId) && Unseparated(r.nodeId) && Unseparated(r.publicKey)
    requires Unseparated(s.requestId) && Unseparated(s.nodeId) && Unseparated(s.publicKey)
    ensures
      RequestText(r) == RequestText(s) <==>
      (r.requestId, r.nodeId, r.publicKey, r.timestamp) == (s.requestId, s.nodeId, s.publicKey, s.timestamp)
  {
    if RequestText(r) == RequestText(s) {
      var rest := r.nodeId + ":" + (r.publicKey + ":" + r.timestamp);
      var rest' := s.nodeId + ":" + (s.publicKey + ":" + s.timestamp);
      assert RequestText(r).text == r.requestId + ":" + rest && RequestText(s).text == s.requestId + ":" + rest';
      SplitOnce(r.requestId, s.requestId, rest, rest');
      SplitOnce(r.nodeId, s.nodeId, r.publicKey + ":" + r.timestamp, s.publicKey + ":" + s.timestamp);
      SplitOnce(r.publicKey, s.publicKey, r.timestamp, s.timestamp);
    }
  }

  /** With colons in the ids, different requests can sign the same text. */
  lemma ColonsConfuse(publicKey: string, timestamp: string, name: string)
    ensures
      RequestText(Request("a", "b:c", publicKey, name, timestamp, ""))
      == RequestText(Request("a:b", "c", publicKey, name, timestamp, ""))
  {
    assert "a" + ":" + "b:c" == "a:b" + ":" + "c";
  }
}
