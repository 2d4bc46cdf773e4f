/** src/shyam/sync/service.py: the service whose fields are updated in place. Each method is proved
    against the values of SyncModel, over which SyncNetwork and SyncTheorems reason. */
module SyncService {
  import opened Options
  import opened Versions
  import opened SyncModel
  import opened Trust
  import opened Authenticator

  class SyncService {
    const localNodeId: NodeId
    const key: int
    const scheme: Scheme
    const trust: TrustService
    const maxTrackedMessages: nat
    var versions: VersionMap
    var processedMessageIds: seq<MessageId>
    var syncedCapabilities: Capabilities
    var syncedAvailability: Availability

    function View(): Node
      reads this
    {
      Node(localNodeId, versions, Facts(syncedCapabilities, syncedAvailability),
           processedMessageIds, maxTrackedMessages)
    }

    constructor (id: NodeId, key: int, scheme: Scheme, trust: TrustService, maxTrackedMessages: nat)
      ensures View() == Node(id, map[id := 0], NO_FACTS, [], maxTrackedMessages)
      ensures this.key == key && this.scheme == scheme && this.trust == trust
    {
      this.localNodeId, this.key, this.scheme, this.trust := id, key, scheme, trust;
      this.maxTrackedMessages := maxTrackedMessages;
      versions, processedMessageIds := map[id := 0], [];
      syncedCapabilities, syncedAvailability := map[], map[];
    }

    method IncrementLocalVersion() returns (v: int)
      modifies this
      ensures View() == Updated(old(View()), NO_FACTS)
      ensures v == OwnVersion(View())
    {
      v := GetVersion(versions, localNodeId) + 1;
      versions := WithUpdate(versions, localNodeId, v);
      MergeNothing(syncedCapabilities);
    }

    /** Every listed set is added to the set stored under its node, which starts out empty. */
    method AbsorbCapabilities(items: map<NodeId, set<string>>)
      modifies this`syncedCapabilities
      ensures syncedCapabilities == MergeCapabilities(old(syncedCapabilities), items)
    {
      ghost var before := syncedCapabilities;
      ghost var done: set<NodeId> := {};
      var rest := items.Keys;
      assert MergeCapabilities(before, Those(items, {})) == before by {
        MergeNothing(before);
        assert Those(items, {}) == map[];
      }
      while rest != {}
        invariant done !! rest && done + rest == items.Keys
        invariant syncedCapabilities == MergeCapabilities(before, Those(items, done))
      {
        var n :| n in rest;
        AbsorbOne(before, items, done, n);
        if n !in syncedCapabilities {
          syncedCapabilities := syncedCapabilities[n := {}];
        }
        syncedCapabilities := syncedCapabilities[n := syncedCapabilities[n] + items[n]];
        done, rest := done + {n}, rest - {n};
      }
      assert Those(items, done) == items;
    }

    method AbsorbAvailability(items: Availability)
      modifies this`syncedAvailability
      ensures syncedAvailability == old(syncedAvailability) + items
    {
      ghost var before := syncedAvailability;
      var rest := items.Keys;
      while rest != {}
        invariant rest <= items.Keys
        invariant syncedAvailability == before + map m | m in items.Keys - rest :: items[m]
      {
        var n :| n in rest;
        syncedAvailability := syncedAvailability[n := items[n]];
        rest := rest - {n};
      }
      assert (map m | m in items.Keys - rest :: items[m]) == items;
    }

    method UpdateLocalFacts(capabilities: Option<map<NodeId, seq<string>>>, availability: Option<Availability>)
      modifies this
      ensures View() == Updated(old(View()), Observed(capabilities, availability))
    {
      if capabilities.Some? {
        AbsorbCapabilities(map n | n in capabilities.value :: Elements(capabilities.value[n]));
      }
      MergeNothing(old(syncedCapabilities));
      if availability.Some? {
        AbsorbAvailability(availability.value);
      }
      var current := GetVersion(versions, localNodeId);
      versions := WithUpdate(versions, localNodeId, current + 1);
    }

    method CreateSyncEnvelope(messageType: string, messageId: MessageId) returns (e: Envelope)
      ensures e == SignEnvelope(scheme, Snapshot(View(), scheme.publicKey(key), messageType, messageId), key)
    {
      var payload := Payload(versions.Keys + syncedCapabilities.Keys + syncedAvailability.Keys,
                             Facts(syncedCapabilities, syncedAvailability));
      var envelope := Envelope(localNodeId, scheme.publicKey(key), SYNC_PROTOCOL_VERSION, messageType,
                               versions, payload, messageId, "");
      e := SignEnvelope(scheme, envelope, key);
    }

    method AuthenticateIncoming(e: Envelope) returns (rejected: Option<Outcome>)
      modifies trust
      ensures rejected == Authenticate(scheme, old(trust.State()), e)
      ensures trust.State() == Consulted(old(trust.State()), e)
    {
      rejected := Precheck(e);
      if rejected.None? {
        var record := trust.GetRecord(e.sender);
        rejected := CheckRecord(scheme, record, e);
      }
    }

    method MergeEnvelope(e: Envelope)
      modifies this
      ensures View() == old(View()).(
        facts := JoinFacts(old(View()).facts, e.payload.facts),
        versions := Merge(old(View()).versions, e.versions),
        processed := Remember(old(View()).processed, e.messageId, maxTrackedMessages))
    {
      AbsorbCapabilities(e.payload.facts.capabilities);
      AbsorbAvailability(e.payload.facts.availability);
      versions := Merge(versions, e.versions);
      processedMessageIds := Remember(processedMessageIds, e.messageId, maxTrackedMessages);
    }

    /** A self-sent or rejected envelope changes no replicated state; any other becomes what Receive says. */
    method ProcessIncomingEnvelope(e: Envelope) returns (result: SyncResult)
      requires trust as object != this
      modifies this, trust
      ensures trust.State() == if e.sender == localNodeId then old(trust.State()) else Consulted(old(trust.State()), e)
      ensures
        var rejected := Authenticate(scheme, old(trust.State()), e);
        if e.sender == localNodeId || rejected.None?
        then View() == Receive(old(View()), e).0 && result == Receive(old(View()), e).1
        else View() == old(View()) && result == SyncResult(rejected.value, e.sender, e.messageId, 0, 0)
    {
      if e.sender == localNodeId {
        return SyncResult(AlreadyCurrent, e.sender, e.messageId, 0, 0);
      }
      var rejected := AuthenticateIncoming(e);
      if rejected.Some? {
        return SyncResult(rejected.value, e.sender, e.messageId, 0, 0);
      }
      if e.messageId in processedMessageIds {
        return SyncResult(AlreadyCurrent, e.sender, e.messageId, 0, 0);
      }
      var vBefore := GetVersion(versions, localNodeId);
      var comparison := CompareVersions(versions, e.versions);
      if comparison == Equal || comparison == Ahead {
        processedMessageIds := Remember(processedMessageIds, e.messageId, maxTrackedMessages);
        return SyncResult(AlreadyCurrent, e.sender, e.messageId, vBefore, vBefore);
      }
      MergeEnvelope(e);
      var vAfter := GetVersion(versions, localNodeId);
      result := SyncResult(if comparison == Concurrent then Conflict else Applied,
                           e.sender, e.messageId, vBefore, vAfter);
    }
  }

  /** The part of `items` whose keys are done. */
  function Those(items: Capabilities, done: set<NodeId>): Capabilities {
    map m | m in done && m in items :: items[m]
  }

  lemma AbsorbOne(before: Capabilities, items: Capabilities, done: set<NodeId>, n: NodeId)
    requires n in items && n !in done
    ensures
      var merged := MergeCapabilities(before, Those(items, done));
      MergeCapabilities(before, Those(items, done + {n})) == merged[n := ListedFor(merged, n) + items[n]]
  {
    var was := Those(items, done);
    assert Those(items, done + {n}) == was[n := items[n]];
    AddOne(before, was, n, items[n]);
  }

  lemma AddOne(a: Capabilities, b: Capabilities, n: NodeId, more: set<string>)
    requires n !in b
    ensures
      var merged := MergeCapabilities(a, b);
      MergeCapabilities(a, b[n := more]) == merged[n := ListedFor(merged, n) + more]
  {
    var merged, c := MergeCapabilities(a, b), MergeCapabilities(a, b[n := more]);
    var next := merged[n := ListedFor(merged, n) + more];
    assert ListedFor(merged, n) == ListedFor(a, n);
    assert c.Keys == next.Keys;
    forall m | m in c
      ensures c[m] == next[m]
    {
      AddOneAt(a, b, n, more, m);
    }
  }

  lemma AddOneAt(a: Capabilities, b: Capabilities, n: NodeId, more: set<string>, m: NodeId)
    ensures ListedFor(b[n := more], m) == if m == n then more else ListedFor(b, m)
    ensures m in MergeCapabilities(a, b) ==> MergeCapabilities(a, b)[m] == ListedFor(a, m) + ListedFor(b, m)
  {
  }

  function Elements(xs: seq<string>): set<string> {
    set x | x in xs
  }

  /** The facts that one call of update_local_facts adds; None and an empty dictionary add nothing. */
  function Observed(capabilities: Option<map<NodeId, seq<string>>>, availability: Option<Availability>): Facts {
    Facts(if capabilities.Some?
          then map n | n in capabilities.value :: Elements(capabilities.value[n]) else map[],
          if availability.Some? then availability.value else map[])
  }

  /** An update joins exactly what was passed to it: every listed capability under its node, and the last status. */
  lemma UpdateObserves(node: Node, capabilities: Option<map<NodeId, seq<string>>>, availability: Option<Availability>)
    ensures
      var was, now := node.facts, Updated(node, Observed(capabilities, availability)).facts;
      && (forall n :: n in now.capabilities <==>
            n in was.capabilities || (capabilities.Some? && n in capabilities.value))
      && (forall n, c :: (n in now.capabilities && c in now.capabilities[n]) <==>
            || (n in was.capabilities && c in was.capabilities[n])
            || (capabilities.Some? && n in capabilities.value && c in capabilities.value[n]))
      && (forall n :: n in now.availability <==>
            n in was.availability || (availability.Some? && n in availability.value))
      && (forall n :: n in now.availability ==>
            now.availability[n] == if availability.Some? && n in availability.value then availability.value[n]
                                   else was.availability[n])
    ensures
      var now := Updated(node, Observed(capabilities, availability));
      && now.versions == node.versions[node.id := OwnVersion(node) + 1]
      && now == node.(versions := now.versions, facts := now.facts)
  {
  }
}
