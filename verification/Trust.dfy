/** Trust records: src/shyam/trust/service.py over src/shyam/trust/models.py. The store file is the
    field `disk`, saved and loaded whole. */
module Trust {
  import opened Options

  datatype TrustStatus = Unknown | Trusted | Revoked

  datatype Relationship = NoRelationship | Personal | Peer | Infrastructure

  datatype TrustRecord = TrustRecord(
    nodeId: string,
    publicKey: Option<string>,
    status: TrustStatus,
    relationship: Relationship,
    alias: string,
    metadata: map<string, string>)

  type Records = map<string, TrustRecord>

  datatype TrustState = TrustState(records: Records, initialized: bool, disk: Records)

  datatype Grant = Grant(
    publicKey: Option<string>, relationship: Relationship, alias: string, metadata: Option<map<string, string>>)

  /** Python's `a or b` on optional strings: an empty string counts as absent. */
  function Or(a: Option<string>, b: Option<string>): Option<string> {
    if a.Some? && a.value != "" then a else b
  }

  function OrText(a: string, b: string): string {
    if a != "" then a else b
  }

  function Loaded(s: TrustState): TrustState {
    if s.initialized then s else s.(records := s.disk, initialized := true)
  }

  function UnknownRecord(n: string): TrustRecord {
    TrustRecord(n, None, Unknown, NoRelationship, "", map[])
  }

  /** What get_record answers. */
  function RecordOf(s: TrustState, n: string): TrustRecord {
    var records := Loaded(s).records;
    if n in records then records[n] else UnknownRecord(n)
  }

  function GrantedRecord(records: Records, n: string, g: Grant): TrustRecord {
    if n !in records then
      TrustRecord(n, g.publicKey, Trusted, g.relationship, g.alias,
                  if g.metadata.Some? then g.metadata.value else map[])
    else
      var existing := records[n];
      TrustRecord(existing.nodeId, Or(g.publicKey, existing.publicKey), Trusted, g.relationship,
                  OrText(g.alias, existing.alias),
                  if g.metadata.Some? then g.metadata.value else existing.metadata)
  }

  function RevokedRecord(records: Records, n: string, reason: Option<string>): TrustRecord {
    var why := if reason.Some? && reason.value != "" then map["revoke_reason" := reason.value] else map[];
    if n !in records then UnknownRecord(n).(status := Revoked, metadata := why)
    else records[n].(status := Revoked, metadata := records[n].metadata + why)
  }

  /** One record is replaced and all of memory is written over the store. */
  function Put(s: TrustState, record: TrustRecord, n: string): TrustState {
    var records := s.records[n := record];
    s.(records := records, disk := records)
  }

  function Granted(s: TrustState, n: string, g: Grant): TrustState {
    Put(s, GrantedRecord(s.records, n, g), n)
  }

  function Revoking(s: TrustState, n: string, reason: Option<string>): TrustState {
    Put(s, RevokedRecord(s.records, n, reason), n)
  }

  predicate KeyedById(records: Records) {
    forall n :: n in records ==> records[n].nodeId == n
  }

  class TrustService {
    var records: Records
    var initialized: bool
    var disk: Records

    function State(): TrustState
      reads this
    {
      TrustState(records, initialized, disk)
    }

    constructor (file: Records)
      ensures State() == TrustState(map[], false, file)
    {
      records, initialized, disk := map[], false, file;
    }

    method Initialize()
      modifies this
      ensures State() == Loaded(old(State()))
      ensures initialized && disk == old(disk) && records == if old(initialized) then old(records) else disk
    {
      if !initialized {
        records := disk;
        initialized := true;
      }
    }

    method GetRecord(n: string) returns (r: TrustRecord)
      modifies this
      ensures State() == Loaded(old(State()))
      ensures r == RecordOf(old(State()), n)
      ensures
        if n in records then r == records[n]
        else r == TrustRecord(n, None, Unknown, NoRelationship, "", map[])
    {
      Initialize();
      r := if n in records then records[n] else UnknownRecord(n);
    }

    method GrantTrust(n: string, g: Grant) returns (r: TrustRecord)
      modifies this
      ensures State() == Granted(old(State()), n, g)
      ensures r.status == Trusted && RecordOf(State(), n) == r
    {
      if n !in records {
        r := TrustRecord(n, g.publicKey, Trusted, g.relationship, g.alias,
                         if g.metadata.Some? then g.metadata.value else map[]);
      } else {
        var existing := records[n];
        r := existing.(
          status := Trusted,
          relationship := g.relationship,
          alias := OrText(g.alias, existing.alias),
          publicKey := Or(g.publicKey, existing.publicKey),
          metadata := if g.metadata.Some? then g.metadata.value else existing.metadata);
      }
      records := records[n := r];
      disk := records;
    }

    method RevokeTrust(n: string, reason: Option<string>) returns (r: TrustRecord)
      modifies this
      ensures State() == Revoking(old(State()), n, reason)
      ensures r.status == Revoked && RecordOf(State(), n) == r
    {
      var why := if reason.Some? && reason.value != "" then map["revoke_reason" := reason.value] else map[];
      if n !in records {
        r := UnknownRecord(n).(status := Revoked, metadata := why);
      } else {
        r := records[n].(status := Revoked, metadata := records[n].metadata + why);
      }
      records := records[n := r];
      disk := records;
    }

    method ListRecords(filter: Option<TrustStatus>) returns (rs: set<TrustRecord>)
      modifies this
      ensures State() == Loaded(old(State()))
      ensures rs == set r | r in State().records.Values && (filter.None? || r.status == filter.value)
    {
      Initialize();
      rs := set r | r in records.Values && (filter.None? || r.status == filter.value);
    }

    /** The ids inside the trusted records. When every record is stored under its own id, they are exactly the nodes
        that is_trusted accepts. */
    method GetTrustedNodeIds() returns (ids: set<string>)
      modifies this
      ensures State() == Loaded(old(State()))
      ensures forall n :: n in ids <==>
        exists k :: k in records && records[k].status == Trusted && records[k].nodeId == n
      ensures KeyedById(records) ==> forall n :: n in ids <==> RecordOf(State(), n).status == Trusted
    {
      var rs := ListRecords(Some(Trusted));
      ids := set r | r in rs :: r.nodeId;
      forall n
        ensures n in ids <==> exists k :: k in records && records[k].status == Trusted && records[k].nodeId == n
      {
        if k :| k in records && records[k].status == Trusted && records[k].nodeId == n {
          assert records[k] in records.Values && records[k] in rs;
        }
      }
    }
  }

  // ---- What a grant and a revoke make of a record ----

  function InMemory(s: TrustState, n: string): TrustRecord {
    if n in s.records then s.records[n] else UnknownRecord(n)
  }

  predicate HasText(v: Option<string>) {
    v.Some? && v.value != ""
  }

  /** All records in memory but this one are kept, and the store holds what memory does. */
  ghost predicate OnlyChanges(s: TrustState, after: TrustState, n: string) {
    && after.records.Keys == s.records.Keys + {n} && Mirrored(after)
    && forall m | m in s.records && m != n :: after.records[m] == s.records[m]
  }

  /** A grant keeps the key, the alias and the metadata that it does not give anew. */
  lemma GrantKeeps(s: TrustState, n: string, g: Grant)
    ensures
      var after := Granted(s, n, g);
      var was, now := InMemory(s, n), InMemory(after, n);
      && OnlyChanges(s, after, n)
      && now.status == Trusted && now.relationship == g.relationship && now.nodeId == was.nodeId
      && (HasText(g.publicKey) ==> now.publicKey == g.publicKey)
      && (!HasText(g.publicKey) ==> now.publicKey == was.publicKey || (n !in s.records && now.publicKey == Some("")))
      && (g.alias != "" ==> now.alias == g.alias) && (g.alias == "" ==> now.alias == was.alias)
      && (g.metadata.Some? ==> now.metadata == g.metadata.value) && (g.metadata.None? ==> now.metadata == was.metadata)
  {
  }

  const REASON := "revoke_reason"

  /** A revoke keeps everything but the status, and records its reason, if it has one, in the metadata. */
  lemma RevokeKeeps(s: TrustState, n: string, reason: Option<string>)
    ensures
      var after := Revoking(s, n, reason);
      var was, now := InMemory(s, n), InMemory(after, n);
      && OnlyChanges(s, after, n)
      && now == was.(status := Revoked, metadata := now.metadata)
      && (HasText(reason) ==> REASON in now.metadata && now.metadata[REASON] == reason.value)
      && (forall k | k != REASON || !HasText(reason) :: k in now.metadata <==> k in was.metadata)
      && (forall k | k in was.metadata && (k != REASON || !HasText(reason)) :: now.metadata[k] == was.metadata[k])
  {
  }

  // ---- Memory and store over whole histories ----

  datatype TrustOp =
    | Load
    | GrantOp(node: string, grant: Grant)
    | RevokeOp(node: string, reason: Option<string>)

  function ApplyOp(s: TrustState, op: TrustOp): TrustState {
    match op
    case Load => Loaded(s)
    case GrantOp(n, g) => Granted(s, n, g)
    case RevokeOp(n, reason) => Revoking(s, n, reason)
  }

  function RunOps(s: TrustState, ops: seq<TrustOp>): TrustState
    decreases |ops|
  {
    if ops == [] then s else RunOps(ApplyOp(s, ops[0]), ops[1..])
  }

  predicate Mirrored(s: TrustState) {
    s.records == s.disk
  }

  /** Once memory mirrors the store, a record changes only by a grant or a revoke of that very node,
      a restart at the end finds the same records, and each record stays under its own id. */
  lemma {:induction false} HistoryKeepsRecord(s: TrustState, ops: seq<TrustOp>, n: string)
    requires Mirrored(s)
    requires forall k :: 0 <= k < |ops| ==> ops[k].Load? || ops[k].node != n
    ensures Mirrored(RunOps(s, ops))
    ensures RecordOf(RunOps(s, ops), n) == RecordOf(s, n)
    ensures KeyedById(s.records) ==> KeyedById(RunOps(s, ops).records)
    decreases |ops|
  {
    if ops != [] {
      assert ops[0].Load? || ops[0].node != n;
      HistoryKeepsRecord(ApplyOp(s, ops[0]), ops[1..], n);
    }
  }

  lemma {:induction false} RunOpsThen(s: TrustState, ops: seq<TrustOp>, op: TrustOp)
    ensures RunOps(s, ops + [op]) == ApplyOp(RunOps(s, ops), op)
    decreases |ops|
  {
    if ops == [] {
      assert ([] + [op])[1..] == [];
    } else {
      RunOpsThen(ApplyOp(s, ops[0]), ops[1..], op);
      assert (ops + [op])[1..] == ops[1..] + [op];
    }
  }

  predicate Decides(op: TrustOp, n: string) {
    !op.Load? && op.node == n
  }

  predicate GivesKey(op: TrustOp, n: string) {
    op.GrantOp? && op.node == n && HasText(op.grant.publicKey)
  }

  lemma {:induction false} KeyIsKept(s: TrustState, ops: seq<TrustOp>, n: string)
    requires Mirrored(s) && HasText(RecordOf(s, n).publicKey)
    requires forall op :: op in ops ==> !GivesKey(op, n)
    ensures RecordOf(RunOps(s, ops), n).publicKey == RecordOf(s, n).publicKey
    decreases |ops|
  {
    if ops != [] {
      OpOnRecord(s, ops[0], n);
      assert !GivesKey(ops[0], n);
      KeyIsKept(ApplyOp(s, ops[0]), ops[1..], n);
    }
  }

  lemma {:induction false} StaysMirrored(s: TrustState, ops: seq<TrustOp>)
    requires Mirrored(s)
    ensures Mirrored(RunOps(s, ops))
    decreases |ops|
  {
    if ops != [] {
      StaysMirrored(ApplyOp(s, ops[0]), ops[1..]);
    }
  }

  lemma {:induction false} RunOpsJoin(s: TrustState, first: seq<TrustOp>, second: seq<TrustOp>)
    ensures RunOps(s, first + second) == RunOps(RunOps(s, first), second)
    decreases |first|
  {
    if first == [] {
      assert first + second == second;
    } else {
      RunOpsJoin(ApplyOp(s, first[0]), first[1..], second);
      assert (first + second)[1..] == first[1..] + second;
    }
  }

  /** Once memory mirrors the store, a node's status is the last decision about it, and its key is that of the last
      grant that gave one: no revoke, no grant without a key and no restart makes it forgotten. */
  lemma {:induction false} LastDecisionStands(s: TrustState, before: seq<TrustOp>, op: TrustOp, after: seq<TrustOp>,
                                              n: string)
    requires Mirrored(s)
    ensures
      var record := RecordOf(RunOps(s, before + [op] + after), n);
      && (Decides(op, n) && (forall later :: later in after ==> !Decides(later, n)) ==>
            record.status == if op.GrantOp? then Trusted else Revoked)
      && (GivesKey(op, n) && (forall later :: later in after ==> !GivesKey(later, n)) ==>
            record.publicKey == op.grant.publicKey)
  {
    var s1 := RunOps(s, before + [op]);
    RunOpsJoin(s, before + [op], after);
    RunOpsThen(s, before, op);
    StaysMirrored(s, before);
    OpOnRecord(RunOps(s, before), op, n);
    if Decides(op, n) && forall later :: later in after ==> !Decides(later, n) {
      assert forall k | 0 <= k < |after| :: after[k] in after && !Decides(after[k], n);
      HistoryKeepsRecord(s1, after, n);
    }
    if GivesKey(op, n) && forall later :: later in after ==> !GivesKey(later, n) {
      KeyIsKept(s1, after, n);
    }
  }

  /** What one decision does to a record. */
  lemma OpOnRecord(s: TrustState, op: TrustOp, n: string)
    requires Mirrored(s)
    ensures
      var was, now := RecordOf(s, n), RecordOf(ApplyOp(s, op), n);
      && Mirrored(ApplyOp(s, op))
      && (!Decides(op, n) ==> now == was)
      && (Decides(op, n) ==> now.status == if op.GrantOp? then Trusted else Revoked)
      && (Decides(op, n) && op.GrantOp? && HasText(op.grant.publicKey) ==> now.publicKey == op.grant.publicKey)
      && (Decides(op, n) && !(op.GrantOp? && HasText(op.grant.publicKey)) && HasText(was.publicKey) ==>
            now.publicKey == was.publicKey)
  {
  }

  /** grant_trust and revoke_trust do not load the store first. Exactly when memory already holds every
      other stored record do those records survive the write. */
  lemma StoredRecordsSurvive(s: TrustState, n: string, record: TrustRecord)
    requires Mirrored(s) || (!s.initialized && s.records == map[])
    ensures (forall m :: m in s.disk && m != n ==>
               m in Put(s, record, n).disk && Put(s, record, n).disk[m] == s.disk[m])
       <==> (s.initialized || s.records != map[] || s.disk.Keys <= {n})
  {
    if !(s.initialized || s.records != map[] || s.disk.Keys <= {n}) {
      var m :| m in s.disk.Keys && m != n;
      assert m !in Put(s, record, n).disk;
    }
  }
}
