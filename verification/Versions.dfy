/** Version vectors: src/shyam/sync/versions.py and NodeVersionMap of src/shyam/sync/models.py. */
module Versions {
  type NodeId = string
  type VersionMap = map<NodeId, int>

  datatype Comparison = Equal | Ahead | Behind | Concurrent

  function GetVersion(vm: VersionMap, n: NodeId): int {
    if n in vm then vm[n] else 0
  }

  function WithUpdate(vm: VersionMap, n: NodeId, version: int): VersionMap {
    vm[n := version]
  }

  function Max(x: int, y: int): int {
    if x >= y then x else y
  }

  /** The order on vectors: an absent node counts as version 0. */
  ghost predicate Le(a: VersionMap, b: VersionMap) {
    forall n: NodeId {:trigger GetVersion(a, n), GetVersion(b, n)} ::
      GetVersion(a, n) <= GetVersion(b, n)
  }

  /** Two vectors that no reader can tell apart; their key sets may differ. */
  ghost predicate SameVector(a: VersionMap, b: VersionMap) {
    forall n: NodeId {:trigger GetVersion(a, n), GetVersion(b, n)} ::
      GetVersion(a, n) == GetVersion(b, n)
  }

  /** What the four answers mean in terms of the order. */
  ghost function Compared(local: VersionMap, remote: VersionMap): Comparison {
    if Le(local, remote) then
      if Le(remote, local) then Equal else Behind
    else
      if Le(remote, local) then Ahead else Concurrent
  }

  /** The loop over the keys of both maps decides the order over all node ids. */
  method CompareVersions(local: VersionMap, remote: VersionMap) returns (c: Comparison)
    ensures c == Compared(local, remote)
  {
    var allKeys := local.Keys + remote.Keys;
    if allKeys == {} {
      return Equal;
    }
    var localHasGreater, remoteHasGreater := false, false;
    var rest := allKeys;
    while rest != {}
      invariant rest <= allKeys
      invariant localHasGreater <==>
        exists n :: n in allKeys - rest && GetVersion(local, n) > GetVersion(remote, n)
      invariant remoteHasGreater <==>
        exists n :: n in allKeys - rest && GetVersion(remote, n) > GetVersion(local, n)
    {
      var key :| key in rest;
      var vLocal, vRemote := GetVersion(local, key), GetVersion(remote, key);
      if vLocal > vRemote {
        localHasGreater := true;
      } else if vRemote > vLocal {
        remoteHasGreater := true;
      }
      rest := rest - {key};
    }
    if localHasGreater && remoteHasGreater {
      return Concurrent;
    }
    if remoteHasGreater {
      return Behind;
    }
    if localHasGreater {
      return Ahead;
    }
    return Equal;
  }

  /** Component-wise maximum over the keys of both maps. */
  function Merge(a: VersionMap, b: VersionMap): VersionMap {
    map n | n in a.Keys + b.Keys :: Max(GetVersion(a, n), GetVersion(b, n))
  }

  /** Merge is the least upper bound of the order that CompareVersions decides. */
  lemma MergeIsSupremum(a: VersionMap, b: VersionMap)
    ensures Le(a, Merge(a, b)) && Le(b, Merge(a, b))
    ensures forall c :: Le(a, c) && Le(b, c) ==> Le(Merge(a, b), c)
  {
    forall c | Le(a, c) && Le(b, c)
      ensures Le(Merge(a, b), c)
    {
      forall n: NodeId
        ensures GetVersion(Merge(a, b), n) <= GetVersion(c, n)
      {
        assert GetVersion(a, n) <= GetVersion(c, n) && GetVersion(b, n) <= GetVersion(c, n);
      }
    }
  }
}
