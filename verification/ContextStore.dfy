/** The store that observes workflow and discovery events: src/shyam/context/store.py. */
module ContextStore {
  import opened Options
  import opened Workflow
  import N = Navigation

  datatype Target = Target(nodeId: string, providerId: string)

  function TargetOf(c: N.Candidate): Target {
    Target(c.nodeId, c.providerId)
  }

  /** An ActiveWorkItem, apart from its timestamps; its status is always RUNNING. */
  datatype Item = Item(stepCount: nat, target: Option<Target>)

  datatype NodeChange = NodeDiscovered | NodeUpdated | NodeStale | NodeLost

  datatype Kind = WorkStarted | WorkCompleted | WorkFailed | WorkCancelled | NodeChanged(change: NodeChange)

  /** A RecentActivityEntry: its kind and the workflow or node it is about. */
  datatype Entry = Entry(kind: Kind, about: string)

  /** What the store is told. */
  datatype Notice<S> =
    | Work(event: Event)
    | NodeSeen(change: NodeChange, node: string)
    | Refreshed(snapshot: S)

  datatype Store<S> = Store(
    version: nat, discovery: Option<S>, active: map<string, Item>, activity: seq<Entry>)

  function Empty<S>(): Store<S> {
    Store(0, None, map[], [])
  }

  /** deque(maxlen=max).appendleft. */
  function Push(activity: seq<Entry>, e: Entry, max: nat): (r: seq<Entry>)
    ensures |r| <= max
  {
    var longer := [e] + activity;
    if |longer| <= max then longer else longer[..max]
  }

  function Record<S>(s: Store<S>, e: Entry, max: nat): Store<S> {
    s.(activity := Push(s.activity, e, max), version := s.version + 1)
  }

  function Handle<S>(s: Store<S>, n: Notice<S>, max: nat): Store<S> {
    match n
    case Work(Started(wf, count)) =>
      Record(s.(active := s.active[wf := Item(count, None)]), Entry(WorkStarted, wf), max)
    case Work(RunCompleted(wf, _)) => Record(s.(active := s.active - {wf}), Entry(WorkCompleted, wf), max)
    case Work(RunFailed(wf, _, _)) => Record(s.(active := s.active - {wf}), Entry(WorkFailed, wf), max)
    case Work(RunCancelled(wf, _)) => Record(s.(active := s.active - {wf}), Entry(WorkCancelled, wf), max)
    case Work(StepBegan(wf, _, Some(c))) =>
      if wf in s.active && s.active[wf].target.None? then
        s.(active := s.active[wf := s.active[wf].(target := Some(TargetOf(c)))])
      else s
    case Work(_) => s
    case NodeSeen(change, node) => Record(s, Entry(NodeChanged(change), node), max)
    case Refreshed(snapshot) => s.(discovery := Some(snapshot), version := s.version + 1)
  }

  /** The store after everything in `ns`, in order. */
  function Observed<S>(ns: seq<Notice<S>>, max: nat): Store<S> {
    if ns == [] then Empty() else Handle(Observed(ns[..|ns| - 1], max), ns[|ns| - 1], max)
  }

  class EcosystemStateStore<S> {
    var version: nat
    var discovery: Option<S>
    var activeWork: map<string, Item>
    var activity: seq<Entry>
    const maxActivity: nat

    constructor (maxActivity: nat)
      ensures this.maxActivity == maxActivity && State() == Empty()
    {
      this.maxActivity := maxActivity;
      version, discovery, activeWork, activity := 0, None, map[], [];
    }

    function State(): Store<S>
      reads this
    {
      Store(version, discovery, activeWork, activity)
    }

    method UpdateDiscovery(snapshot: S)
      modifies this
      ensures State() == Handle(old(State()), Refreshed(snapshot), maxActivity)
    {
      discovery := Some(snapshot);
      version := version + 1;
    }

    method Append(e: Entry)
      modifies `activity, `version
      ensures State() == Record(old(State()), e, maxActivity)
    {
      activity := Push(activity, e, maxActivity);
      version := version + 1;
    }

    method OnWorkflowStarted(wf: string, stepCount: nat)
      modifies this
      ensures State() == Handle(old(State()), Work(Started(wf, stepCount)), maxActivity)
    {
      activeWork := activeWork[wf := Item(stepCount, None)];
      Append(Entry(WorkStarted, wf));
    }

    method OnWorkflowCompleted(wf: string, completed: nat)
      modifies this
      ensures State() == Handle(old(State()), Work(RunCompleted(wf, completed)), maxActivity)
    {
      if wf in activeWork {
        var existing := activeWork[wf];
        activeWork := activeWork - {wf};
        activeWork := activeWork[wf := existing];
        activeWork := activeWork - {wf};
      }
      Append(Entry(WorkCompleted, wf));
    }

    method OnWorkflowFailed(wf: string, step: string, error: string)
      modifies this
      ensures State() == Handle(old(State()), Work(RunFailed(wf, step, error)), maxActivity)
    {
      activeWork := activeWork - {wf};
      Append(Entry(WorkFailed, wf));
    }

    method OnWorkflowCancelled(wf: string, reason: string)
      modifies this
      ensures State() == Handle(old(State()), Work(RunCancelled(wf, reason)), maxActivity)
    {
      activeWork := activeWork - {wf};
      Append(Entry(WorkCancelled, wf));
    }

    method OnStepStarted(wf: string, step: string, target: Option<N.Candidate>)
      modifies this
      ensures State() == Handle(old(State()), Work(StepBegan(wf, step, target)), maxActivity)
    {
      if target.None? {
        return;
      }
      if wf in activeWork && activeWork[wf].target.None? {
        activeWork := activeWork[wf := activeWork[wf].(target := Some(TargetOf(target.value)))];
      }
    }

    /** on_node_discovered, on_node_updated, on_node_stale and on_node_lost differ in the kind only. */
    method OnNode(change: NodeChange, node: string)
      modifies this
      ensures State() == Handle(old(State()), NodeSeen(change, node), maxActivity)
    {
      Append(Entry(NodeChanged(change), node));
    }
  }

  /** `n` starts or ends workflow `id`. */
  predicate Marks<S>(n: Notice<S>, id: string) {
    n.Work? && n.event.wf == id && (n.event.Started? || Ends(n.event))
  }

  predicate Ends(e: Event) {
    e.RunCompleted? || e.RunFailed? || e.RunCancelled?
  }

  /** Notice `k` starts `id` and nothing after it starts or ends `id` again. */
  ghost predicate OpenSince<S>(ns: seq<Notice<S>>, id: string, k: nat) {
    && k < |ns| && ns[k].Work? && ns[k].event.Started? && ns[k].event.wf == id
    && forall j | k < j < |ns| :: !Marks(ns[j], id)
  }

  /** `n` gives a target for `id`. */
  predicate Aims<S>(n: Notice<S>, id: string) {
    n.Work? && n.event.StepBegan? && n.event.wf == id && n.event.target.Some?
  }

  /** Notice `j` is the first after notice `k` to give a target for `id`. */
  ghost predicate FirstAim<S>(ns: seq<Notice<S>>, id: string, k: nat, j: nat) {
    k < j < |ns| && Aims(ns[j], id) && forall i | k < i < j :: !Aims(ns[i], id)
  }

  /** `target` is the first target given for `id` after notice `k`, if any. */
  ghost predicate FirstTarget<S>(ns: seq<Notice<S>>, id: string, k: nat, target: Option<Target>) {
    match target
    case None => forall j | k < j < |ns| :: !Aims(ns[j], id)
    case Some(t) => exists j: nat :: FirstAim(ns, id, k, j) && Points(ns[j].event.target.value, t)
  }

  predicate Points(c: N.Candidate, t: Target) {
    t.nodeId == c.nodeId && t.providerId == c.providerId
  }

  ghost predicate ItemSince<S>(ns: seq<Notice<S>>, id: string, k: nat, item: Item) {
    OpenSince(ns, id, k) && item.stepCount == ns[k].event.stepCount && FirstTarget(ns, id, k, item.target)
  }

  lemma OpenRestricts<S>(ns: seq<Notice<S>>, n: Notice<S>, id: string, k: nat)
    requires OpenSince(ns + [n], id, k)
    ensures k < |ns| ==> OpenSince(ns, id, k) && !Marks(n, id)
  {
    if k < |ns| {
      assert !Marks((ns + [n])[|ns|], id);
      forall j | k < j < |ns|
        ensures !Marks(ns[j], id)
      {
        assert (ns + [n])[j] == ns[j];
      }
    }
  }

  lemma OpenExtends<S>(ns: seq<Notice<S>>, n: Notice<S>, id: string, k: nat)
    requires OpenSince(ns, id, k) && !Marks(n, id)
    ensures OpenSince(ns + [n], id, k)
  {
  }

  /** The first target after one more notice. */
  function Aimed<S>(target: Option<Target>, n: Notice<S>, id: string): Option<Target> {
    if target.None? && Aims(n, id) then Some(TargetOf(n.event.target.value)) else target
  }

  lemma FirstTargetExtends<S>(ns: seq<Notice<S>>, n: Notice<S>, id: string, k: nat, target: Option<Target>)
    requires k < |ns| && FirstTarget(ns, id, k, target)
    ensures FirstTarget(ns + [n], id, k, Aimed(target, n, id))
  {
    if target.Some? {
      var j: nat :| FirstAim(ns, id, k, j) && Points(ns[j].event.target.value, target.value);
      assert FirstAim(ns + [n], id, k, j);
    } else if Aims(n, id) {
      assert FirstAim(ns + [n], id, k, |ns|);
    }
  }

  /** What one notice does to the active work `id`. */
  lemma HandleActive<S>(s: Store<S>, n: Notice<S>, max: nat, id: string)
    ensures
      var active := Handle(s, n, max).active;
      if Marks(n, id) then
        && (id in active <==> n.event.Started?)
        && (n.event.Started? ==> active[id] == Item(n.event.stepCount, None))
      else
        && (id in active <==> id in s.active)
        && (id in active ==> active[id] == s.active[id].(target := Aimed(s.active[id].target, n, id)))
  {
  }

  lemma ObservedThen<S>(ns: seq<Notice<S>>, n: Notice<S>, max: nat)
    ensures Observed(ns + [n], max) == Handle(Observed(ns, max), n, max)
  {
    assert (ns + [n])[..|ns|] == ns;
  }

  /** Active work was started by some notice, and ended by none since. */
  lemma {:induction false} ActiveSince<S>(ns: seq<Notice<S>>, max: nat, id: string) returns (k: nat)
    requires id in Observed(ns, max).active
    ensures ItemSince(ns, id, k, Observed(ns, max).active[id])
  {
    var before, n := ns[..|ns| - 1], ns[|ns| - 1];
    assert ns == before + [n];
    ObservedThen(before, n, max);
    HandleActive(Observed(before, max), n, max, id);
    if Marks(n, id) {
      k := |before|;
    } else {
      k := ActiveSince(before, max, id);
      OpenExtends(before, n, id, k);
      FirstTargetExtends(before, n, id, k, Observed(before, max).active[id].target);
    }
  }

  lemma {:induction false} OpenIsActive<S>(ns: seq<Notice<S>>, max: nat, id: string, k: nat)
    requires OpenSince(ns, id, k)
    ensures id in Observed(ns, max).active
  {
    var before, n := ns[..|ns| - 1], ns[|ns| - 1];
    assert ns == before + [n];
    ObservedThen(before, n, max);
    HandleActive(Observed(before, max), n, max, id);
    OpenRestricts(before, n, id, k);
    if k < |before| {
      OpenIsActive(before, max, id, k);
    }
  }

  /** The active work is exactly what was started and not ended since, with the first target given for it. */
  lemma {:induction false} ActiveExactly<S>(ns: seq<Notice<S>>, max: nat, id: string)
    ensures
      var active := Observed(ns, max).active;
      && (id in active <==> exists k :: OpenSince(ns, id, k))
      && (id in active ==> exists k :: ItemSince(ns, id, k, active[id]))
  {
    if id in Observed(ns, max).active {
      var k := ActiveSince(ns, max, id);
      assert OpenSince(ns, id, k);
    }
    if k :| OpenSince(ns, id, k) {
      OpenIsActive(ns, max, id, k);
    }
  }

  /** The entry a notice adds to the activity, if any. */
  function EntryOf<S>(n: Notice<S>): seq<Entry> {
    match n
    case Work(Started(wf, _)) => [Entry(WorkStarted, wf)]
    case Work(RunCompleted(wf, _)) => [Entry(WorkCompleted, wf)]
    case Work(RunFailed(wf, _, _)) => [Entry(WorkFailed, wf)]
    case Work(RunCancelled(wf, _)) => [Entry(WorkCancelled, wf)]
    case NodeSeen(change, node) => [Entry(NodeChanged(change), node)]
    case _ => []
  }

  /** The unbounded log, oldest first. */
  function FullLog<S>(ns: seq<Notice<S>>): seq<Entry> {
    if ns == [] then [] else FullLog(ns[..|ns| - 1]) + EntryOf(ns[|ns| - 1])
  }

  /** The newest `max` entries of a log, newest first. */
  function Newest(log: seq<Entry>, max: nat): seq<Entry> {
    seq(if |log| <= max then |log| else max, i requires 0 <= i < |log| => log[|log| - 1 - i])
  }

  lemma PushIsNewest(log: seq<Entry>, e: Entry, max: nat)
    ensures Push(Newest(log, max), e, max) == Newest(log + [e], max)
  {
  }

  /** The bounded activity is the newest `max` entries of the full log, newest first. */
  lemma {:induction false} ActivityIsNewest<S>(ns: seq<Notice<S>>, max: nat)
    ensures Observed(ns, max).activity == Newest(FullLog(ns), max)
  {
    if ns != [] {
      var before, n := ns[..|ns| - 1], ns[|ns| - 1];
      ActivityIsNewest(before, max);
      if EntryOf(n) == [] {
        assert FullLog(ns) == FullLog(before);
      } else {
        PushIsNewest(FullLog(before), EntryOf(n)[0], max);
      }
    }
  }

  /** Snapshot `k` is the last one in `ns`. */
  ghost predicate LastSnapshot<S>(ns: seq<Notice<S>>, k: nat) {
    k < |ns| && ns[k].Refreshed? && forall j | k < j < |ns| :: !ns[j].Refreshed?
  }

  ghost predicate IsLatest<S>(ns: seq<Notice<S>>, discovery: Option<S>) {
    match discovery
    case None => forall n :: n in ns ==> !n.Refreshed?
    case Some(snapshot) => exists k: nat :: LastSnapshot(ns, k) && ns[k].snapshot == snapshot
  }

  /** The stored discovery is the last snapshot given, if any was, whatever else happened since. */
  lemma {:induction false} DiscoveryIsLatest<S>(ns: seq<Notice<S>>, max: nat)
    ensures IsLatest(ns, Observed(ns, max).discovery)
  {
    if ns != [] {
      var before, n := ns[..|ns| - 1], ns[|ns| - 1];
      DiscoveryIsLatest(before, max);
      if n.Refreshed? {
        assert LastSnapshot(ns, |before|);
      } else if Observed(before, max).discovery.Some? {
        var k: nat :| LastSnapshot(before, k) && before[k].snapshot == Observed(before, max).discovery.value;
        assert LastSnapshot(ns, k) && ns[k] == before[k];
      } else {
        assert ns == before + [n];
      }
    }
  }

  /** How many snapshots were given. */
  function Snapshots<S>(ns: seq<Notice<S>>): nat {
    if ns == [] then 0 else Snapshots(ns[..|ns| - 1]) + if ns[|ns| - 1].Refreshed? then 1 else 0
  }

  /** The version counts the entries ever logged and the snapshots ever given. */
  lemma {:induction false} VersionCounts<S>(ns: seq<Notice<S>>, max: nat)
    ensures Observed(ns, max).version == |FullLog(ns)| + Snapshots(ns)
  {
    if ns != [] {
      VersionCounts(ns[..|ns| - 1], max);
    }
  }

  /** `n` fills in the target of active work that has none. */
  predicate Fills<S>(s: Store<S>, n: Notice<S>) {
    && n.Work? && n.event.StepBegan? && n.event.target.Some?
    && n.event.wf in s.active && s.active[n.event.wf].target.None?
  }

  /** Some active work of `s` has its target filled in `t`. */
  ghost predicate Filled<S>(s: Store<S>, t: Store<S>) {
    exists wf :: wf in s.active && s.active[wf].target.None? && wf in t.active && t.active[wf].target.Some?
  }

  /** One notice that does not move the version changes nothing, or fills in one target. */
  lemma SilentChangeExactly<S>(s: Store<S>, n: Notice<S>, max: nat)
    ensures
      var after := Handle(s, n, max);
      && s.version <= after.version
      && (after.version == s.version ==> (after == s <==> !Fills(s, n)))
      && (Fills(s, n) ==> after.version == s.version && Filled(s, after))
      && (after.version == s.version ==>
            forall wf | wf in s.active && s.active[wf].target.Some? ::
              wf in after.active && after.active[wf] == s.active[wf])
  {
    if Fills(s, n) {
      assert n.event.wf in s.active;
    }
  }

  lemma {:induction false} VersionGrows<S>(ns: seq<Notice<S>>, k: nat, max: nat)
    requires k <= |ns|
    ensures Observed(ns[..k], max).version <= Observed(ns, max).version
  {
    if k == |ns| {
      assert ns[..k] == ns;
    } else {
      var before := ns[..|ns| - 1];
      assert before[..k] == ns[..k];
      VersionGrows(before, k, max);
      SilentChangeExactly(Observed(before, max), ns[|ns| - 1], max);
    }
  }

  /** The version does not tell all states apart: at two moments with one version the state is the same exactly when no
      notice in between gave a target for work that was active without one. */
  lemma {:induction false} SameVersionExactly<S>(ns: seq<Notice<S>>, k: nat, max: nat)
    requires k <= |ns| && Observed(ns[..k], max).version == Observed(ns, max).version
    ensures
      var s, t := Observed(ns[..k], max), Observed(ns, max);
      && (t == s <==> forall j | k <= j < |ns| :: !Fills(s, ns[j]))
      && (t != s ==> Filled(s, t))
  {
    var s := Observed(ns[..k], max);
    if k == |ns| {
      assert ns[..k] == ns;
    } else {
      var before, n := ns[..|ns| - 1], ns[|ns| - 1];
      assert before[..k] == ns[..k];
      VersionGrows(before, k, max);
      SilentChangeExactly(Observed(before, max), n, max);
      SameVersionExactly(before, k, max);
      assert Observed(ns, max) == Handle(Observed(before, max), n, max);
      if Observed(before, max) != s {
        var wf :| wf in s.active && s.active[wf].target.None?
          && wf in Observed(before, max).active && Observed(before, max).active[wf].target.Some?;
        assert wf in Observed(ns, max).active && Observed(ns, max).active[wf].target.Some?;
      } else {
        assert ns[|ns| - 1] == n;
      }
    }
  }
}
