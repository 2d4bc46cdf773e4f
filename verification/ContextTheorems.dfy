/** The store agrees with the runs it observes, however their events are interleaved. */
module ContextTheorems {
  import opened Options
  import opened Workflow
  import opened WorkflowTheorems
  import opened ContextStore

  /** An event that a run of `wf` can publish. */
  predicate Narrates(e: Event, wf: Workflow) {
    e.wf == wf.id && (e.Started? ==> e.stepCount == |wf.steps|) && (e.StepBegan? ==> e.target.None?)
  }

  /** All of `log` is about `wf`, and only its first event can be a start. */
  ghost predicate LogOf(wf: Workflow, log: seq<Event>) {
    forall k | 0 <= k < |log| :: Narrates(log[k], wf) && (0 < k ==> !log[k].Started?)
  }

  /** The log has reached an end: completed, failed or cancelled. */
  ghost predicate Ended(log: seq<Event>) {
    exists e :: e in log && Ends(e)
  }

  /** The log has a start and no end. */
  ghost predicate Going(log: seq<Event>) {
    log != [] && log[0].Started? && !Ended(log)
  }

  lemma {:induction false} NarratedAbout(wf: Workflow, rs: seq<StepResult>)
    ensures forall e :: e in Narrated(wf.id, rs) ==> Narrates(e, wf) && !e.Started?
  {
    if rs != [] {
      NarratedAbout(wf, rs[1..]);
    }
  }

  lemma {:induction false} FailureIsNarrated(wf: string, rs: seq<StepResult>)
    requires rs != [] && rs[|rs| - 1].state != StepCompleted
    ensures Ended(Narrated(wf, rs))
  {
    var first := ExecutionEvents(wf, rs[0])
                 + (if rs[0].state == StepCompleted then [] else [RunFailed(wf, rs[0].stepId, ErrorOf(rs[0]))]);
    if rs[0].state != StepCompleted {
      assert first[2] in Narrated(wf, rs);
    } else {
      FailureIsNarrated(wf, rs[1..]);
      var e :| e in Narrated(wf, rs[1..]) && Ends(e);
      assert e in Narrated(wf, rs);
    }
  }

  lemma LogAbout<W>(wf: Workflow, precancelled: bool, stop: nat, s: Straight<W>, reason: string)
    requires |s.results| <= stop <= |wf.steps|
    ensures LogOf(wf, Log(wf, precancelled, stop, s, reason))
  {
    NarratedAbout(wf, s.results);
    var narrated, leftOut := Narrated(wf.id, s.results), LeftOut(wf.id, wf.steps[|s.results|..]);
    var log := Log(wf, precancelled, stop, s, reason);
    if !precancelled {
      var n, m := 1 + |narrated|, 1 + |narrated| + |leftOut|;
      assert forall k | 1 <= k < n :: log[k] in narrated;
      assert forall k | n <= k < m :: log[k] == leftOut[k - n];
    }
  }

  lemma LogEnds<W>(wf: Workflow, precancelled: bool, stop: nat, s: Straight<W>, reason: string)
    requires |s.results| <= stop <= |wf.steps|
    requires !s.ok ==> s.results != [] && s.results[|s.results| - 1].state != StepCompleted
    ensures Ended(Log(wf, precancelled, stop, s, reason))
  {
    var log := Log(wf, precancelled, stop, s, reason);
    if !precancelled && stop == |wf.steps| && !s.ok {
      FailureIsNarrated(wf.id, s.results);
      var e :| e in Narrated(wf.id, s.results) && Ends(e);
      assert e in log;
    } else {
      assert log[|log| - 1] in log && Ends(log[|log| - 1]);
    }
  }

  /** Every run, finished or still going, publishes only about itself and starts at most once and first;
      it has ended when it returns. */
  lemma RunLog<W>(sv: Services<W>, wf: Workflow, t: Token, signals: Signals, p: nat, w: W)
    ensures
      var events := Ran(sv, wf, t, signals, p, w).events;
      Ended(events) && forall m | 0 <= m <= |events| :: LogOf(wf, events[..m])
  {
    var stop := StopExists(wf, t, signals, p);
    var o := Ran(sv, wf, t, signals, p, w);
    RunMeaning(sv, wf, t, signals, p, w, stop);
    var s := Execute(sv, wf.steps[..stop], w);
    var precancelled := wf.steps != [] && Poll(t, signals, p).cancelled;
    if !s.ok {
      ExecuteAt(sv, wf.steps[..stop], w, |s.results| - 1);
    }
    LogAbout(wf, precancelled, stop, s, o.token.reason);
    LogEnds(wf, precancelled, stop, s, o.token.reason);
  }

  /** The events about `id` among everything the store is told. */
  function About<S>(ns: seq<Notice<S>>, id: string): seq<Event> {
    if ns == [] then []
    else
      var n := ns[|ns| - 1];
      About(ns[..|ns| - 1], id) + (if n.Work? && n.event.wf == id then [n.event] else [])
  }

  /** Started and not ended since. */
  ghost predicate Open(log: seq<Event>) {
    log != [] &&
    var e := log[|log| - 1];
    e.Started? || (!Ends(e) && Open(log[..|log| - 1]))
  }

  /** Whether `id` is active depends on the events about `id` alone. */
  lemma {:induction false} OnlyOwnEventsMatter<S>(ns: seq<Notice<S>>, max: nat, id: string)
    ensures id in Observed(ns, max).active <==> Open(About(ns, id))
  {
    if ns != [] {
      var before, n := ns[..|ns| - 1], ns[|ns| - 1];
      OnlyOwnEventsMatter(before, max, id);
      if n.Work? && n.event.wf == id {
        assert About(ns, id)[..|About(before, id)|] == About(before, id);
      } else {
        assert About(ns, id) == About(before, id);
      }
    }
  }

  lemma {:induction false} OpenExactly(wf: Workflow, log: seq<Event>)
    requires LogOf(wf, log)
    ensures Open(log) <==> Going(log)
  {
    if log != [] {
      var before, e := log[..|log| - 1], log[|log| - 1];
      OpenExactly(wf, before);
      assert log == before + [e];
      assert Ended(log) <==> Ended(before) || Ends(e);
    }
  }

  /** The events that come from source `r`, when `owner[k]` says which source notice `k` comes from. */
  function Picked<S>(ns: seq<Notice<S>>, owner: seq<nat>, r: nat): seq<Event>
    requires |owner| == |ns|
  {
    if ns == [] then []
    else
      var last := |ns| - 1;
      Picked(ns[..last], owner[..last], r)
      + (if ns[last].Work? && owner[last] == r then [ns[last].event] else [])
  }

  /** `ns` interleaves the logs of some runs with whatever else the store is told. */
  ghost predicate Interleaves<S>(ns: seq<Notice<S>>, owner: seq<nat>, logs: seq<seq<Event>>) {
    && |owner| == |ns|
    && (forall k | 0 <= k < |ns| :: ns[k].Work? ==> owner[k] < |logs|)
    && (forall r | 0 <= r < |logs| :: Picked(ns, owner, r) == logs[r])
  }

  lemma {:induction false} PickedHolds<S>(ns: seq<Notice<S>>, owner: seq<nat>, k: nat)
    requires |owner| == |ns| && k < |ns| && ns[k].Work?
    ensures ns[k].event in Picked(ns, owner, owner[k])
  {
    var last := |ns| - 1;
    if k < last {
      PickedHolds(ns[..last], owner[..last], k);
    }
  }

  lemma {:induction false} PickedIsAbout<S>(ns: seq<Notice<S>>, owner: seq<nat>, ids: seq<string>, id: string, r: nat)
    requires |owner| == |ns|
    requires forall k | 0 <= k < |ns| && ns[k].Work? :: owner[k] < |ids| && ns[k].event.wf == ids[owner[k]]
    requires forall i | 0 <= i < |ids| :: ids[i] == id <==> i == r
    ensures Picked(ns, owner, r) == About(ns, id)
  {
    if ns != [] {
      PickedIsAbout(ns[..|ns| - 1], owner[..|ns| - 1], ids, id, r);
    }
  }

  lemma {:induction false} PickedNothing<S>(ns: seq<Notice<S>>, owner: seq<nat>, r: nat)
    requires |owner| == |ns| && forall k | 0 <= k < |ns| && ns[k].Work? :: owner[k] != r
    ensures Picked(ns, owner, r) == []
  {
    if ns != [] {
      PickedNothing(ns[..|ns| - 1], owner[..|ns| - 1], r);
    }
  }

  /** A run that has published its first `published` events, or all of them. */
  datatype Process<!W> = Process(
    sv: Services<W>, workflow: Workflow, token: Token, signals: Signals, poll: nat, world: W, published: nat)

  function Published<W>(x: Process<W>): seq<Event> {
    var events := Ran(x.sv, x.workflow, x.token, x.signals, x.poll, x.world).events;
    if x.published <= |events| then events[..x.published] else events
  }

  /** What the store is told interleaves what these runs, with distinct ids, have published; all the rest is about
      nodes and discovery. */
  ghost predicate Observes<S, W>(ns: seq<Notice<S>>, owner: seq<nat>, runs: seq<Process<W>>) {
    && Interleaves(ns, owner, seq(|runs|, r requires 0 <= r < |runs| => Published(runs[r])))
    && forall i, j | 0 <= i < j < |runs| :: runs[i].workflow.id != runs[j].workflow.id
  }

  lemma PublishedLog<W>(x: Process<W>)
    ensures LogOf(x.workflow, Published(x))
  {
    var events := Ran(x.sv, x.workflow, x.token, x.signals, x.poll, x.world).events;
    RunLog(x.sv, x.workflow, x.token, x.signals, x.poll, x.world);
    assert events == events[..|events|];
  }

  /** Every workflow notice is one that its run can publish. */
  lemma ObservedNarrates<S, W>(ns: seq<Notice<S>>, owner: seq<nat>, runs: seq<Process<W>>, k: nat)
    requires Observes(ns, owner, runs) && k < |ns| && ns[k].Work?
    ensures owner[k] < |runs| && Narrates(ns[k].event, runs[owner[k]].workflow)
  {
    PickedHolds(ns, owner, k);
    var log := Published(runs[owner[k]]);
    assert ns[k].event in log;
    PublishedLog(runs[owner[k]]);
  }

  /** Over any interleaving of runs with distinct ids, finished or still going, the active work is exactly the runs that
      have published their start and neither completion, failure nor cancellation. */
  lemma StoreAgreesWithRuns<S, W>(ns: seq<Notice<S>>, owner: seq<nat>, runs: seq<Process<W>>, max: nat, id: string)
    requires Observes(ns, owner, runs)
    ensures
      id in Observed(ns, max).active
      <==> exists r :: 0 <= r < |runs| && runs[r].workflow.id == id && Going(Published(runs[r]))
  {
    var ids := seq(|runs|, r requires 0 <= r < |runs| => runs[r].workflow.id);
    OnlyOwnEventsMatter(ns, max, id);
    forall k | 0 <= k < |ns| && ns[k].Work?
      ensures owner[k] < |ids| && ns[k].event.wf == ids[owner[k]]
    {
      ObservedNarrates(ns, owner, runs, k);
    }
    if r :| 0 <= r < |runs| && runs[r].workflow.id == id {
      PickedIsAbout(ns, owner, ids, id, r);
      PublishedLog(runs[r]);
      OpenExactly(runs[r].workflow, Published(runs[r]));
    } else {
      PickedIsAbout(ns, owner, ids, id, |ids|);
      PickedNothing(ns, owner, |ids|);
    }
  }

  /** The engine's step-started events carry no target, so active work that it runs is never given one, and its step
      count is that of its run. */
  lemma EngineGivesNoTarget<S, W>(ns: seq<Notice<S>>, owner: seq<nat>, runs: seq<Process<W>>, max: nat, id: string)
    returns (r: nat)
    requires Observes(ns, owner, runs) && id in Observed(ns, max).active
    ensures r < |runs| && runs[r].workflow.id == id
    ensures Observed(ns, max).active[id] == Item(|runs[r].workflow.steps|, None)
  {
    var item := Observed(ns, max).active[id];
    var k := ActiveSince(ns, max, id);
    ObservedNarrates(ns, owner, runs, k);
    r := owner[k];
    if item.target.Some? {
      var j: nat :| FirstAim(ns, id, k, j) && TargetOf(ns[j].event.target.value) == item.target.value;
      ObservedNarrates(ns, owner, runs, j);
      assert false;
    }
  }

  /** A run that has returned is not active, whatever else was going on, however it ended. */
  lemma ReturnedRunIsNotActive<W, S>(
      sv: Services<W>, wf: Workflow, t: Token, signals: Signals, p: nat, w: W, ns: seq<Notice<S>>, max: nat)
    requires About(ns, wf.id) == Ran(sv, wf, t, signals, p, w).events
    ensures wf.id !in Observed(ns, max).active
  {
    RunLog(sv, wf, t, signals, p, w);
    var log := About(ns, wf.id);
    assert log == log[..|log|];
    OpenExactly(wf, log);
    OnlyOwnEventsMatter(ns, max, wf.id);
  }
}
