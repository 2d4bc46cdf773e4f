/** What a workflow run publishes, event by event: src/shyam/workflow/engine.py. */
module StepEvents {
  import opened Options
  import opened Workflow
  import opened WorkflowTheorems
  import opened StepOutcomes

  predicate Fails(rs: seq<StepResult>, n: nat)
    requires n <= |rs|
  {
    0 < n && rs[n - 1].state == StepFailed
  }

  /** The two events of step k. */
  predicate TellsStep(wf: Workflow, rs: seq<StepResult>, events: seq<Event>, k: nat)
    requires k < |wf.steps| && k < |rs| && 2 * k + 2 < |events|
  {
    var id := wf.steps[k].id;
    && events[2 * k + 1] == StepBegan(wf.id, id, None)
    && events[2 * k + 2] == if rs[k].state == StepCompleted then StepDone(wf.id, id)
                            else StepBroke(wf.id, id, rs[k].error)
  }

  /** How many events come before those of the steps that are left out. */
  function Before(rs: seq<StepResult>, n: nat): nat
    requires n <= |rs|
  {
    2 * n + (if Fails(rs, n) then 2 else 1)
  }

  /** A run that got under way publishes its start, two events for each step it executed, its failure, one event for
      each step left out, and its cancellation or completion. */
  ghost predicate Tells(wf: Workflow, rs: seq<StepResult>, n: nat, stop: nat, reason: string, events: seq<Event>)
    requires n <= stop <= |wf.steps| == |rs|
  {
    var from := Before(rs, n);
    && |events| == from + (|rs| - n) + (if stop < |rs| || !Fails(rs, n) then 1 else 0)
    && events[0] == Started(wf.id, |rs|)
    && (forall k | 0 <= k < n :: TellsStep(wf, rs, events, k))
    && (Fails(rs, n) ==>
          && events[from - 1].RunFailed? && events[from - 1].wf == wf.id && events[from - 1].step == wf.steps[n - 1].id
          && IsErrorOf(rs[n - 1], events[from - 1].error))
    && (forall k | n <= k < |rs| :: events[from + k - n] == StepLeftOut(wf.id, wf.steps[k].id))
    && (stop < |rs| ==> events[|events| - 1] == RunCancelled(wf.id, reason))
    && (stop == |rs| && !Fails(rs, n) ==> events[|events| - 1] == RunCompleted(wf.id, |rs|))
  }

  predicate CompletedBut(rs: seq<StepResult>) {
    && (forall k | 0 <= k < |rs| - 1 :: rs[k].state == StepCompleted)
    && forall r | r in rs :: r.state in {StepCompleted, StepFailed}
  }

  lemma NarratedFirst(wf: string, rs: seq<StepResult>)
    requires |rs| > 1 && CompletedBut(rs)
    ensures Narrated(wf, rs) == [StepBegan(wf, rs[0].stepId, None), StepDone(wf, rs[0].stepId)] + Narrated(wf, rs[1..])
    ensures CompletedBut(rs[1..]) && Fails(rs[1..], |rs| - 1) == Fails(rs, |rs|)
  {
    assert ExecutionEvents(wf, rs[0]) + [] == ExecutionEvents(wf, rs[0]);
  }

  lemma NarratedOnly(wf: string, r: StepResult)
    ensures
      Narrated(wf, [r]) ==
      if r.state == StepCompleted then [StepBegan(wf, r.stepId, None), StepDone(wf, r.stepId)]
      else [StepBegan(wf, r.stepId, None), StepBroke(wf, r.stepId, r.error), RunFailed(wf, r.stepId, ErrorOf(r))]
  {
    assert [r][1..] == [];
  }

  lemma {:induction false} NarratedLength(wf: string, rs: seq<StepResult>)
    requires CompletedBut(rs)
    ensures |Narrated(wf, rs)| == 2 * |rs| + (if Fails(rs, |rs|) then 1 else 0)
    ensures Fails(rs, |rs|) ==> Narrated(wf, rs)[2 * |rs|] == RunFailed(wf, rs[|rs| - 1].stepId, ErrorOf(rs[|rs| - 1]))
  {
    if |rs| > 1 {
      NarratedLength(wf, rs[1..]);
      NarratedFirst(wf, rs);
    } else if |rs| == 1 {
      NarratedOnly(wf, rs[0]);
      assert rs == [rs[0]];
    }
  }

  /** The two events of result k. */
  predicate NarratesAt(wf: string, r: StepResult, events: seq<Event>, k: nat) {
    && 2 * k + 1 < |events|
    && events[2 * k] == StepBegan(wf, r.stepId, None)
    && events[2 * k + 1] == if r.state == StepCompleted then StepDone(wf, r.stepId)
                            else StepBroke(wf, r.stepId, r.error)
  }

  lemma {:induction false} NarratedAt(wf: string, rs: seq<StepResult>, k: nat)
    requires CompletedBut(rs) && k < |rs|
    ensures NarratesAt(wf, rs[k], Narrated(wf, rs), k)
  {
    if |rs| > 1 {
      NarratedFirst(wf, rs);
      if k > 0 {
        NarratedAt(wf, rs[1..], k - 1);
      }
    } else {
      NarratedOnly(wf, rs[0]);
      assert rs == [rs[0]];
    }
  }

  /** In a log that starts with one event and then tells of the results. */
  lemma StepsTold(wf: Workflow, rs: seq<StepResult>, all: seq<StepResult>, events: seq<Event>, after: seq<Event>,
                  first: Event)
    requires CompletedBut(rs) && |rs| <= |wf.steps| && rs <= all
    requires forall k | 0 <= k < |rs| :: rs[k].stepId == wf.steps[k].id
    requires events == [first] + Narrated(wf.id, rs) + after
    ensures |[first] + Narrated(wf.id, rs)| == Before(all, |rs|) <= |events|
    ensures forall k | 0 <= k < |rs| :: 2 * k + 2 < |events| && TellsStep(wf, all, events, k)
    ensures Fails(rs, |rs|) ==>
      events[2 * |rs| + 1] == RunFailed(wf.id, wf.steps[|rs| - 1].id, ErrorOf(rs[|rs| - 1]))
  {
    var narrated := Narrated(wf.id, rs);
    NarratedLength(wf.id, rs);
    assert events[1..1 + |narrated|] == narrated;
    forall k | 0 <= k < |rs|
      ensures TellsStep(wf, all, events, k)
    {
      NarratedAt(wf.id, rs, k);
      assert narrated[2 * k] == events[2 * k + 1] && narrated[2 * k + 1] == events[2 * k + 2];
    }
    if Fails(rs, |rs|) {
      assert narrated[2 * |rs|] == events[2 * |rs| + 1];
    }
  }

  /** The log has these parts. */
  lemma LogParts<W>(wf: Workflow, stop: nat, s: Straight<W>, reason: string)
    requires |s.results| <= stop <= |wf.steps|
    ensures
      var log := Log(wf, false, stop, s, reason);
      var last := if stop < |wf.steps| then [RunCancelled(wf.id, reason)]
                  else if s.ok then [RunCompleted(wf.id, |wf.steps|)] else [];
      log == [Started(wf.id, |wf.steps|)] + Narrated(wf.id, s.results)
             + (LeftOut(wf.id, wf.steps[|s.results|..]) + last)
  {
  }

  /** What follows the executed steps. */
  lemma RestTold(wf: Workflow, n: nat, told: seq<Event>, last: seq<Event>, events: seq<Event>, k: nat)
    requires n <= k < |wf.steps| && events == told + (LeftOut(wf.id, wf.steps[n..]) + last)
    ensures |events| == |told| + (|wf.steps| - n) + |last|
    ensures events[|told| + k - n] == StepLeftOut(wf.id, wf.steps[k].id)
  {
  }

  lemma LogTells<W>(wf: Workflow, stop: nat, s: Straight<W>, rs: seq<StepResult>, reason: string)
    requires |s.results| <= stop <= |wf.steps| == |rs| && s.results <= rs
    requires CompletedBut(s.results) && s.ok == !Fails(s.results, |s.results|)
    requires forall k | 0 <= k < |s.results| :: s.results[k].stepId == wf.steps[k].id
    ensures Tells(wf, rs, |s.results|, stop, reason, Log(wf, false, stop, s, reason))
  {
    var n, log := |s.results|, Log(wf, false, stop, s, reason);
    var first, leftOut := Started(wf.id, |wf.steps|), LeftOut(wf.id, wf.steps[n..]);
    var last := if stop < |wf.steps| then [RunCancelled(wf.id, reason)]
                else if s.ok then [RunCompleted(wf.id, |wf.steps|)] else [];
    LogParts(wf, stop, s, reason);
    StepsTold(wf, s.results, rs, log, leftOut + last, first);
    var told := [first] + Narrated(wf.id, s.results);
    forall k | n <= k < |rs|
      ensures log[|told| + k - n] == StepLeftOut(wf.id, wf.steps[k].id)
    {
      RestTold(wf, n, told, last, log, k);
    }
  }

  /** What every run publishes, in order, given its results: only its cancellation when it never got under way. */
  lemma {:induction false} RunTells<W>(sv: Services<W>, wf: Workflow, t: Token, signals: Signals, p: nat, w: W)
    returns (n: nat, stop: nat)
    ensures
      var o := Ran(sv, wf, t, signals, p, w);
      && LeavesOut(wf, o.results, n, stop, o.token.reason)
      && if wf.steps != [] && (t.cancelled || signals(p).Some?) then o.events == [RunCancelled(wf.id, o.token.reason)]
         else Tells(wf, o.results, n, stop, o.token.reason, o.events)
  {
    stop := StopExists(wf, t, signals, p);
    RunMeaning(sv, wf, t, signals, p, w, stop);
    var o, s := Ran(sv, wf, t, signals, p, w), Execute(sv, wf.steps[..stop], w);
    MeansLeavesOut(sv, wf, wf.steps != [] && Poll(t, signals, p).cancelled, stop, w, o);
    n := |s.results|;
    forall k | 0 <= k < n
      ensures s.results[k].state == (if k < Successes(s) then StepCompleted else StepFailed)
      ensures s.results[k].stepId == wf.steps[k].id
    {
      ExecuteAt(sv, wf.steps[..stop], w, k);
    }
    LogTells(wf, stop, s, o.results, o.token.reason);
  }
}
