/** How the results of a workflow run follow from what the navigator, the registry and the executors answered:
    src/shyam/workflow/engine.py. */
module StepOutcomes {
  import opened Options
  import opened Canonical
  import opened Workflow
  import opened WorkflowTheorems

  /** The navigator selects a target that is registered. */
  predicate Reaches<W>(sv: Services<W>, step: Step, w: W) {
    var (w1, reply) := sv.navigate(w, step.capability, step.constraints);
    reply.Selected? && sv.registered(w1, reply.target.providerId)
  }

  /** The executor that the navigator selected, called in the world that the navigator left. */
  function Answer<W>(sv: Services<W>, step: Step, w: W): (W, ExecReply)
    requires Reaches(sv, step, w)
  {
    var (w1, reply) := sv.navigate(w, step.capability, step.constraints);
    sv.execute(w1, reply.target, step.input)
  }

  /** A step is COMPLETED exactly when a registered target was selected and its executor answered. */
  predicate Succeeds<W>(sv: Services<W>, step: Step, w: W) {
    Reaches(sv, step, w) && Answer(sv, step, w).1.Done?
  }

  /** The text of the collaborator that raised or refused is the end of the error; an executor's is all of it. */
  ghost predicate Blames<W>(sv: Services<W>, step: Step, w: W, error: string) {
    var (w1, reply) := sv.navigate(w, step.capability, step.constraints);
    match reply
    case NavRaised(text) => error == "Navigator invocation error: " + text
    case NoTarget(reason) => error == "Navigation failed to resolve target: " + reason
    case Selected(target) =>
      if !sv.registered(w1, target.providerId) then
        error == "No executor available for provider '" + target.providerId + "'"
      else
        var answer := sv.execute(w1, target, step.input).1;
        answer.ExecRaised? && error == answer.error
  }

  /** The result and the world after the step are what the collaborators made of it. */
  ghost predicate Follows<W>(sv: Services<W>, step: Step, w: W, r: StepResult, after: W) {
    var (w1, reply) := sv.navigate(w, step.capability, step.constraints);
    && ForStep(r, step)
    && (if reply.Selected? then r.target == Some(reply.target) else r.target == None)
    && after == (if Reaches(sv, step, w) then Answer(sv, step, w).0 else w1)
    && if Succeeds(sv, step, w) then
         r.state == StepCompleted && r.output == Answer(sv, step, w).1.output && r.error == ""
       else
         r.state == StepFailed && r.output == Null && Blames(sv, step, w, r.error)
  }

  /** The executor call of a step that gets that far. */
  ghost predicate Calls<W>(sv: Services<W>, step: Step, w: W, call: Call) {
    && Reaches(sv, step, w)
    && call.stepId == step.id && call.input == step.input
    && call.target == sv.navigate(w, step.capability, step.constraints).1.target
  }

  /** One step: COMPLETED with the executor's output, or FAILED with the error of the collaborator to blame; and one
      executor call exactly when a registered target was selected. */
  lemma ExecutedFollows<W>(sv: Services<W>, step: Step, w: W)
    ensures
      var (after, r, calls) := Executed(sv, step, w);
      && Follows(sv, step, w, r, after)
      && |calls| == (if Reaches(sv, step, w) then 1 else 0)
      && (Reaches(sv, step, w) ==> Calls(sv, step, w, calls[0]))
  {
    match sv.navigate(w, step.capability, step.constraints).1
    case NavRaised(_) =>
    case NoTarget(_) =>
    case Selected(_) =>
  }

  /** `worlds[k]` is the world in which step k started. */
  ghost predicate Threads<W>(sv: Services<W>, steps: seq<Step>, w: W, worlds: seq<W>, rs: seq<StepResult>, end: W) {
    && |worlds| == |rs| + 1 && |rs| <= |steps| && worlds[0] == w && worlds[|rs|] == end
    && forall k | 0 <= k < |rs| :: Follows(sv, steps[k], worlds[k], rs[k], worlds[k + 1])
  }

  /** The calls are those of the steps that reached a registered target, in order. */
  ghost predicate CallsOf<W>(sv: Services<W>, steps: seq<Step>, worlds: seq<W>, n: nat, calls: seq<Call>)
    requires n <= |steps| && n <= |worlds|
  {
    && |calls| <= n
    && (forall k | 0 <= k < |calls| :: Calls(sv, steps[k], worlds[k], calls[k]))
    && (forall k | |calls| <= k < n :: !Reaches(sv, steps[k], worlds[k]))
  }

  lemma ThreadsFirst<W>(sv: Services<W>, steps: seq<Step>, w: W, r: StepResult, w1: W,
                        worlds: seq<W>, rs: seq<StepResult>, end: W)
    requires steps != [] && Follows(sv, steps[0], w, r, w1) && Threads(sv, steps[1..], w1, worlds, rs, end)
    ensures Threads(sv, steps, w, [w] + worlds, [r] + rs, end)
  {
    forall k | 0 <= k < |rs| + 1
      ensures Follows(sv, steps[k], ([w] + worlds)[k], ([r] + rs)[k], ([w] + worlds)[k + 1])
    {
      if 0 < k {
        assert steps[k] == steps[1..][k - 1];
      }
    }
  }

  lemma CallsFirst<W>(sv: Services<W>, steps: seq<Step>, w: W, call: Call, worlds: seq<W>, n: nat, calls: seq<Call>)
    requires steps != [] && n < |steps| && n <= |worlds|
    requires Calls(sv, steps[0], w, call) && CallsOf(sv, steps[1..], worlds, n, calls)
    ensures CallsOf(sv, steps, [w] + worlds, n + 1, [call] + calls)
  {
    forall k | 0 < k < n + 1
      ensures steps[k] == steps[1..][k - 1] && ([w] + worlds)[k] == worlds[k - 1]
    {
    }
  }

  lemma {:induction false} ExecuteFollows<W>(sv: Services<W>, steps: seq<Step>, w: W) returns (worlds: seq<W>)
    ensures
      var s := Execute(sv, steps, w);
      && Threads(sv, steps, w, worlds, s.results, s.world)
      && CallsOf(sv, steps, worlds, |s.results|, s.calls)
    decreases |steps|
  {
    if steps == [] {
      worlds := [w];
    } else {
      var (w1, r, calls) := Executed(sv, steps[0], w);
      ExecutedFollows(sv, steps[0], w);
      if r.state != StepCompleted {
        worlds := [w, w1];
      } else {
        var rest := ExecuteFollows(sv, steps[1..], w1);
        var s := Execute(sv, steps[1..], w1);
        ThreadsFirst(sv, steps, w, r, w1, rest, s.results, s.world);
        assert calls == [calls[0]];
        CallsFirst(sv, steps, w, calls[0], rest, |s.results|, s.calls);
        worlds := [w] + rest;
      }
    }
  }

  // ---- The error of a run ----

  /** The failure kept by the loop is that of the first result that is not COMPLETED. */
  ghost predicate Keeps(rs: seq<StepResult>, failure: Option<string>) {
    match failure
    case None => forall r :: r in rs ==> r.state == StepCompleted
    case Some(error) => exists k :: FirstFailure(rs, k) && IsErrorOf(rs[k], error)
  }

  ghost predicate FirstFailure(rs: seq<StepResult>, k: int) {
    0 <= k < |rs| && rs[k].state == StepFailed && forall j | 0 <= j < k :: rs[j].state == StepCompleted
  }

  predicate IsErrorOf(r: StepResult, error: string) {
    if r.error == "" then error == "Step '" + r.stepId + "' failed" else error == r.error
  }

  lemma TurnKeeps<W>(sv: Services<W>, wf: Workflow, signals: Signals, p: nat, i: nat, pr: Progress<W>)
    requires i < |wf.steps| && Keeps(pr.results, pr.failure)
    ensures
      var next := Turn(sv, wf, signals, p, i, pr);
      next.cancelled || Keeps(next.results, next.failure)
  {
    var next := Turn(sv, wf, signals, p, i, pr);
    ExecutedCalls(sv, wf.steps[i], pr.world);
    if !next.cancelled && pr.failure.Some? {
      var k :| FirstFailure(pr.results, k) && IsErrorOf(pr.results[k], pr.failure.value);
      assert FirstFailure(next.results, k) && next.results[k] == pr.results[k];
    } else if !next.cancelled && next.failure.Some? {
      assert forall j | 0 <= j < |pr.results| :: pr.results[j] in pr.results;
      assert FirstFailure(next.results, |pr.results|);
    }
  }

  lemma {:induction false} LoopKeeps<W>(
      sv: Services<W>, wf: Workflow, signals: Signals, p: nat, i: nat, pr: Progress<W>)
    requires i <= |wf.steps| && (pr.cancelled || Keeps(pr.results, pr.failure))
    ensures
      var end := Loop(sv, wf, signals, p, i, pr);
      end.cancelled || Keeps(end.results, end.failure)
    decreases |wf.steps| - i
  {
    if i < |wf.steps| && !pr.cancelled {
      TurnKeeps(sv, wf, signals, p, i, pr);
      LoopKeeps(sv, wf, signals, p, i + 1, Turn(sv, wf, signals, p, i, pr));
    }
  }

  /** The error of a run: that of the first step that is not COMPLETED, or the reason of the cancellation. */
  ghost predicate Reports(state: WorkflowState, rs: seq<StepResult>, error: Option<string>, reason: string) {
    match state
    case Cancelled => error == Some(reason)
    case Completed => error == None
    case Failed => error.Some? && exists k :: FirstFailure(rs, k) && IsErrorOf(rs[k], error.value)
  }

  lemma RunReports<W>(sv: Services<W>, wf: Workflow, t: Token, signals: Signals, p: nat, w: W)
    ensures
      var o := Ran(sv, wf, t, signals, p, w);
      Reports(o.state, o.results, o.error, o.token.reason)
  {
    LoopKeeps(sv, wf, signals, p, 0, Begun(wf, Poll(t, signals, p), w));
  }

  // ---- The reason of a cancellation ----

  /** The token is cancelled from before step `stop` on: by a call before the run's first reading of it, or by the first
      call afterwards. Every call replaces the reason. */
  ghost predicate CancelledFrom(wf: Workflow, t: Token, signals: Signals, p: nat, stop: nat, reason: string) {
    if signals(p).Some? then stop == 0 && reason == signals(p).value
    else if t.cancelled then stop == 0 && reason == t.reason
    else
      && stop <= |wf.steps| && Quiet(signals, p + 1, p + 1 + stop)
      && (stop < |wf.steps| ==> signals(p + 1 + stop) == Some(reason))
  }

  lemma {:induction false} LoopReason<W>(
      sv: Services<W>, wf: Workflow, signals: Signals, p: nat, i: nat, pr: Progress<W>, stop: nat)
    requires StopsFrom(wf, signals, p, i, stop) && !pr.cancelled && !pr.token.cancelled
    ensures
      var end := Loop(sv, wf, signals, p, i, pr);
      && (stop < |wf.steps| ==> Some(end.token.reason) == signals(p + 1 + stop))
      && (stop == |wf.steps| ==> end.token == pr.token)
    decreases |wf.steps| - i
  {
    if i < stop {
      LoopReason(sv, wf, signals, p, i + 1, Turn(sv, wf, signals, p, i, pr), stop);
    } else if stop < |wf.steps| {
      var end := Turn(sv, wf, signals, p, stop, pr);
      assert Loop(sv, wf, signals, p, stop + 1, end) == end;
    }
  }

  lemma RunReason<W>(sv: Services<W>, wf: Workflow, t: Token, signals: Signals, p: nat, w: W, stop: nat)
    requires StopsAt(wf, t, signals, p, stop)
    ensures wf.steps != [] ==> CancelledFrom(wf, t, signals, p, stop, Ran(sv, wf, t, signals, p, w).token.reason)
  {
    var t0 := Poll(t, signals, p);
    if wf.steps != [] && !t0.cancelled {
      LoopReason(sv, wf, signals, p, 0, Begun(wf, t0, w), stop);
    }
  }

  // ---- The whole run ----

  predicate Blank(r: StepResult, step: Step) {
    ForStep(r, step) && r.target.None? && r.output == Null
  }

  /** What is left of the steps after those that were executed. */
  ghost predicate LeavesOut(wf: Workflow, rs: seq<StepResult>, n: nat, stop: nat, reason: string) {
    && n <= stop <= |wf.steps| == |rs|
    && (forall k | n <= k < stop :: && Blank(rs[k], wf.steps[k]) && rs[k].state == StepSkipped
          && rs[k].error == "Skipped due to earlier step failure")
    && (forall k | stop <= k < |rs| ::
          Blank(rs[k], wf.steps[k]) && rs[k].state == StepCancelled && rs[k].error == reason)
  }

  lemma MeansLeavesOut<W>(sv: Services<W>, wf: Workflow, precancelled: bool, stop: nat, w: W, o: Outcome<W>)
    requires stop <= |wf.steps| && Means(sv, wf, precancelled, stop, w, o)
    ensures
      var s := Execute(sv, wf.steps[..stop], w);
      LeavesOut(wf, o.results, |s.results|, stop, o.token.reason) && o.results[..|s.results|] == s.results
  {
    var s := Execute(sv, wf.steps[..stop], w);
    forall k | |s.results| <= k < |wf.steps|
      ensures o.results[k] == if k < stop then Skipped(wf.steps[k]) else CancelledResult(wf.steps[k], o.token.reason)
    {
      LeftOutAt(wf.steps, s.results, stop, o.token.reason, k);
    }
  }

  lemma LeftOutAt(steps: seq<Step>, done: seq<StepResult>, stop: nat, reason: string, k: nat)
    requires |done| <= k < |steps| && |done| <= stop <= |steps|
    ensures
      var rs := done + (AllSkipped(steps[|done|..stop]) + CancelledResults(steps[stop..], reason));
      |rs| == |steps| && rs[k] == if k < stop then Skipped(steps[k]) else CancelledResult(steps[k], reason)
  {
    PartAt(done, AllSkipped(steps[|done|..stop]), CancelledResults(steps[stop..], reason), k);
    if k < stop {
      SkippedAt(steps, |done|, stop, k);
    } else {
      CancelledAt(steps, stop, reason, k);
    }
  }

  /** Every run, whenever it is cancelled: the worlds are threaded through the steps before the cancellation, up to the
      first that fails; the k-th result is what the collaborators answered in the k-th world, and the executor calls are
      those of the steps that selected a registered target. The other steps are SKIPPED, or CANCELLED with the reason of
      the call that cancelled, and leave the world alone. */
  lemma {:induction false} RunFollows<W>(sv: Services<W>, wf: Workflow, t: Token, signals: Signals, p: nat, w: W)
    returns (worlds: seq<W>, n: nat, stop: nat)
    ensures
      var o := Ran(sv, wf, t, signals, p, w);
      && (wf.steps != [] ==> CancelledFrom(wf, t, signals, p, stop, o.token.reason))
      && LeavesOut(wf, o.results, n, stop, o.token.reason)
      && Threads(sv, wf.steps[..stop], w, worlds, o.results[..n], o.world)
      && CallsOf(sv, wf.steps[..stop], worlds, n, o.calls)
      && (forall k | 0 <= k < n - 1 :: o.results[k].state == StepCompleted)
      && (n < stop ==> 0 < n && o.results[n - 1].state == StepFailed)
      && o.state == (if stop < |wf.steps| then Cancelled
                     else if 0 < n && o.results[n - 1].state == StepFailed then Failed else Completed)
      && Reports(o.state, o.results, o.error, o.token.reason)
  {
    stop := StopExists(wf, t, signals, p);
    RunMeaning(sv, wf, t, signals, p, w, stop);
    RunReason(sv, wf, t, signals, p, w, stop);
    RunReports(sv, wf, t, signals, p, w);
    var o := Ran(sv, wf, t, signals, p, w);
    MeansLeavesOut(sv, wf, wf.steps != [] && Poll(t, signals, p).cancelled, stop, w, o);
    worlds := ExecuteFollows(sv, wf.steps[..stop], w);
    var s := Execute(sv, wf.steps[..stop], w);
    n := |s.results|;
    forall k | 0 <= k < n
      ensures s.results[k].state == (if k < Successes(s) then StepCompleted else StepFailed)
    {
      ExecuteAt(sv, wf.steps[..stop], w, k);
    }
  }
}
