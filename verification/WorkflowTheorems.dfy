/** What every run of the workflow engine does, for every workflow, world and moment of cancellation. */
module WorkflowTheorems {
  import opened Options
  import opened Workflow

  /** The reference meaning of a list of steps: execute in order and stop at the first failure. */
  datatype Straight<W> = Straight(world: W, results: seq<StepResult>, calls: seq<Call>, ok: bool)

  function Execute<W>(sv: Services<W>, steps: seq<Step>, w: W): (s: Straight<W>)
    ensures |s.results| <= |steps|
    ensures s.ok ==> |s.results| == |steps|
    ensures !s.ok ==> s.results != []
    decreases |steps|
  {
    if steps == [] then Straight(w, [], [], true)
    else
      var (w1, r, calls) := Executed(sv, steps[0], w);
      if r.state != StepCompleted then Straight(w1, [r], calls, false)
      else
        var rest := Execute(sv, steps[1..], w1);
        Straight(rest.world, [r] + rest.results, calls + rest.calls, rest.ok)
  }

  function AllSkipped(steps: seq<Step>): (rs: seq<StepResult>)
    ensures |rs| == |steps|
  {
    seq(|steps|, i requires 0 <= i < |steps| => Skipped(steps[i]))
  }

  /** What is published for executed steps. */
  function Narrated(wf: string, rs: seq<StepResult>): seq<Event> {
    if rs == [] then []
    else
      ExecutionEvents(wf, rs[0])
      + (if rs[0].state == StepCompleted then [] else [RunFailed(wf, rs[0].stepId, ErrorOf(rs[0]))])
      + Narrated(wf, rs[1..])
  }

  /** The token is first read as cancelled before step `stop` (the number of steps when it never is). */
  ghost predicate StopsAt(wf: Workflow, t: Token, signals: Signals, p: nat, stop: nat) {
    && stop <= |wf.steps|
    && if Poll(t, signals, p).cancelled then stop == 0
       else StopsFrom(wf, signals, p, 0, stop)
  }

  ghost predicate Quiet(signals: Signals, from: nat, to: nat) {
    forall q: nat | from <= q < to :: signals(q).None?
  }

  /** The token is read as cancelled before step `stop` and not between steps `i` and `stop`. */
  ghost predicate StopsFrom(wf: Workflow, signals: Signals, p: nat, i: nat, stop: nat) {
    && i <= stop <= |wf.steps| && Quiet(signals, p + 1 + i, p + 1 + stop)
    && (stop < |wf.steps| ==> signals(p + 1 + stop).Some?)
  }

  /** Every run has such a moment. */
  lemma StopExists(wf: Workflow, t: Token, signals: Signals, p: nat) returns (stop: nat)
    ensures StopsAt(wf, t, signals, p, stop)
  {
    stop := 0;
    if !Poll(t, signals, p).cancelled {
      while stop < |wf.steps| && signals(p + 1 + stop).None?
        invariant stop <= |wf.steps|
        invariant Quiet(signals, p + 1, p + 1 + stop)
      {
        stop := stop + 1;
      }
    }
  }

  lemma SkipFirst(steps: seq<Step>, i: nat, stop: nat)
    requires i < stop <= |steps|
    ensures AllSkipped(steps[i..stop]) == [Skipped(steps[i])] + AllSkipped(steps[i + 1..stop])
  {
  }

  lemma LeaveOutFirst(wf: string, steps: seq<Step>, i: nat)
    requires i < |steps|
    ensures LeftOut(wf, steps[i..]) == [StepLeftOut(wf, steps[i].id)] + LeftOut(wf, steps[i + 1..])
  {
  }

  lemma Regroup<T>(a: seq<T>, b: seq<T>, c: seq<T>)
    ensures (a + b) + c == a + (b + c)
  {
  }

  /** `end` is `pr` after these further results, events and calls. */
  ghost predicate Adds<W>(
      pr: Progress<W>, end: Progress<W>, rs: seq<StepResult>, events: seq<Event>, calls: seq<Call>)
  {
    end.results == pr.results + rs && end.events == pr.events + events && end.calls == pr.calls + calls
  }

  lemma AddsThen<W>(pr: Progress<W>, next: Progress<W>, end: Progress<W>,
                    rs: seq<StepResult>, events: seq<Event>, calls: seq<Call>,
                    rs': seq<StepResult>, events': seq<Event>, calls': seq<Call>)
    requires Adds(pr, next, rs, events, calls) && Adds(next, end, rs', events', calls')
    ensures Adds(pr, end, rs + rs', events + events', calls + calls')
  {
    Regroup(pr.results, rs, rs');
    Regroup(pr.events, events, events');
    Regroup(pr.calls, calls, calls');
  }

  /** Once a step has failed, the loop only skips until it is cancelled. */
  lemma {:induction false} LoopAfterFailure<W>(
      sv: Services<W>, wf: Workflow, signals: Signals, p: nat, i: nat, pr: Progress<W>, stop: nat)
    requires StopsFrom(wf, signals, p, i, stop) && !pr.cancelled && !pr.token.cancelled && pr.failure.Some?
    ensures
      var end := Loop(sv, wf, signals, p, i, pr);
      && end.world == pr.world && end.failure == pr.failure && end.cancelled == (stop < |wf.steps|)
      && Adds(pr, end, AllSkipped(wf.steps[i..stop]) + CancelledResults(wf.steps[stop..], end.token.reason),
              LeftOut(wf.id, wf.steps[i..]), [])
    decreases |wf.steps| - i
  {
    if i < stop {
      var next := Turn(sv, wf, signals, p, i, pr);
      assert next == pr.(results := pr.results + [Skipped(wf.steps[i])],
                         events := pr.events + [StepLeftOut(wf.id, wf.steps[i].id)]);
      LoopAfterFailure(sv, wf, signals, p, i + 1, next, stop);
      var end := Loop(sv, wf, signals, p, i + 1, next);
      var ended := CancelledResults(wf.steps[stop..], end.token.reason);
      AddsThen(pr, next, end, [Skipped(wf.steps[i])], [StepLeftOut(wf.id, wf.steps[i].id)], [],
               AllSkipped(wf.steps[i + 1..stop]) + ended, LeftOut(wf.id, wf.steps[i + 1..]), []);
      SkipFirst(wf.steps, i, stop);
      LeaveOutFirst(wf.id, wf.steps, i);
      Regroup([Skipped(wf.steps[i])], AllSkipped(wf.steps[i + 1..stop]), ended);
    } else {
      CancelOrEnd(sv, wf, signals, p, pr, stop);
    }
  }

  /** The loop at the step before which it is cancelled, or at its end. */
  lemma CancelOrEnd<W>(sv: Services<W>, wf: Workflow, signals: Signals, p: nat, pr: Progress<W>, stop: nat)
    requires stop <= |wf.steps| && !pr.cancelled && (stop < |wf.steps| ==> signals(p + 1 + stop).Some?)
    ensures
      var end := Loop(sv, wf, signals, p, stop, pr);
      && end.world == pr.world && end.failure == pr.failure && end.cancelled == (stop < |wf.steps|)
      && Adds(pr, end, AllSkipped([]) + CancelledResults(wf.steps[stop..], end.token.reason),
              LeftOut(wf.id, wf.steps[stop..]), [])
  {
    if stop < |wf.steps| {
      var end := Turn(sv, wf, signals, p, stop, pr);
      assert Loop(sv, wf, signals, p, stop + 1, end) == end;
      assert AllSkipped([]) + CancelledResults(wf.steps[stop..], end.token.reason)
          == CancelledResults(wf.steps[stop..], end.token.reason);
    }
  }

  lemma NarrateFirst(wf: string, rs: seq<StepResult>)
    requires rs != []
    ensures Narrated(wf, rs) == Narrated(wf, [rs[0]]) + Narrated(wf, rs[1..])
  {
    assert [rs[0]][1..] == [];
  }

  lemma ExecuteTurn<W>(sv: Services<W>, wf: Workflow, signals: Signals, p: nat, i: nat, pr: Progress<W>)
    requires i < |wf.steps| && !pr.cancelled && !pr.token.cancelled && pr.failure.None? && signals(p + 1 + i).None?
    ensures
      var next := Turn(sv, wf, signals, p, i, pr);
      var (w, r, calls) := Executed(sv, wf.steps[i], pr.world);
      && next.world == w && next.token == pr.token && !next.cancelled
      && next.failure.Some? == (r.state != StepCompleted)
      && Adds(pr, next, [r], Narrated(wf.id, [r]), calls)
  {
    var (w, r, calls) := Executed(sv, wf.steps[i], pr.world);
    Regroup(pr.events, ExecutionEvents(wf.id, r), [RunFailed(wf.id, r.stepId, ErrorOf(r))]);
  }

  lemma AddsExecution<W>(wf: string, pr: Progress<W>, next: Progress<W>, end: Progress<W>,
                         r: StepResult, calls: seq<Call>,
                         rest: Straight<W>, tail: seq<StepResult>, leftOut: seq<Event>)
    requires Adds(pr, next, [r], Narrated(wf, [r]), calls)
    requires Adds(next, end, rest.results + tail, Narrated(wf, rest.results) + leftOut, rest.calls)
    ensures Adds(pr, end, [r] + rest.results + tail, Narrated(wf, [r] + rest.results) + leftOut, calls + rest.calls)
  {
    AddsThen(pr, next, end, [r], Narrated(wf, [r]), calls,
             rest.results + tail, Narrated(wf, rest.results) + leftOut, rest.calls);
    Regroup([r], rest.results, tail);
    assert ([r] + rest.results)[1..] == rest.results;
    NarrateFirst(wf, [r] + rest.results);
    Regroup(Narrated(wf, [r]), Narrated(wf, rest.results), leftOut);
  }

  /** `end` is `pr` after the execution `s`, the steps from `m` on being left out: skipped, or cancelled from `stop`. */
  ghost predicate Reports<W>(wf: Workflow, m: nat, stop: nat, s: Straight<W>, pr: Progress<W>, end: Progress<W>)
    requires m <= stop <= |wf.steps|
  {
    && end.world == s.world && end.failure.Some? == !s.ok && end.cancelled == (stop < |wf.steps|)
    && Adds(pr, end,
            s.results + (AllSkipped(wf.steps[m..stop]) + CancelledResults(wf.steps[stop..], end.token.reason)),
            Narrated(wf.id, s.results) + LeftOut(wf.id, wf.steps[m..]), s.calls)
  }

  lemma ReportsThen<W>(wf: Workflow, m: nat, stop: nat, r: StepResult, calls: seq<Call>, rest: Straight<W>,
                       pr: Progress<W>, next: Progress<W>, end: Progress<W>)
    requires m <= stop <= |wf.steps|
    requires Adds(pr, next, [r], Narrated(wf.id, [r]), calls) && Reports(wf, m, stop, rest, next, end)
    ensures Reports(wf, m, stop, Straight(rest.world, [r] + rest.results, calls + rest.calls, rest.ok), pr, end)
  {
    AddsExecution(wf.id, pr, next, end, r, calls, rest,
                  AllSkipped(wf.steps[m..stop]) + CancelledResults(wf.steps[stop..], end.token.reason),
                  LeftOut(wf.id, wf.steps[m..]));
  }

  /** From `pr` at step `i`, `end` is where executing wf.steps[i..stop] up to step `m` leads. */
  ghost predicate RunsTo<W>(
      sv: Services<W>, wf: Workflow, i: nat, m: nat, stop: nat, pr: Progress<W>, end: Progress<W>)
    requires i <= stop <= |wf.steps|
  {
    var s := Execute(sv, wf.steps[i..stop], pr.world);
    m == i + |s.results| && Reports(wf, m, stop, s, pr, end)
  }

  lemma ExecuteFirst<W>(sv: Services<W>, steps: seq<Step>, i: nat, stop: nat, w: W)
    requires i < stop <= |steps|
    ensures
      var (w1, r, calls) := Executed(sv, steps[i], w);
      var s := Execute(sv, steps[i..stop], w);
      var rest := Execute(sv, steps[i + 1..stop], w1);
      if r.state != StepCompleted then s == Straight(w1, [r], calls, false)
      else s == Straight(rest.world, [r] + rest.results, calls + rest.calls, rest.ok)
  {
    assert steps[i..stop][1..] == steps[i + 1..stop];
  }

  lemma RunsToAfterSuccess<W>(
      sv: Services<W>, wf: Workflow, i: nat, m: nat, stop: nat, pr: Progress<W>, next: Progress<W>, end: Progress<W>)
    requires i < stop <= |wf.steps| && RunsTo(sv, wf, i + 1, m, stop, next, end)
    requires
      var (w, r, calls) := Executed(sv, wf.steps[i], pr.world);
      r.state == StepCompleted && next.world == w && Adds(pr, next, [r], Narrated(wf.id, [r]), calls)
    ensures RunsTo(sv, wf, i, m, stop, pr, end)
  {
    var (w, r, calls) := Executed(sv, wf.steps[i], pr.world);
    var rest := Execute(sv, wf.steps[i + 1..stop], w);
    ReportsThen(wf, m, stop, r, calls, rest, pr, next, end);
    ExecuteFirst(sv, wf.steps, i, stop, pr.world);
  }

  lemma RunsToAfterFailure<W>(
      sv: Services<W>, wf: Workflow, i: nat, stop: nat, pr: Progress<W>, next: Progress<W>, end: Progress<W>)
    requires i < stop <= |wf.steps|
    requires
      var (w, r, calls) := Executed(sv, wf.steps[i], pr.world);
      r.state != StepCompleted && end.world == w && Adds(pr, next, [r], Narrated(wf.id, [r]), calls)
    requires end.failure.Some? && end.cancelled == (stop < |wf.steps|)
    requires Adds(next, end, AllSkipped(wf.steps[i + 1..stop]) + CancelledResults(wf.steps[stop..], end.token.reason),
                  LeftOut(wf.id, wf.steps[i + 1..]), [])
    ensures RunsTo(sv, wf, i, i + 1, stop, pr, end)
  {
    var (w, r, calls) := Executed(sv, wf.steps[i], pr.world);
    AddsThen(pr, next, end, [r], Narrated(wf.id, [r]), calls,
             AllSkipped(wf.steps[i + 1..stop]) + CancelledResults(wf.steps[stop..], end.token.reason),
             LeftOut(wf.id, wf.steps[i + 1..]), []);
    assert calls + [] == calls;
    ExecuteFirst(sv, wf.steps, i, stop, pr.world);
  }

  lemma RunsToEnd<W>(sv: Services<W>, wf: Workflow, stop: nat, pr: Progress<W>, end: Progress<W>)
    requires stop <= |wf.steps| && pr.failure.None?
    requires end.world == pr.world && end.failure == pr.failure && end.cancelled == (stop < |wf.steps|)
    requires Adds(pr, end, AllSkipped([]) + CancelledResults(wf.steps[stop..], end.token.reason),
                  LeftOut(wf.id, wf.steps[stop..]), [])
    ensures RunsTo(sv, wf, stop, stop, stop, pr, end)
  {
    assert wf.steps[stop..stop] == [];
  }

  lemma LoopAfterFailingStep<W>(
      sv: Services<W>, wf: Workflow, signals: Signals, p: nat, i: nat, pr: Progress<W>, stop: nat)
    requires StopsFrom(wf, signals, p, i, stop) && i < stop
    requires !pr.cancelled && !pr.token.cancelled && pr.failure.None? && Turn(sv, wf, signals, p, i, pr).failure.Some?
    ensures RunsTo(sv, wf, i, i + 1, stop, pr, Loop(sv, wf, signals, p, i, pr))
  {
    var next := Turn(sv, wf, signals, p, i, pr);
    ExecuteTurn(sv, wf, signals, p, i, pr);
    LoopAfterFailure(sv, wf, signals, p, i + 1, next, stop);
    RunsToAfterFailure(sv, wf, i, stop, pr, next, Loop(sv, wf, signals, p, i + 1, next));
  }

  /** Before any failure, the loop executes until the first failure or the cancellation. */
  lemma {:induction false} LoopExecutes<W>(
      sv: Services<W>, wf: Workflow, signals: Signals, p: nat, i: nat, pr: Progress<W>, stop: nat)
    returns (m: nat)
    requires StopsFrom(wf, signals, p, i, stop) && !pr.cancelled && !pr.token.cancelled && pr.failure.None?
    ensures RunsTo(sv, wf, i, m, stop, pr, Loop(sv, wf, signals, p, i, pr))
    decreases |wf.steps| - i
  {
    m := i;
    if i == stop {
      CancelOrEnd(sv, wf, signals, p, pr, stop);
      RunsToEnd(sv, wf, stop, pr, Loop(sv, wf, signals, p, i, pr));
    } else {
      var next := Turn(sv, wf, signals, p, i, pr);
      if next.failure.Some? {
        m := i + 1;
        LoopAfterFailingStep(sv, wf, signals, p, i, pr, stop);
      } else {
        ExecuteTurn(sv, wf, signals, p, i, pr);
        m := LoopExecutes(sv, wf, signals, p, i + 1, next, stop);
        RunsToAfterSuccess(sv, wf, i, m, stop, pr, next, Loop(sv, wf, signals, p, i + 1, next));
      }
    }
  }

  /** What a run publishes, given what it executed. */
  function Log<W>(wf: Workflow, precancelled: bool, stop: nat, s: Straight<W>, reason: string): seq<Event>
    requires |s.results| <= stop <= |wf.steps|
  {
    if precancelled then [RunCancelled(wf.id, reason)]
    else
      [Started(wf.id, |wf.steps|)] + Narrated(wf.id, s.results) + LeftOut(wf.id, wf.steps[|s.results|..])
      + (if stop < |wf.steps| then [RunCancelled(wf.id, reason)]
         else if s.ok then [RunCompleted(wf.id, |wf.steps|)]
         else [])
  }

  /** `o` is the plain execution of the steps before `stop`, up to their first failure, reported in full. */
  ghost predicate Means<W>(sv: Services<W>, wf: Workflow, precancelled: bool, stop: nat, w: W, o: Outcome<W>)
    requires stop <= |wf.steps|
  {
    var s := Execute(sv, wf.steps[..stop], w);
    && o.world == s.world && o.calls == s.calls
    && o.results == s.results + (AllSkipped(wf.steps[|s.results|..stop])
                                 + CancelledResults(wf.steps[stop..], o.token.reason))
    && o.state == (if stop < |wf.steps| then Cancelled else if s.ok then Completed else Failed)
    && o.events == Log(wf, precancelled, stop, s, o.token.reason)
  }

  lemma FinishedMeans<W>(sv: Services<W>, wf: Workflow, m: nat, stop: nat, t: Token, w: W, end: Progress<W>)
    requires stop <= |wf.steps| && RunsTo(sv, wf, 0, m, stop, Begun(wf, t, w), end)
    ensures Means(sv, wf, false, stop, w, Finished(wf, end))
  {
    var s := Execute(sv, wf.steps[..stop], w);
    assert wf.steps[0..stop] == wf.steps[..stop];
    assert m == |s.results|;
    Regroup([Started(wf.id, |wf.steps|)], Narrated(wf.id, s.results), LeftOut(wf.id, wf.steps[|s.results|..]));
  }

  /** A run cancelled before step `stop` is the plain execution of the steps before it. */
  lemma RunMeaning<W>(sv: Services<W>, wf: Workflow, t: Token, signals: Signals, p: nat, w: W, stop: nat)
    requires StopsAt(wf, t, signals, p, stop)
    ensures Means(sv, wf, wf.steps != [] && Poll(t, signals, p).cancelled, stop, w, Ran(sv, wf, t, signals, p, w))
  {
    if wf.steps == [] || Poll(t, signals, p).cancelled {
      assert wf.steps[..stop] == [] && wf.steps[0..0] == [];
      assert wf.steps[stop..] == wf.steps;
    } else {
      var t0 := Poll(t, signals, p);
      var m := LoopExecutes(sv, wf, signals, p, 0, Begun(wf, t0, w), stop);
      FinishedMeans(sv, wf, m, stop, t0, w, Loop(sv, wf, signals, p, 0, Begun(wf, t0, w)));
    }
  }

  predicate ForStep(r: StepResult, step: Step) {
    r.stepId == step.id && r.capability == step.capability
  }

  predicate CallFor(c: Call, step: Step, r: StepResult) {
    c.stepId == step.id && c.input == step.input && r.target == Some(c.target)
  }

  /** The number of steps that completed. */
  function Successes<W>(s: Straight<W>): (done: int)
    ensures done <= |s.results|
  {
    if s.ok then |s.results| else |s.results| - 1
  }

  /** Every completed step cost one executor call, a failed one at most one. */
  lemma {:induction false} ExecuteCalls<W>(sv: Services<W>, steps: seq<Step>, w: W)
    ensures
      var s := Execute(sv, steps, w);
      0 <= Successes(s) <= |s.calls| <= |s.results|
    decreases |steps|
  {
    if steps != [] {
      ExecuteCalls(sv, steps[1..], Executed(sv, steps[0], w).0);
    }
  }

  /** A completed step cost exactly one call, a failed one at most one. */
  lemma ExecutedCalls<W>(sv: Services<W>, step: Step, w: W)
    ensures
      var (_, r, calls) := Executed(sv, step, w);
      && ForStep(r, step) && r.state in {StepCompleted, StepFailed}
      && (if r.state == StepCompleted then |calls| == 1 else |calls| <= 1)
      && (forall c :: c in calls ==> CallFor(c, step, r))
  {
  }

  /** The k-th result and call are for the k-th step; only the last result can be a failure. */
  lemma {:induction false} ExecuteAt<W>(sv: Services<W>, steps: seq<Step>, w: W, k: nat)
    requires k < |Execute(sv, steps, w).results|
    ensures
      var s := Execute(sv, steps, w);
      && ForStep(s.results[k], steps[k])
      && s.results[k].state == (if k < Successes(s) then StepCompleted else StepFailed)
      && (k < |s.calls| ==> CallFor(s.calls[k], steps[k], s.results[k]))
    decreases |steps|
  {
    var (w1, r, calls) := Executed(sv, steps[0], w);
    ExecutedCalls(sv, steps[0], w);
    if r.state == StepCompleted {
      var rest := Execute(sv, steps[1..], w1);
      ExecuteCalls(sv, steps[1..], w1);
      if 0 < k {
        ExecuteAt(sv, steps[1..], w1, k - 1);
        ShiftAt(r, rest.results, k);
        ShiftAt(calls[0], rest.calls, k);
        assert calls == [calls[0]];
      }
    }
  }

  lemma ShiftAt<T>(x: T, xs: seq<T>, k: nat)
    requires 0 < k
    ensures k <= |xs| ==> ([x] + xs)[k] == xs[k - 1]
  {
  }

  lemma PartAt<T>(a: seq<T>, b: seq<T>, c: seq<T>, k: nat)
    requires k < |a| + |b| + |c|
    ensures (a + (b + c))[k] == if k < |a| then a[k] else if k < |a| + |b| then b[k - |a|] else c[k - |a| - |b|]
  {
  }

  lemma SkippedAt(steps: seq<Step>, from: nat, to: nat, k: nat)
    requires from <= k < to <= |steps|
    ensures AllSkipped(steps[from..to])[k - from] == Skipped(steps[k])
  {
  }

  lemma CancelledAt(steps: seq<Step>, from: nat, reason: string, k: nat)
    requires from <= k < |steps|
    ensures CancelledResults(steps[from..], reason)[k - from] == CancelledResult(steps[k], reason)
  {
  }

  lemma ResultAt<W>(sv: Services<W>, wf: Workflow, precancelled: bool, stop: nat, w: W, o: Outcome<W>, k: nat)
    requires k < |wf.steps| && stop <= |wf.steps| && Means(sv, wf, precancelled, stop, w, o)
    ensures |o.results| == |wf.steps|
    ensures ForStep(o.results[k], wf.steps[k])
    ensures
      var s := Execute(sv, wf.steps[..stop], w);
      && o.results[k].state == (if k < Successes(s) then StepCompleted
                                else if k < |s.results| then StepFailed
                                else if k < stop then StepSkipped
                                else StepCancelled)
      && (k < |s.results| ==> o.results[k] == s.results[k])
  {
    var s := Execute(sv, wf.steps[..stop], w);
    var skipped := AllSkipped(wf.steps[|s.results|..stop]);
    var cancelled := CancelledResults(wf.steps[stop..], o.token.reason);
    PartAt(s.results, skipped, cancelled, k);
    if k < |s.results| {
      ExecuteAt(sv, wf.steps[..stop], w, k);
    } else if k < stop {
      SkippedAt(wf.steps, |s.results|, stop, k);
    } else {
      CancelledAt(wf.steps, stop, o.token.reason, k);
    }
  }

  /** COMPLETED up to `done`, then at most one FAILED with SKIPPED after it, then CANCELLED from `stop`. */
  ghost predicate Shaped(rs: seq<StepResult>, done: nat, stop: nat) {
    && done <= stop <= |rs|
    && (forall k | 0 <= k < done :: rs[k].state == StepCompleted)
    && (done < stop ==> rs[done].state == StepFailed)
    && (forall k | done < k < stop :: rs[k].state == StepSkipped)
    && (forall k | stop <= k < |rs| :: rs[k].state == StepCancelled)
  }

  /** Every run, whenever it is cancelled: one result a step, in order, of the documented shape; one executor call
      a completed step, at most one for the failed step, and none for a skipped or cancelled step. */
  lemma ResultShape<W>(sv: Services<W>, wf: Workflow, t: Token, signals: Signals, p: nat, w: W)
    returns (done: nat, stop: nat)
    ensures StopsAt(wf, t, signals, p, stop)
    ensures
      var o := Ran(sv, wf, t, signals, p, w);
      && |o.results| == |wf.steps|
      && (forall k | 0 <= k < |wf.steps| :: ForStep(o.results[k], wf.steps[k]))
      && Shaped(o.results, done, stop)
      && done <= |o.calls| <= done + 1 && |o.calls| <= stop
      && (forall k | 0 <= k < |o.calls| :: CallFor(o.calls[k], wf.steps[k], o.results[k]))
      && o.state == (if stop < |wf.steps| then Cancelled else if done < stop then Failed else Completed)
  {
    stop := StopExists(wf, t, signals, p);
    var o := Ran(sv, wf, t, signals, p, w);
    RunMeaning(sv, wf, t, signals, p, w, stop);
    var s := Execute(sv, wf.steps[..stop], w);
    ExecuteCalls(sv, wf.steps[..stop], w);
    done := Successes(s);
    forall k | 0 <= k < |wf.steps| {
      ResultAt(sv, wf, wf.steps != [] && Poll(t, signals, p).cancelled, stop, w, o, k);
    }
    forall k | 0 <= k < |s.calls| {
      ExecuteAt(sv, wf.steps[..stop], w, k);
    }
  }

  /** Every run reports every step, so its step_results[0] exists when it has a step. */
  lemma ResultCount<W>(sv: Services<W>, wf: Workflow, t: Token, signals: Signals, p: nat, w: W)
    ensures |Ran(sv, wf, t, signals, p, w).results| == |wf.steps|
  {
    var _, _ := ResultShape(sv, wf, t, signals, p, w);
  }

  /** What a final state says about the results. */
  ghost predicate StateMeans(state: WorkflowState, rs: seq<StepResult>) {
    && (state == Cancelled <==> rs != [] && rs[|rs| - 1].state == StepCancelled)
    && (state == Failed <==>
          (exists r :: r in rs && r.state == StepFailed) && forall r :: r in rs ==> r.state != StepCancelled)
    && (state == Completed <==> forall r :: r in rs ==> r.state == StepCompleted)
  }

  lemma ShapedMeans(rs: seq<StepResult>, done: nat, stop: nat)
    requires Shaped(rs, done, stop)
    ensures StateMeans(if stop < |rs| then Cancelled else if done < stop then Failed else Completed, rs)
  {
    if done < stop {
      assert rs[done] in rs;
    }
    if stop < |rs| {
      assert rs[|rs| - 1] in rs;
    }
  }

  /** CANCELLED exactly when the last result is, FAILED exactly when some result is and none is CANCELLED, COMPLETED
      exactly when all are. */
  lemma StateMeansResults<W>(sv: Services<W>, wf: Workflow, t: Token, signals: Signals, p: nat, w: W)
    ensures StateMeans(Ran(sv, wf, t, signals, p, w).state, Ran(sv, wf, t, signals, p, w).results)
  {
    var done, stop := ResultShape(sv, wf, t, signals, p, w);
    ShapedMeans(Ran(sv, wf, t, signals, p, w).results, done, stop);
  }
}
