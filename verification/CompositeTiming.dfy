/** When a composite is cancelled: src/shyam/composite/engine.py reads the token before each step, and the step's own
    workflow run reads it twice more. */
module CompositeTiming {
  import opened Canonical
  import opened Workflow
  import opened WorkflowTheorems
  import opened Composite
  import opened StepOutcomes

  /** None of the first `n` readings of the token finds it cancelled. */
  ghost predicate Still(t: Token, signals: Signals, n: nat) {
    (0 < n ==> !t.cancelled) && forall q: nat | q < n :: signals(q).None?
  }

  /** Reading `q` is the first that finds the token cancelled, with this reason. */
  ghost predicate FirstFinds(t: Token, signals: Signals, q: nat, reason: string) {
    && Still(t, signals, q)
    && (if signals(q).Some? then reason == signals(q).value else q == 0 && t.cancelled && reason == t.reason)
  }

  /** Cancelled exactly when one of the readings finds the token so: before a step, with no result for that step, or
      within its run, with a CANCELLED result for it. Otherwise no reading before the end does. */
  ghost predicate Timed<W>(c: Composite, t: Token, signals: Signals, end: Invocation<W>) {
    var n := |end.results|;
    match end.state
    case InputsMissing(_) => true
    case Returned(Cancelled) =>
      exists q: nat ::
        && FirstFinds(t, signals, q, end.token.reason) && q / 3 < |c.steps|
        && (if q % 3 == 0 then n == q / 3 else n == q / 3 + 1 && end.results[n - 1].state == StepCancelled)
    case Raised(_, _, _) => Still(t, signals, if n < |c.steps| then 3 * n + 1 else 3 * n)
    case Returned(_) => Still(t, signals, 3 * n)
  }

  /** The single-step run of step k is cancelled exactly when its first or its second reading finds the token so. */
  lemma {:induction false} StepRunTimed<W>(sv: Services<W>, wfId: nat -> string, step: CompositeStep,
      input: map<string, Value>, t: Token, signals: Signals, k: nat, w: W)
    requires !t.cancelled
    ensures
      var o := StepRun(sv, wfId, step, input, t, signals, k, w);
      var first, second := signals(3 * k + 1), signals(3 * k + 2);
      if first.Some? then o.results[0].state == StepCancelled && o.token.reason == first.value
      else if second.Some? then o.results[0].state == StepCancelled && o.token.reason == second.value
      else o.results[0].state != StepCancelled && o.token == t
  {
    var wf, p := Workflow(wfId(k), [BuiltStep(step, input)]), 3 * k + 1;
    var worlds, n, stop := RunFollows(sv, wf, t, signals, p, w);
    var o := Ran(sv, wf, t, signals, p, w);
    assert signals(p + 1) == signals(3 * k + 2);
    if signals(p).None? && signals(p + 1).None? {
      assert stop == 1;
      assert o.results[..n][0] == o.results[0];
      LoopReason(sv, wf, signals, p, 0, Begun(wf, t, w), 1);
    } else {
      assert stop == 0;
    }
  }

  /** Nothing cancelled the first k steps, which all have a result. */
  ghost predicate OnTime<W>(t: Token, signals: Signals, k: nat, x: Context<W>) {
    |x.results| == k && Still(t, signals, 3 * k) && x.token == t
  }

  lemma StillThrough(t: Token, signals: Signals, k: nat)
    requires Still(t, signals, 3 * k) && !t.cancelled
    requires signals(3 * k).None? && signals(3 * k + 1).None? && signals(3 * k + 2).None?
    ensures Still(t, signals, 3 * (k + 1))
  {
    forall q: nat | q < 3 * (k + 1)
      ensures signals(q).None?
    {
      assert q < 3 * k || q == 3 * k || q == 3 * k + 1 || q == 3 * k + 2;
    }
  }

  /** The turn of step k. */
  lemma TurnTimed<W>(sv: Services<W>, wfId: nat -> string, c: Composite, inputs: map<string, Value>, t: Token,
                     signals: Signals, k: nat, x: Context<W>)
    requires k < |c.steps| && OnTime(t, signals, k, x)
    ensures
      match StepTurn(sv, wfId, c.steps[k], inputs, signals, k, x)
      case Over(end) => Timed(c, t, signals, end)
      case Onward(z) => OnTime(t, signals, k + 1, z)
  {
    var step, y := c.steps[k], x.(token := Poll(x.token, signals, 3 * k));
    if y.token.cancelled {
      assert FirstFinds(t, signals, 3 * k, y.token.reason);
      assert (3 * k) / 3 == k && (3 * k) % 3 == 0;
    } else {
      match ResolveAll(step.bindings, inputs, y.outputs)
      case Unresolved(_, _) =>
      case Resolved(input) => StepTimed(sv, wfId, c, inputs, t, signals, k, x, input);
    }
  }

  lemma StepTimed<W>(sv: Services<W>, wfId: nat -> string, c: Composite, inputs: map<string, Value>, t: Token,
                     signals: Signals, k: nat, x: Context<W>, input: map<string, Value>)
    requires k < |c.steps| && OnTime(t, signals, k, x) && !t.cancelled && signals(3 * k).None?
    requires ResolveAll(c.steps[k].bindings, inputs, x.outputs) == Resolved(input)
    ensures
      match StepTurn(sv, wfId, c.steps[k], inputs, signals, k, x)
      case Over(end) => Timed(c, t, signals, end)
      case Onward(z) => OnTime(t, signals, k + 1, z)
  {
    assert x.(token := Poll(x.token, signals, 3 * k)) == x;
    var o := StepRun(sv, wfId, c.steps[k], input, t, signals, k, x.world);
    StepRunTimed(sv, wfId, c.steps[k], input, t, signals, k, x.world);
    StepRunEnds(sv, wfId, c.steps[k], input, t, signals, k, x.world);
    if signals(3 * k + 1).Some? {
      assert FirstFinds(t, signals, 3 * k + 1, o.token.reason) && (3 * k + 1) / 3 == k && (3 * k + 1) % 3 == 1;
    } else if signals(3 * k + 2).Some? {
      assert FirstFinds(t, signals, 3 * k + 2, o.token.reason) && (3 * k + 2) / 3 == k && (3 * k + 2) % 3 == 2;
    } else {
      StillThrough(t, signals, k);
    }
  }

  /** The state of a single-step run is that of its result. */
  lemma StepRunEnds<W>(sv: Services<W>, wfId: nat -> string, step: CompositeStep,
      input: map<string, Value>, t: Token, signals: Signals, k: nat, w: W)
    ensures
      var o := StepRun(sv, wfId, step, input, t, signals, k, w);
      o.state == match o.results[0].state
                 case StepCompleted => Completed
                 case StepCancelled => Cancelled
                 case _ => Failed
  {
    StateMeansResults(sv, Workflow(wfId(k), [BuiltStep(step, input)]), t, signals, 3 * k + 1, w);
    var rs := StepRun(sv, wfId, step, input, t, signals, k, w).results;
    assert rs[0] in rs;
  }

  lemma {:induction false} InvokeFromTimed<W>(sv: Services<W>, wfId: nat -> string, c: Composite,
      inputs: map<string, Value>, t: Token, signals: Signals, k: nat, x: Context<W>)
    requires k <= |c.steps| && OnTime(t, signals, k, x)
    ensures Timed(c, t, signals, InvokeFrom(sv, wfId, c, inputs, signals, k, x))
    decreases |c.steps| - k
  {
    if k < |c.steps| {
      TurnTimed(sv, wfId, c, inputs, t, signals, k, x);
      match StepTurn(sv, wfId, c.steps[k], inputs, signals, k, x)
      case Over(_) =>
      case Onward(z) => InvokeFromTimed(sv, wfId, c, inputs, t, signals, k + 1, z);
    }
  }

  /** Whenever it is cancelled, an invocation stops at the first reading that finds the token cancelled. */
  lemma {:induction false} InvokedTimed<W>(sv: Services<W>, wfId: nat -> string, c: Composite,
      inputs: map<string, Value>, t: Token, signals: Signals, w: W)
    ensures Timed(c, t, signals, Invoked(sv, wfId, c, inputs, t, signals, w))
  {
    if Missing(c.inputs, inputs) == [] {
      InvokeFromTimed(sv, wfId, c, inputs, t, signals, 0, Context(w, map[], [], [], [], t));
    }
  }
}
