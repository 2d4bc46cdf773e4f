/** How the results, the executor calls and the outputs of a composite follow from its inputs and from what the
    collaborators answered: src/shyam/composite/engine.py. */
module CompositeOutcomes {
  import opened Options
  import opened Canonical
  import opened Workflow
  import opened Composite
  import opened BindingValues
  import opened StepOutcomes

  /** `built` are the composite's steps, each with the values of its bindings in its input: values of the composite's
      inputs and of the outputs of the steps before it. */
  ghost predicate Prepared(c: Composite, inputs: map<string, Value>, built: seq<Step>, rs: seq<StepResult>) {
    && |built| == |rs| <= |c.steps|
    && forall k | 0 <= k < |rs| :: PreparedAt(c, inputs, built, rs, k)
  }

  ghost predicate PreparedAt(c: Composite, inputs: map<string, Value>, built: seq<Step>, rs: seq<StepResult>, k: nat)
    requires k < |built| && k < |rs| && k < |c.steps|
  {
    && built[k].id == c.steps[k].id && built[k].capability == c.steps[k].capability
    && built[k].constraints == c.steps[k].constraints
    && exists outputs :: HoldsOutputs(rs[..k], outputs)
                         && FieldsGive(c.steps[k].bindings, inputs, outputs, built[k].input)
  }

  /** A step was executed in its world, or cancelled before it could change it. */
  ghost predicate Runs<W>(sv: Services<W>, step: Step, w: W, r: StepResult, after: W) {
    Follows(sv, step, w, r, after) || (Blank(r, step) && r.state == StepCancelled && after == w)
  }

  /** The worlds are threaded through the steps, and each step that reached a registered target made one call. */
  ghost predicate Trail<W>(sv: Services<W>, built: seq<Step>, w: W, worlds: seq<W>, rs: seq<StepResult>, end: W) {
    && |worlds| == |rs| + 1 && |rs| == |built| && worlds[0] == w && worlds[|rs|] == end
    && (forall k | 0 <= k < |rs| :: Runs(sv, built[k], worlds[k], rs[k], worlds[k + 1]))
    && (forall k | 0 <= k < |rs| - 1 :: rs[k].state == StepCompleted)
  }

  ghost predicate Called<W>(sv: Services<W>, built: seq<Step>, worlds: seq<W>, rs: seq<StepResult>, calls: seq<Call>)
    requires |worlds| == |rs| + 1 && |rs| == |built|
  {
    && |calls| <= |rs|
    && (forall k | 0 <= k < |calls| :: Calls(sv, built[k], worlds[k], calls[k]) && rs[k].state != StepCancelled)
    && (forall k | |calls| <= k < |rs| :: rs[k].state == StepCancelled || !Reaches(sv, built[k], worlds[k]))
  }

  /** How the invocation ends, given its results. */
  ghost predicate Ends<W>(c: Composite, inputs: map<string, Value>, end: Invocation<W>) {
    var rs := end.results;
    match end.state
    case Returned(Completed) =>
      && |rs| == |c.steps| && end.error == None
      && exists outputs :: HoldsOutputs(rs, outputs) && FieldsGive(c.outputs, inputs, outputs, end.outputs)
    case Raised(step, field, error) =>
      && end.outputs == map[] && end.error == None && |rs| <= |c.steps|
      && step == (if |rs| < |c.steps| then c.steps[|rs|].id else "output")
      && var fields := if |rs| < |c.steps| then c.steps[|rs|].bindings else c.outputs;
         exists outputs :: HoldsOutputs(rs, outputs) && FieldLacks(fields, inputs, outputs, field, error)
    case Returned(Failed) =>
      && end.outputs == map[] && rs != [] && rs[|rs| - 1].state == StepFailed
      && end.error.Some? && IsErrorOf(rs[|rs| - 1], end.error.value)
    case Returned(Cancelled) => end.outputs == map[] && end.error.Some? && CancelReason(rs, end)
    case InputsMissing(names) =>
      && end.outputs == map[] && end.error == None && rs == []
      && forall n :: n in names <==> n in c.inputs && n !in inputs
  }

  /** A composite cancelled inside a step reports the reason, unless it is empty. */
  predicate CancelReason<W>(rs: seq<StepResult>, end: Invocation<W>)
    requires end.error.Some?
  {
    || end.error == Some(end.token.reason)
    || (rs != [] && end.token.reason == "" && end.error == Some("Step '" + rs[|rs| - 1].stepId + "' failed"))
  }

  // ---- One step ----

  /** The single-step run of a step is its execution, or its cancellation before that. */
  ghost predicate OneRun<W>(sv: Services<W>, step: Step, w: W, o: Outcome<W>)
    requires |o.results| == 1
  {
    var r := o.results[0];
    && Runs(sv, step, w, r, o.world)
    && (if r.state != StepCancelled && Reaches(sv, step, w) then |o.calls| == 1 && Calls(sv, step, w, o.calls[0])
        else o.calls == [])
    && (r.state == StepFailed ==> o.state == Failed && o.error.Some? && IsErrorOf(r, o.error.value))
    && (r.state == StepCancelled ==> o.state == Cancelled && o.error == Some(o.token.reason))
  }

  lemma {:induction false} StepRunFollows<W>(sv: Services<W>, wfId: nat -> string, step: CompositeStep,
      input: map<string, Value>, t: Token, signals: Signals, k: nat, w: W)
    ensures OneRun(sv, BuiltStep(step, input), w, StepRun(sv, wfId, step, input, t, signals, k, w))
  {
    var built := BuiltStep(step, input);
    var wf := Workflow(wfId(k), [built]);
    var worlds, n, stop := RunFollows(sv, wf, t, signals, 3 * k + 1, w);
    var o := Ran(sv, wf, t, signals, 3 * k + 1, w);
    OneRunOf(sv, wf, built, w, worlds, n, stop, o);
  }

  lemma OneRunOf<W>(sv: Services<W>, wf: Workflow, built: Step, w: W, worlds: seq<W>, n: nat, stop: nat, o: Outcome<W>)
    requires wf.steps == [built] && LeavesOut(wf, o.results, n, stop, o.token.reason)
    requires Threads(sv, wf.steps[..stop], w, worlds, o.results[..n], o.world)
    requires CallsOf(sv, wf.steps[..stop], worlds, n, o.calls)
    requires n < stop ==> 0 < n
    requires
      o.state == if stop < |wf.steps| then Cancelled
                 else if 0 < n && o.results[n - 1].state == StepFailed then Failed else Completed
    requires StepOutcomes.Reports(o.state, o.results, o.error, o.token.reason)
    ensures |o.results| == 1 && OneRun(sv, built, w, o)
  {
    if stop == 1 {
      assert wf.steps[..stop] == [built] && o.results[..n] == o.results;
    } else {
      assert o.results[..n] == [];
    }
  }

  // ---- The chain ----

  /** The steps so far have completed, and the context holds what they left. */
  ghost predicate Underway<W>(sv: Services<W>, c: Composite, inputs: map<string, Value>, w: W, k: nat, x: Context<W>,
                              built: seq<Step>, worlds: seq<W>) {
    && k == |x.results| == |x.calls| && HoldsOutputs(x.results, x.outputs)
    && Prepared(c, inputs, built, x.results)
    && Trail(sv, built, w, worlds, x.results, x.world)
    && Called(sv, built, worlds, x.results, x.calls)
    && (forall r :: r in x.results ==> r.state == StepCompleted)
  }

  /** The whole invocation, as far as it came. */
  ghost predicate Explains<W>(sv: Services<W>, c: Composite, inputs: map<string, Value>, w: W, end: Invocation<W>,
                              built: seq<Step>, worlds: seq<W>) {
    && Prepared(c, inputs, built, end.results)
    && Trail(sv, built, w, worlds, end.results, end.world)
    && Called(sv, built, worlds, end.results, end.calls)
    && Ends(c, inputs, end)
  }

  lemma PreparedThen(c: Composite, inputs: map<string, Value>, built: seq<Step>, rs: seq<StepResult>,
                     outputs: map<string, Value>, step: Step, r: StepResult)
    requires Prepared(c, inputs, built, rs) && |rs| < |c.steps| && HoldsOutputs(rs, outputs)
    requires step == BuiltStep(c.steps[|rs|], step.input)
    requires FieldsGive(c.steps[|rs|].bindings, inputs, outputs, step.input)
    ensures Prepared(c, inputs, built + [step], rs + [r])
  {
    forall k | 0 <= k < |rs| + 1
      ensures PreparedAt(c, inputs, built + [step], rs + [r], k)
    {
      if k < |rs| {
        assert PreparedAt(c, inputs, built, rs, k);
        assert (rs + [r])[..k] == rs[..k];
      } else {
        assert (rs + [r])[..k] == rs;
      }
    }
  }

  lemma TrailThen<W>(sv: Services<W>, built: seq<Step>, w: W, worlds: seq<W>, rs: seq<StepResult>, end: W,
                     step: Step, r: StepResult, after: W)
    requires Trail(sv, built, w, worlds, rs, end) && Runs(sv, step, end, r, after)
    requires forall x :: x in rs ==> x.state == StepCompleted
    ensures Trail(sv, built + [step], w, worlds + [after], rs + [r], after)
  {
    assert forall k | 0 <= k < |rs| :: rs[k] in rs;
  }

  lemma CalledThen<W>(sv: Services<W>, built: seq<Step>, w: W, worlds: seq<W>, rs: seq<StepResult>, calls: seq<Call>,
                      step: Step, r: StepResult, after: W, more: seq<Call>)
    requires |worlds| == |rs| + 1 && |rs| == |built| == |calls| && Called(sv, built, worlds, rs, calls)
    requires
      if r.state != StepCancelled && Reaches(sv, step, worlds[|rs|])
      then |more| == 1 && Calls(sv, step, worlds[|rs|], more[0])
      else more == []
    ensures Called(sv, built + [step], worlds + [after], rs + [r], calls + more)
  {
  }

  /** A turn that adds a result, be it the last or not. */
  lemma TurnAdds<W>(sv: Services<W>, c: Composite, inputs: map<string, Value>, w: W, x: Context<W>,
                    built: seq<Step>, worlds: seq<W>, step: Step, o: Outcome<W>)
    requires Underway(sv, c, inputs, w, |x.results|, x, built, worlds) && |x.results| < |c.steps|
    requires step == BuiltStep(c.steps[|x.results|], step.input)
    requires FieldsGive(c.steps[|x.results|].bindings, inputs, x.outputs, step.input)
    requires |o.results| == 1 && OneRun(sv, step, x.world, o)
    ensures
      var rs := x.results + [o.results[0]];
      && Prepared(c, inputs, built + [step], rs)
      && Trail(sv, built + [step], w, worlds + [o.world], rs, o.world)
      && Called(sv, built + [step], worlds + [o.world], rs, x.calls + o.calls)
  {
    var r := o.results[0];
    PreparedThen(c, inputs, built, x.results, x.outputs, step, r);
    TrailThen(sv, built, w, worlds, x.results, x.world, step, r, o.world);
    CalledThen(sv, built, w, worlds, x.results, x.calls, step, r, o.world, o.calls);
  }

  lemma Onwards<W>(sv: Services<W>, c: Composite, inputs: map<string, Value>, w: W, x: Context<W>,
                   built: seq<Step>, worlds: seq<W>, step: Step, o: Outcome<W>)
    requires Underway(sv, c, inputs, w, |x.results|, x, built, worlds) && |x.results| < |c.steps|
    requires step == BuiltStep(c.steps[|x.results|], step.input)
    requires FieldsGive(c.steps[|x.results|].bindings, inputs, x.outputs, step.input)
    requires |o.results| == 1 && OneRun(sv, step, x.world, o) && o.results[0].state == StepCompleted
    ensures
      Underway(sv, c, inputs, w, |x.results| + 1, AfterStep(x, step.id, o), built + [step], worlds + [o.world])
  {
    TurnAdds(sv, c, inputs, w, x, built, worlds, step, o);
    HoldsThen(x.results, x.outputs, o.results[0]);
  }

  lemma ConcludeExplains<W>(sv: Services<W>, c: Composite, inputs: map<string, Value>, w: W, x: Context<W>,
                            built: seq<Step>, worlds: seq<W>)
    requires Underway(sv, c, inputs, w, |c.steps|, x, built, worlds)
    ensures Explains(sv, c, inputs, w, Conclude(c, inputs, x), built, worlds)
  {
    ResolveAllGives(c.outputs, inputs, x.outputs);
  }

  lemma CancelExplains<W>(sv: Services<W>, c: Composite, inputs: map<string, Value>, w: W, k: nat, x: Context<W>,
                          t: Token, built: seq<Step>, worlds: seq<W>)
    requires Underway(sv, c, inputs, w, k, x, built, worlds)
    ensures
      var end := Stopped(x.(token := t), Returned(Cancelled), Some(t.reason));
      Explains(sv, c, inputs, w, end, built, worlds)
  {
  }

  lemma RaiseExplains<W>(sv: Services<W>, c: Composite, inputs: map<string, Value>, w: W, k: nat, x: Context<W>,
                         t: Token, field: string, error: BindingError, built: seq<Step>, worlds: seq<W>)
    requires k < |c.steps| && Underway(sv, c, inputs, w, k, x, built, worlds)
    requires FieldLacks(c.steps[k].bindings, inputs, x.outputs, field, error)
    ensures
      var end := Stopped(x.(token := t), Raised(c.steps[k].id, field, error), None);
      Explains(sv, c, inputs, w, end, built, worlds)
  {
  }

  lemma FailureExplains<W>(sv: Services<W>, c: Composite, inputs: map<string, Value>, w: W, x: Context<W>,
                           built: seq<Step>, worlds: seq<W>, step: Step, o: Outcome<W>)
    requires Underway(sv, c, inputs, w, |x.results|, x, built, worlds) && |x.results| < |c.steps|
    requires step == BuiltStep(c.steps[|x.results|], step.input)
    requires FieldsGive(c.steps[|x.results|].bindings, inputs, x.outputs, step.input)
    requires |o.results| == 1 && OneRun(sv, step, x.world, o) && o.results[0].state != StepCompleted
    ensures
      var end := Stopped(AfterStep(x, step.id, o), Returned(o.state), Some(Detail(o.error, step.id)));
      Explains(sv, c, inputs, w, end, built + [step], worlds + [o.world])
  {
    TurnAdds(sv, c, inputs, w, x, built, worlds, step, o);
  }

  /** The turn of step k ends the invocation as explained, or the chain is still underway. */
  lemma {:induction false} TurnExplains<W>(sv: Services<W>, wfId: nat -> string, c: Composite,
      inputs: map<string, Value>, signals: Signals, w: W, k: nat, x: Context<W>, built: seq<Step>, worlds: seq<W>)
    returns (built': seq<Step>, worlds': seq<W>)
    requires k < |c.steps| && Underway(sv, c, inputs, w, k, x, built, worlds)
    ensures
      match StepTurn(sv, wfId, c.steps[k], inputs, signals, k, x)
      case Over(end) => Explains(sv, c, inputs, w, end, built', worlds')
      case Onward(z) => Underway(sv, c, inputs, w, k + 1, z, built', worlds')
  {
    built', worlds' := built, worlds;
    var step, y := c.steps[k], x.(token := Poll(x.token, signals, 3 * k));
    CancelExplains(sv, c, inputs, w, k, x, y.token, built, worlds);
    if !y.token.cancelled {
      ResolveAllGives(step.bindings, inputs, y.outputs);
      match ResolveAll(step.bindings, inputs, y.outputs)
      case Unresolved(field, error) => RaiseExplains(sv, c, inputs, w, k, x, y.token, field, error, built, worlds);
      case Resolved(input) =>
        var one, o := BuiltStep(step, input), StepRun(sv, wfId, step, input, y.token, signals, k, y.world);
        StepRunFollows(sv, wfId, step, input, y.token, signals, k, y.world);
        built', worlds' := built + [one], worlds + [o.world];
        if o.results[0].state == StepCompleted {
          Onwards(sv, c, inputs, w, y, built, worlds, one, o);
        } else {
          FailureExplains(sv, c, inputs, w, y, built, worlds, one, o);
        }
    }
  }

  lemma {:induction false} InvokeFromFollows<W>(sv: Services<W>, wfId: nat -> string, c: Composite,
      inputs: map<string, Value>, signals: Signals, w: W, k: nat, x: Context<W>, built: seq<Step>, worlds: seq<W>)
    returns (built': seq<Step>, worlds': seq<W>)
    requires k <= |c.steps| && Underway(sv, c, inputs, w, k, x, built, worlds)
    ensures Explains(sv, c, inputs, w, InvokeFrom(sv, wfId, c, inputs, signals, k, x), built', worlds')
    decreases |c.steps| - k
  {
    if k == |c.steps| {
      ConcludeExplains(sv, c, inputs, w, x, built, worlds);
      built', worlds' := built, worlds;
    } else {
      built', worlds' := TurnExplains(sv, wfId, c, inputs, signals, w, k, x, built, worlds);
      match StepTurn(sv, wfId, c.steps[k], inputs, signals, k, x)
      case Over(_) =>
      case Onward(z) =>
        built', worlds' := InvokeFromFollows(sv, wfId, c, inputs, signals, w, k + 1, z, built', worlds');
    }
  }

  /** Every invocation, whenever it is cancelled: each step that ran was given exactly the values that its bindings
      name, its result and executor call are what the collaborators answered in its world, and the composite's outputs
      are the values that its output bindings name. */
  lemma {:induction false} InvokedFollows<W>(sv: Services<W>, wfId: nat -> string, c: Composite,
      inputs: map<string, Value>, t: Token, signals: Signals, w: W)
    returns (built: seq<Step>, worlds: seq<W>)
    ensures Explains(sv, c, inputs, w, Invoked(sv, wfId, c, inputs, t, signals, w), built, worlds)
  {
    built, worlds := [], [w];
    if Missing(c.inputs, inputs) == [] {
      var x := Context(w, map[], [], [], [], t);
      built, worlds := InvokeFromFollows(sv, wfId, c, inputs, signals, w, 0, x, built, worlds);
    }
  }
}
