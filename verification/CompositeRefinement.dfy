/** A composite run as a chain of single-step workflows means the same as one multi-step workflow. */
module CompositeRefinement {
  import opened Options
  import opened Canonical
  import opened Workflow
  import opened WorkflowTheorems
  import opened Composite

  /** Nobody cancels. */
  ghost predicate Uncancelled(t: Token, signals: Signals) {
    !t.cancelled && forall q :: signals(q).None?
  }

  lemma {:induction false} LoopToken<W>(
      sv: Services<W>, wf: Workflow, signals: Signals, p: nat, i: nat, pr: Progress<W>)
    requires i <= |wf.steps| && Uncancelled(pr.token, signals)
    ensures Loop(sv, wf, signals, p, i, pr).token == pr.token
    decreases |wf.steps| - i
  {
    if i < |wf.steps| && !pr.cancelled {
      LoopToken(sv, wf, signals, p, i + 1, Turn(sv, wf, signals, p, i, pr));
    }
  }

  /** Without cancellation a run is the plain execution of its steps, the ones after a failure being skipped. */
  lemma UncancelledRun<W>(sv: Services<W>, wf: Workflow, t: Token, signals: Signals, p: nat, w: W)
    requires Uncancelled(t, signals)
    ensures
      var o := Ran(sv, wf, t, signals, p, w);
      var s := Execute(sv, wf.steps, w);
      && o.world == s.world && o.calls == s.calls && o.token == t
      && o.results == s.results + AllSkipped(wf.steps[|s.results|..])
      && o.state == (if s.ok then Completed else Failed)
  {
    var n := |wf.steps|;
    RunMeaning(sv, wf, t, signals, p, w, n);
    assert wf.steps[..n] == wf.steps;
    var s := Execute(sv, wf.steps, w);
    assert wf.steps[|s.results|..n] == wf.steps[|s.results|..] && wf.steps[n..] == [];
    LoopToken(sv, wf, signals, p, 0, Begun(wf, Poll(t, signals, p), w));
  }

  /** One turn of invoke without cancellation, in terms of the one step it executes. */
  ghost predicate TurnExecutes<W>(sv: Services<W>, step: CompositeStep, inputs: map<string, Value>, x: Context<W>,
                                  turned: Turned<W>) {
    match ResolveAll(step.bindings, inputs, x.outputs)
    case Unresolved(field, error) => turned == Over(Stopped(x, Raised(step.id, field, error), None))
    case Resolved(input) =>
      var (w, r, calls) := Executed(sv, BuiltStep(step, input), x.world);
      match turned
      case Over(end) =>
        && r.state != StepCompleted && end.state == Returned(Failed)
        && end.world == w && end.results == x.results + [r] && end.calls == x.calls + calls
      case Onward(z) =>
        && r.state == StepCompleted && z.outputs == x.outputs[step.id := r.output] && z.token == x.token
        && z.world == w && z.results == x.results + [r] && z.calls == x.calls + calls
  }

  lemma UncancelledTurn<W>(sv: Services<W>, wfId: nat -> string, step: CompositeStep, inputs: map<string, Value>,
                           signals: Signals, k: nat, x: Context<W>)
    requires Uncancelled(x.token, signals)
    ensures TurnExecutes(sv, step, inputs, x, StepTurn(sv, wfId, step, inputs, signals, k, x))
  {
    assert x.(token := Poll(x.token, signals, 3 * k)) == x;
    var resolved := ResolveAll(step.bindings, inputs, x.outputs);
    if resolved.Resolved? {
      var built := BuiltStep(step, resolved.value);
      UncancelledRun(sv, Workflow(wfId(k), [built]), x.token, signals, 3 * k + 1, x.world);
      ExecuteOne(sv, built, x.world);
    }
  }

  lemma ExecuteOne<W>(sv: Services<W>, step: Step, w: W)
    ensures
      var (w1, r, calls) := Executed(sv, step, w);
      Execute(sv, [step], w) == Straight(w1, [r], calls, r.state == StepCompleted)
  {
    var (w1, r, calls) := Executed(sv, step, w);
    assert [step][1..] == [] && [r] + [] == [r] && calls + [] == calls;
  }

  /** The outputs available after these results. */
  function OutputsAfter(outputs: map<string, Value>, rs: seq<StepResult>): map<string, Value>
    decreases |rs|
  {
    if rs == [] then outputs else OutputsAfter(outputs[rs[0].stepId := rs[0].output], rs[1..])
  }

  /** `built[i]` is step k + i with its bindings resolved against the outputs of the steps before it. */
  ghost predicate BuiltFrom(c: Composite, inputs: map<string, Value>, k: nat, outputs: map<string, Value>,
                            built: seq<Step>, rs: seq<StepResult>) {
    && k + |built| <= |c.steps| && |rs| == |built|
    && forall i | 0 <= i < |built| ::
         && built[i] == BuiltStep(c.steps[k + i], built[i].input)
         && ResolveAll(c.steps[k + i].bindings, inputs, OutputsAfter(outputs, rs[..i])) == Resolved(built[i].input)
  }

  /** `end` is where executing `built` from `x` leads. */
  ghost predicate ChainMeans<W>(sv: Services<W>, c: Composite, inputs: map<string, Value>, k: nat, x: Context<W>,
                                built: seq<Step>, end: Invocation<W>) {
    var s := Execute(sv, built, x.world);
    && BuiltFrom(c, inputs, k, x.outputs, built, s.results)
    && end.world == s.world && end.results == x.results + s.results && end.calls == x.calls + s.calls
    && EndsAs(c, inputs, k + |built|, OutputsAfter(x.outputs, s.results), s.ok, end)
  }

  /** How the invocation ends after `n` steps, the last of which failed unless `ok`. */
  ghost predicate EndsAs<W>(c: Composite, inputs: map<string, Value>, n: nat, outputs: map<string, Value>, ok: bool,
                            end: Invocation<W>)
    requires n <= |c.steps|
  {
    if !ok then end.state == Returned(Failed)
    else if n < |c.steps| then
      match ResolveAll(c.steps[n].bindings, inputs, outputs)
      case Unresolved(field, error) => end.state == Raised(c.steps[n].id, field, error)
      case Resolved(_) => false
    else
      match ResolveAll(c.outputs, inputs, outputs)
      case Unresolved(field, error) => end.state == Raised("output", field, error)
      case Resolved(values) => end.state == Returned(Completed) && end.outputs == values
  }

  lemma MeansNothing<W>(
      sv: Services<W>, c: Composite, inputs: map<string, Value>, k: nat, x: Context<W>, end: Invocation<W>)
    requires k <= |c.steps|
    requires end.world == x.world && end.results == x.results && end.calls == x.calls
    requires EndsAs(c, inputs, k, x.outputs, true, end)
    ensures ChainMeans(sv, c, inputs, k, x, [], end)
  {
  }

  lemma MeansFailure<W>(sv: Services<W>, c: Composite, inputs: map<string, Value>, k: nat, x: Context<W>,
                        input: map<string, Value>, end: Invocation<W>)
    requires k < |c.steps| && ResolveAll(c.steps[k].bindings, inputs, x.outputs) == Resolved(input)
    requires TurnExecutes(sv, c.steps[k], inputs, x, Over(end))
    ensures ChainMeans(sv, c, inputs, k, x, [BuiltStep(c.steps[k], input)], end)
  {
    ExecuteOne(sv, BuiltStep(c.steps[k], input), x.world);
  }

  lemma ExecuteThen<W>(sv: Services<W>, step: Step, rest: seq<Step>, w: W)
    ensures
      var (w1, r, calls) := Executed(sv, step, w);
      var t := Execute(sv, rest, w1);
      r.state == StepCompleted ==>
        Execute(sv, [step] + rest, w) == Straight(t.world, [r] + t.results, calls + t.calls, t.ok)
  {
    assert ([step] + rest)[1..] == rest;
  }

  lemma OutputsThen(outputs: map<string, Value>, r: StepResult, rs: seq<StepResult>)
    ensures OutputsAfter(outputs, [r] + rs) == OutputsAfter(outputs[r.stepId := r.output], rs)
  {
    assert ([r] + rs)[1..] == rs;
  }

  lemma BuiltThen(c: Composite, inputs: map<string, Value>, k: nat, outputs: map<string, Value>,
                  input: map<string, Value>, r: StepResult, rest: seq<Step>, rs: seq<StepResult>)
    requires k < |c.steps| && ResolveAll(c.steps[k].bindings, inputs, outputs) == Resolved(input)
    requires BuiltFrom(c, inputs, k + 1, outputs[r.stepId := r.output], rest, rs)
    ensures BuiltFrom(c, inputs, k, outputs, [BuiltStep(c.steps[k], input)] + rest, [r] + rs)
  {
    var built := [BuiltStep(c.steps[k], input)] + rest;
    forall i | 0 <= i < |built|
      ensures built[i] == BuiltStep(c.steps[k + i], built[i].input)
      ensures ResolveAll(c.steps[k + i].bindings, inputs, OutputsAfter(outputs, ([r] + rs)[..i]))
           == Resolved(built[i].input)
    {
      if 0 < i {
        assert ([r] + rs)[..i] == [r] + rs[..i - 1];
        OutputsThen(outputs, r, rs[..i - 1]);
        assert built[i] == rest[i - 1] && c.steps[k + i] == c.steps[k + 1 + (i - 1)];
      }
    }
  }

  lemma MeansOnward<W>(sv: Services<W>, c: Composite, inputs: map<string, Value>, k: nat, x: Context<W>,
                       input: map<string, Value>, z: Context<W>, rest: seq<Step>, end: Invocation<W>)
    requires k < |c.steps| && ResolveAll(c.steps[k].bindings, inputs, x.outputs) == Resolved(input)
    requires TurnExecutes(sv, c.steps[k], inputs, x, Onward(z))
    requires ChainMeans(sv, c, inputs, k + 1, z, rest, end)
    ensures ChainMeans(sv, c, inputs, k, x, [BuiltStep(c.steps[k], input)] + rest, end)
  {
    var first := BuiltStep(c.steps[k], input);
    var (w, r, calls) := Executed(sv, first, x.world);
    var t := Execute(sv, rest, z.world);
    ExecuteThen(sv, first, rest, x.world);
    Regroup(x.results, [r], t.results);
    Regroup(x.calls, calls, t.calls);
    assert r.stepId == c.steps[k].id;
    OutputsThen(x.outputs, r, t.results);
    BuiltThen(c, inputs, k, x.outputs, input, r, rest, t.results);
  }

  /** From step k on, without cancellation, the chain of single-step runs is one execution of the steps it built. */
  lemma {:induction false} ChainExecutes<W>(sv: Services<W>, wfId: nat -> string, c: Composite,
      inputs: map<string, Value>, signals: Signals, k: nat, x: Context<W>)
    returns (built: seq<Step>)
    requires k <= |c.steps| && Uncancelled(x.token, signals)
    ensures ChainMeans(sv, c, inputs, k, x, built, InvokeFrom(sv, wfId, c, inputs, signals, k, x))
    decreases |c.steps| - k
  {
    var end := InvokeFrom(sv, wfId, c, inputs, signals, k, x);
    built := [];
    if k == |c.steps| {
      MeansNothing(sv, c, inputs, k, x, end);
    } else {
      UncancelledTurn(sv, wfId, c.steps[k], inputs, signals, k, x);
      match ResolveAll(c.steps[k].bindings, inputs, x.outputs)
      case Unresolved(_, _) => MeansNothing(sv, c, inputs, k, x, end);
      case Resolved(input) =>
        match StepTurn(sv, wfId, c.steps[k], inputs, signals, k, x)
        case Over(e) =>
          built := [BuiltStep(c.steps[k], input)];
          MeansFailure(sv, c, inputs, k, x, input, e);
        case Onward(z) =>
          var rest := ChainExecutes(sv, wfId, c, inputs, signals, k + 1, z);
          built := [BuiltStep(c.steps[k], input)] + rest;
          MeansOnward(sv, c, inputs, k, x, input, z, rest, end);
    }
  }

  /** What comes after a failure does not matter. */
  lemma {:induction false} ExecuteUpToFailure<W>(sv: Services<W>, built: seq<Step>, rest: seq<Step>, w: W)
    requires !Execute(sv, built, w).ok
    ensures Execute(sv, built + rest, w) == Execute(sv, built, w)
    decreases |built|
  {
    assert (built + rest)[1..] == built[1..] + rest;
    var (w1, r, calls) := Executed(sv, built[0], w);
    if r.state == StepCompleted {
      ExecuteUpToFailure(sv, built[1..], rest, w1);
    }
  }

  /** Without cancellation, invoking a composite gives the results, up to and including the first failure, and the
      final world and executor calls of one run of a workflow that has the steps with those resolved bindings as
      inputs; whatever `rest` of a workflow would follow a failed step is skipped by that run. The two fail together,
      and an invocation whose steps all complete ends as its next or its output bindings resolve. */
  lemma CompositeRefinesWorkflow<W>(sv: Services<W>, wfId: nat -> string, c: Composite, inputs: map<string, Value>,
                                    t: Token, signals: Signals, w: W, id: string, p: nat, rest: seq<Step>)
    returns (built: seq<Step>)
    requires Uncancelled(t, signals) && Missing(c.inputs, inputs) == []
    ensures
      var end := Invoked(sv, wfId, c, inputs, t, signals, w);
      var failed := end.state == Returned(Failed);
      var following := if failed then rest else [];
      var o := Ran(sv, Workflow(id, built + following), t, signals, p, w);
      && BuiltFrom(c, inputs, 0, map[], built, end.results)
      && EndsAs(c, inputs, |built|, OutputsAfter(map[], end.results), !failed, end)
      && o.state == (if failed then Failed else Completed)
      && o.results == end.results + AllSkipped(following)
      && o.world == end.world && o.calls == end.calls
  {
    var x := Context(w, map[], [], [], [], t);
    built := ChainExecutes(sv, wfId, c, inputs, signals, 0, x);
    var end := InvokeFrom(sv, wfId, c, inputs, signals, 0, x);
    var s := Execute(sv, built, w);
    assert end.results == s.results && end.calls == s.calls;
    var following := if end.state == Returned(Failed) then rest else [];
    var wf := Workflow(id, built + following);
    if end.state == Returned(Failed) {
      ExecuteUpToFailure(sv, built, rest, w);
    } else {
      assert wf.steps == built;
    }
    assert wf.steps[|built|..] == following;
    UncancelledRun(sv, wf, t, signals, p, w);
  }
}
