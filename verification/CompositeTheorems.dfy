/** What the static check of composites guarantees, and what running a composite means. */
module CompositeTheorems {
  import opened Options
  import opened Canonical
  import opened Workflow
  import opened WorkflowTheorems
  import opened Composite
  import N = Navigation

  predicate NamesItself(step: CompositeStep, f: Field) {
    f.binding.source == FromStep && f.binding.sourceId == step.id
  }

  ghost predicate BindsItself(step: CompositeStep) {
    exists f :: f in step.bindings && NamesItself(step, f)
  }

  predicate Covers(inputs: map<string, Value>, c: Composite) {
    forall n | n in c.inputs :: n in inputs
  }

  /** What the check's own error message promises: only earlier steps are named. */
  ghost predicate OnlyEarlierSteps(c: Composite) {
    forall i, f | 0 <= i < |c.steps| && f in c.steps[i].bindings && f.binding.source == FromStep ::
      f.binding.sourceId in IdsUpTo(c.steps, i)
  }

  /** The check delivers that promise exactly when no step binds itself. */
  lemma CheckedExactly(c: Composite)
    requires Accepted(c)
    ensures OnlyEarlierSteps(c) <==> forall i | 0 <= i < |c.steps| :: !BindsItself(c.steps[i])
  {
    if OnlyEarlierSteps(c) {
      forall i | 0 <= i < |c.steps|
        ensures !BindsItself(c.steps[i])
      {
        assert c.steps[i].id !in IdsUpTo(c.steps, i);
      }
    } else {
      var i, f :| 0 <= i < |c.steps| && f in c.steps[i].bindings && f.binding.source == FromStep
        && f.binding.sourceId !in IdsUpTo(c.steps, i);
      assert StepAccepted(c, i);
      assert NamesItself(c.steps[i], f);
    }
  }

  /** When step k of an accepted composite starts, a binding lacks its source exactly if it names step k itself;
      any other failure is a failed key extraction. */
  lemma ResolvesExactly(c: Composite, k: nat, f: Field, inputs: map<string, Value>, outputs: map<string, Value>)
    requires Accepted(c) && k < |c.steps| && f in c.steps[k].bindings
    requires Covers(inputs, c) && outputs.Keys == IdsUpTo(c.steps, k)
    ensures
      var r := Resolve(f, inputs, outputs);
      && (r == Unresolved(f.name, MissingStep) <==> NamesItself(c.steps[k], f))
      && r != Unresolved(f.name, MissingInput)
      && (r.Unresolved? && !NamesItself(c.steps[k], f) ==>
            f.binding.sourceKey.Some? && r.error in {NotADict, MissingKey})
  {
    assert StepAccepted(c, k);
    assert IdsUpTo(c.steps, k + 1) == IdsUpTo(c.steps, k) + {c.steps[k].id};
    assert c.steps[k].id !in IdsUpTo(c.steps, k);
  }

  lemma OutputResolves(c: Composite, f: Field, inputs: map<string, Value>, outputs: map<string, Value>)
    requires Accepted(c) && f in c.outputs && Covers(inputs, c) && outputs.Keys == IdsUpTo(c.steps, |c.steps|)
    ensures
      var r := Resolve(f, inputs, outputs);
      r.Unresolved? ==> f.binding.sourceKey.Some? && r.error in {NotADict, MissingKey}
  {
    assert Resolvable(f.binding, c.inputs, IdsUpTo(c.steps, |c.steps|));
  }

  /** Resolution fails exactly when some field cannot be resolved, and then with the failure of the first such field. */
  lemma {:induction false} ResolveAllExactly(
      fields: seq<Field>, inputs: map<string, Value>, outputs: map<string, Value>)
    ensures
      var r := ResolveAll(fields, inputs, outputs);
      && (r.Resolved? <==> forall f | f in fields :: Resolve(f, inputs, outputs).Resolved?)
      && (r.Unresolved? ==> exists f :: f in fields && Resolve(f, inputs, outputs) == Unresolved(r.field, r.error))
  {
    if fields != [] {
      var before := fields[..|fields| - 1];
      ResolveAllExactly(before, inputs, outputs);
      assert fields == before + [fields[|fields| - 1]];
    }
  }

  lemma StepResolvesSoundly(c: Composite, k: nat, inputs: map<string, Value>, outputs: map<string, Value>)
    requires Accepted(c) && k < |c.steps| && Covers(inputs, c) && outputs.Keys == IdsUpTo(c.steps, k)
    ensures
      match ResolveAll(c.steps[k].bindings, inputs, outputs)
      case Resolved(_) => !BindsItself(c.steps[k])
      case Unresolved(_, error) => error in {NotADict, MissingKey} || (error == MissingStep && BindsItself(c.steps[k]))
  {
    ResolveAllExactly(c.steps[k].bindings, inputs, outputs);
    forall f | f in c.steps[k].bindings {
      ResolvesExactly(c, k, f, inputs, outputs);
    }
  }

  lemma OutputsResolveSoundly(c: Composite, inputs: map<string, Value>, outputs: map<string, Value>)
    requires Accepted(c) && Covers(inputs, c) && outputs.Keys == IdsUpTo(c.steps, |c.steps|)
    ensures
      match ResolveAll(c.outputs, inputs, outputs)
      case Resolved(_) => true
      case Unresolved(_, error) => error in {NotADict, MissingKey}
  {
    ResolveAllExactly(c.outputs, inputs, outputs);
    forall f | f in c.outputs {
      OutputResolves(c, f, inputs, outputs);
    }
  }

  /** The only ways in which the invocation of an accepted composite can raise. */
  ghost predicate RaisesSoundly(c: Composite, state: InvocationState) {
    state.Raised? ==>
      || state.error in {NotADict, MissingKey}
      || (state.error == MissingStep
          && exists k :: 0 <= k < |c.steps| && c.steps[k].id == state.step && BindsItself(c.steps[k]))
  }

  /** How one turn of invoke can go, whatever the services do. */
  ghost predicate TurnGoes<W>(step: CompositeStep, inputs: map<string, Value>, x: Context<W>, turned: Turned<W>) {
    match turned
    case Onward(z) =>
      && z.results != [] && x.results == z.results[..|z.results| - 1]
      && ResolveAll(step.bindings, inputs, x.outputs).Resolved?
      && (var r := z.results[|z.results| - 1];
          ForComposite(r, step) && r.state == StepCompleted && z.outputs == x.outputs[step.id := r.output])
    case Over(end) =>
      match end.state
      case Raised(s, field, error) =>
        && s == step.id && end.results == x.results
        && ResolveAll(step.bindings, inputs, x.outputs) == Unresolved(field, error)
      case Returned(Failed) => LastAdded(step, x.results, end.results, StepFailed)
      case Returned(Cancelled) => end.results == x.results || LastAdded(step, x.results, end.results, StepCancelled)
      case _ => false
  }

  predicate ForComposite(r: StepResult, step: CompositeStep) {
    r.stepId == step.id && r.capability == step.capability
  }

  predicate LastAdded(step: CompositeStep, before: seq<StepResult>, after: seq<StepResult>, state: StepState) {
    after != [] && before == after[..|after| - 1]
    && ForComposite(after[|after| - 1], step) && after[|after| - 1].state == state
  }

  /** The single-step run of a step: one result for it, which the state of the run agrees with. */
  lemma StepRunShape<W>(sv: Services<W>, wfId: nat -> string, step: CompositeStep, input: map<string, Value>,
                        t: Token, signals: Signals, k: nat, w: W)
    ensures
      var o := StepRun(sv, wfId, step, input, t, signals, k, w);
      var r := o.results[0];
      && ForComposite(r, step)
      && (r.state == StepCompleted
          || (r.state == StepFailed && o.state == Failed) || (r.state == StepCancelled && o.state == Cancelled))
  {
    var wf := Workflow(wfId(k), [BuiltStep(step, input)]);
    var done, stop := ResultShape(sv, wf, t, signals, 3 * k + 1, w);
    assert ForStep(Ran(sv, wf, t, signals, 3 * k + 1, w).results[0], wf.steps[0]);
  }

  lemma AppendAdds(step: CompositeStep, before: seq<StepResult>, r: StepResult)
    requires ForComposite(r, step)
    ensures LastAdded(step, before, before + [r], r.state)
  {
    assert (before + [r])[..|before|] == before;
  }

  lemma {:induction false} TurnShape<W>(sv: Services<W>, wfId: nat -> string, step: CompositeStep,
                                        inputs: map<string, Value>, signals: Signals, k: nat, x: Context<W>)
    ensures TurnGoes(step, inputs, x, StepTurn(sv, wfId, step, inputs, signals, k, x))
  {
    var y := x.(token := Poll(x.token, signals, 3 * k));
    var resolved := ResolveAll(step.bindings, inputs, x.outputs);
    if !y.token.cancelled && resolved.Resolved? {
      StepRunShape(sv, wfId, step, resolved.value, y.token, signals, k, y.world);
      AppendAdds(step, x.results, StepRun(sv, wfId, step, resolved.value, y.token, signals, k, y.world).results[0]);
    }
  }

  lemma OverSoundly<W>(c: Composite, k: nat, inputs: map<string, Value>, x: Context<W>, end: Invocation<W>)
    requires Accepted(c) && k < |c.steps| && Covers(inputs, c) && x.outputs.Keys == IdsUpTo(c.steps, k)
    requires TurnGoes(c.steps[k], inputs, x, Over(end))
    ensures RaisesSoundly(c, end.state) && end.state != Returned(Completed)
  {
    StepResolvesSoundly(c, k, inputs, x.outputs);
  }

  lemma OnwardSoundly<W>(c: Composite, k: nat, inputs: map<string, Value>, x: Context<W>, z: Context<W>)
    requires Accepted(c) && k < |c.steps| && Covers(inputs, c) && x.outputs.Keys == IdsUpTo(c.steps, k)
    requires TurnGoes(c.steps[k], inputs, x, Onward(z))
    ensures z.outputs.Keys == IdsUpTo(c.steps, k + 1) && !BindsItself(c.steps[k])
  {
    StepResolvesSoundly(c, k, inputs, x.outputs);
    assert IdsUpTo(c.steps, k + 1) == IdsUpTo(c.steps, k) + {c.steps[k].id};
  }

  ghost predicate SoundFrom(c: Composite, k: nat, state: InvocationState) {
    RaisesSoundly(c, state) && !state.InputsMissing?
    && (state == Returned(Completed) ==> forall i | k <= i < |c.steps| :: !BindsItself(c.steps[i]))
  }

  lemma ConcludesSoundly<W>(c: Composite, inputs: map<string, Value>, x: Context<W>)
    requires Accepted(c) && Covers(inputs, c) && x.outputs.Keys == IdsUpTo(c.steps, |c.steps|)
    ensures SoundFrom(c, |c.steps|, Conclude(c, inputs, x).state)
  {
    OutputsResolveSoundly(c, inputs, x.outputs);
  }

  lemma {:induction false} SoundInvocation<W>(sv: Services<W>, wfId: nat -> string, c: Composite,
      inputs: map<string, Value>, signals: Signals, k: nat, x: Context<W>)
    requires Accepted(c) && Covers(inputs, c) && k <= |c.steps| && x.outputs.Keys == IdsUpTo(c.steps, k)
    ensures SoundFrom(c, k, InvokeFrom(sv, wfId, c, inputs, signals, k, x).state)
    decreases |c.steps| - k
  {
    if k == |c.steps| {
      ConcludesSoundly(c, inputs, x);
    } else {
      TurnShape(sv, wfId, c.steps[k], inputs, signals, k, x);
      match StepTurn(sv, wfId, c.steps[k], inputs, signals, k, x)
      case Over(end) => OverSoundly(c, k, inputs, x, end);
      case Onward(z) =>
        OnwardSoundly(c, k, inputs, x, z);
        SoundInvocation(sv, wfId, c, inputs, signals, k + 1, z);
    }
  }

  /** Whatever the services do and whenever it is cancelled, an accepted composite never lacks an input, lacks a step
      output only at a step that binds itself, and completes only if no step does. */
  lemma BindingSoundness<W>(sv: Services<W>, wfId: nat -> string, c: Composite, inputs: map<string, Value>,
                            t: Token, signals: Signals, w: W)
    requires Accepted(c)
    ensures
      var state := Invoked(sv, wfId, c, inputs, t, signals, w).state;
      && (state.InputsMissing? <==> !Covers(inputs, c))
      && RaisesSoundly(c, state)
      && (state == Returned(Completed) ==> forall i | 0 <= i < |c.steps| :: !BindsItself(c.steps[i]))
  {
    var missing := Missing(c.inputs, inputs);
    if missing == [] {
      SoundInvocation(sv, wfId, c, inputs, signals, 0, Context(w, map[], [], [], [], t));
    } else {
      assert missing[0] in missing;
    }
  }

  /** A composite of one step whose only binding names that step. */
  const SELF_REFERENCE: Composite :=
    Composite("loop.back", [],
              [CompositeStep("a", "file.read", N.Constraints(None, None, false, true, None, None),
                             [Field("x", Binding(FromStep, "a", None))])],
              [])

  /** The check accepts it, against its promise, and no invocation of it can do anything but be cancelled or raise. */
  lemma SelfReferenceAccepted<W>(sv: Services<W>, wfId: nat -> string, t: Token, signals: Signals, w: W)
    ensures Accepted(SELF_REFERENCE) && !OnlyEarlierSteps(SELF_REFERENCE)
    ensures
      var end := Invoked(sv, wfId, SELF_REFERENCE, map[], t, signals, w);
      && end.world == w && end.calls == []
      && end.state == if Poll(t, signals, 0).cancelled then Returned(Cancelled) else Raised("a", "x", MissingStep)
  {
    var step := SELF_REFERENCE.steps[0];
    assert step.id in IdsUpTo(SELF_REFERENCE.steps, 1);
    assert NamesItself(step, step.bindings[0]);
    CheckedExactly(SELF_REFERENCE);
    assert step.bindings[..0] == [];
  }

  /** One result a step run, in order, all COMPLETED but perhaps the last, and what the state says about them. */
  ghost predicate ChainShaped(c: Composite, rs: seq<StepResult>, state: InvocationState) {
    && |rs| <= |c.steps|
    && (forall i | 0 <= i < |rs| :: ForComposite(rs[i], c.steps[i]))
    && (forall i | 0 <= i < |rs| - 1 :: rs[i].state == StepCompleted)
    && var completed := forall r :: r in rs ==> r.state == StepCompleted;
       match state
       case Returned(Completed) => |rs| == |c.steps| && completed
       case Returned(Failed) => rs != [] && rs[|rs| - 1].state == StepFailed
       case Returned(Cancelled) =>
         (|rs| < |c.steps| && completed) || (rs != [] && rs[|rs| - 1].state == StepCancelled)
       case Raised(step, _, _) => completed && (|rs| < |c.steps| ==> step == c.steps[|rs|].id)
       case InputsMissing(_) => rs == []
  }

  /** The first k steps have completed. */
  ghost predicate CompletedUpTo(c: Composite, k: nat, rs: seq<StepResult>) {
    k == |rs| <= |c.steps|
    && forall i | 0 <= i < k :: ForComposite(rs[i], c.steps[i]) && rs[i].state == StepCompleted
  }

  lemma OverShaped<W>(c: Composite, inputs: map<string, Value>, k: nat, x: Context<W>, end: Invocation<W>)
    requires k < |c.steps| && CompletedUpTo(c, k, x.results) && TurnGoes(c.steps[k], inputs, x, Over(end))
    ensures ChainShaped(c, end.results, end.state)
  {
    var rs := end.results;
    assert rs == x.results || (|rs| == k + 1 && rs[..k] == x.results);
    forall i | 0 <= i < |rs|
      ensures ForComposite(rs[i], c.steps[i]) && (i < k ==> rs[i].state == StepCompleted)
    {
      if i < k {
        assert rs[i] == x.results[i];
      }
    }
  }

  lemma OnwardCompleted<W>(c: Composite, inputs: map<string, Value>, k: nat, x: Context<W>, z: Context<W>)
    requires k < |c.steps| && CompletedUpTo(c, k, x.results) && TurnGoes(c.steps[k], inputs, x, Onward(z))
    ensures CompletedUpTo(c, k + 1, z.results)
  {
    forall i | 0 <= i < k
      ensures z.results[i] == x.results[i]
    {
      assert z.results[i] == z.results[..k][i];
    }
  }

  lemma {:induction false} ChainShapedFrom<W>(sv: Services<W>, wfId: nat -> string, c: Composite,
      inputs: map<string, Value>, signals: Signals, k: nat, x: Context<W>)
    requires k <= |c.steps| && CompletedUpTo(c, k, x.results)
    ensures
      var end := InvokeFrom(sv, wfId, c, inputs, signals, k, x);
      ChainShaped(c, end.results, end.state)
    decreases |c.steps| - k
  {
    if k < |c.steps| {
      TurnShape(sv, wfId, c.steps[k], inputs, signals, k, x);
      match StepTurn(sv, wfId, c.steps[k], inputs, signals, k, x)
      case Over(end) => OverShaped(c, inputs, k, x, end);
      case Onward(z) =>
        OnwardCompleted(c, inputs, k, x, z);
        ChainShapedFrom(sv, wfId, c, inputs, signals, k + 1, z);
    }
  }

  /** Whatever the services do and whenever it is cancelled, the results of an invocation have this shape. */
  lemma CompositeShape<W>(sv: Services<W>, wfId: nat -> string, c: Composite, inputs: map<string, Value>,
                          t: Token, signals: Signals, w: W)
    ensures
      var end := Invoked(sv, wfId, c, inputs, t, signals, w);
      ChainShaped(c, end.results, end.state)
  {
    if Missing(c.inputs, inputs) == [] {
      ChainShapedFrom(sv, wfId, c, inputs, signals, 0, Context(w, map[], [], [], [], t));
    }
  }
}
