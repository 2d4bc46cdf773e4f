/** Composite capabilities: the static check of src/shyam/composite/models.py and the engine of
    src/shyam/composite/engine.py, which runs each step as a workflow of its own. */
module Composite {
  import opened Options
  import opened Canonical
  import opened Workflow
  import WorkflowTheorems
  import N = Navigation

  datatype Source = FromInput | FromStep

  datatype Binding = Binding(source: Source, sourceId: string, sourceKey: Option<string>)

  datatype Field = Field(name: string, binding: Binding)

  /** `bindings` is the binding dictionary in its iteration order. */
  datatype CompositeStep = CompositeStep(
    id: string, capability: string, constraints: N.Constraints, bindings: seq<Field>)

  datatype Composite = Composite(id: string, inputs: seq<string>, steps: seq<CompositeStep>, outputs: seq<Field>)

  datatype DefinitionError =
    | DuplicateStep(id: string)
    | UndeclaredInput(field: string, id: string)
    | UnknownStep(field: string, id: string)

  /** A binding that the check lets through, `known` being the step ids seen so far. */
  predicate Resolvable(b: Binding, inputs: seq<string>, known: set<string>) {
    match b.source
    case FromInput => b.sourceId in inputs
    case FromStep => b.sourceId in known
  }

  function IdsUpTo(steps: seq<CompositeStep>, n: nat): set<string>
    requires n <= |steps|
  {
    set i | 0 <= i < n :: steps[i].id
  }

  /** What the check accepts: a step may name any earlier step, and itself. */
  ghost predicate Accepted(c: Composite) {
    && (forall i, j | 0 <= i < j < |c.steps| :: c.steps[i].id != c.steps[j].id)
    && (forall i | 0 <= i < |c.steps| :: StepAccepted(c, i))
    && (forall f | f in c.outputs :: Resolvable(f.binding, c.inputs, IdsUpTo(c.steps, |c.steps|)))
  }

  ghost predicate StepAccepted(c: Composite, i: nat)
    requires i < |c.steps|
  {
    forall f | f in c.steps[i].bindings :: Resolvable(f.binding, c.inputs, IdsUpTo(c.steps, i + 1))
  }

  /** A field with this name has a source that is not there, and the error says which. */
  ghost predicate BindingWrong(fields: seq<Field>, inputs: seq<string>, known: set<string>, error: DefinitionError) {
    match error
    case UndeclaredInput(field, id) => HasField(field, id, FromInput, fields) && id !in inputs
    case UnknownStep(field, id) => HasField(field, id, FromStep, fields) && id !in known
    case DuplicateStep(_) => false
  }

  ghost predicate HasField(name: string, id: string, source: Source, fields: seq<Field>) {
    exists f :: f in fields && f.name == name && f.binding.source == source && f.binding.sourceId == id
  }

  /** What an error of the check is about. */
  ghost predicate Wrong(c: Composite, error: DefinitionError) {
    match error
    case DuplicateStep(id) => exists i, j :: 0 <= i < j < |c.steps| && c.steps[i].id == id == c.steps[j].id
    case _ =>
      || BindingWrong(c.outputs, c.inputs, IdsUpTo(c.steps, |c.steps|), error)
      || exists i: nat :: i < |c.steps| && BindingWrong(c.steps[i].bindings, c.inputs, IdsUpTo(c.steps, i + 1), error)
  }

  /** The check of one binding dictionary. */
  method ValidateBindings(fields: seq<Field>, inputs: seq<string>, known: set<string>)
    returns (error: Option<DefinitionError>)
    ensures error.None? <==> forall f | f in fields :: Resolvable(f.binding, inputs, known)
    ensures error.Some? ==> BindingWrong(fields, inputs, known, error.value)
  {
    for i := 0 to |fields|
      invariant forall f | f in fields[..i] :: Resolvable(f.binding, inputs, known)
    {
      var f := fields[i];
      if f.binding.source == FromInput {
        if f.binding.sourceId !in inputs {
          return Some(UndeclaredInput(f.name, f.binding.sourceId));
        }
      } else if f.binding.sourceId !in known {
        return Some(UnknownStep(f.name, f.binding.sourceId));
      }
    }
    error := None;
  }

  /** validate_step_references: the step's own id is added to `known` before its bindings are checked. */
  method ValidateStepReferences(c: Composite) returns (error: Option<DefinitionError>)
    ensures error.None? <==> Accepted(c)
    ensures error.Some? ==> Wrong(c, error.value)
  {
    var known: set<string> := {};
    for i := 0 to |c.steps|
      invariant known == IdsUpTo(c.steps, i)
      invariant forall j, k | 0 <= j < k < i :: c.steps[j].id != c.steps[k].id
      invariant forall k | 0 <= k < i :: StepAccepted(c, k)
    {
      if c.steps[i].id in known {
        return Some(DuplicateStep(c.steps[i].id));
      }
      known := known + {c.steps[i].id};
      assert known == IdsUpTo(c.steps, i + 1);
      error := ValidateBindings(c.steps[i].bindings, c.inputs, known);
      if error.Some? {
        assert !StepAccepted(c, i);
        return;
      }
    }
    error := ValidateBindings(c.outputs, c.inputs, known);
  }

  datatype BindingError = MissingInput | MissingStep | NotADict | MissingKey

  datatype Resolution<T> = Resolved(value: T) | Unresolved(field: string, error: BindingError)

  /** _resolve_binding_value. */
  function Resolve(f: Field, inputs: map<string, Value>, outputs: map<string, Value>): Resolution<Value> {
    var b := f.binding;
    var sources := if b.source == FromInput then inputs else outputs;
    if b.sourceId !in sources then Unresolved(f.name, if b.source == FromInput then MissingInput else MissingStep)
    else
      var value := sources[b.sourceId];
      match b.sourceKey
      case None => Resolved(value)
      case Some(key) =>
        if !value.Dict? then Unresolved(f.name, NotADict)
        else if !HasKey(value.entries, key) then Unresolved(f.name, MissingKey)
        else Resolved(Lookup(value.entries, key))
  }

  /** Every field resolved in order; the first one that cannot be stops it. */
  function ResolveAll(fields: seq<Field>, inputs: map<string, Value>, outputs: map<string, Value>)
    : Resolution<map<string, Value>>
  {
    if fields == [] then Resolved(map[])
    else
      var last := fields[|fields| - 1];
      match ResolveAll(fields[..|fields| - 1], inputs, outputs)
      case Unresolved(field, error) => Unresolved(field, error)
      case Resolved(resolved) =>
        match Resolve(last, inputs, outputs)
        case Unresolved(field, error) => Unresolved(field, error)
        case Resolved(value) => Resolved(resolved[last.name := value])
  }

  method ResolveBindings(fields: seq<Field>, inputs: map<string, Value>, outputs: map<string, Value>)
    returns (r: Resolution<map<string, Value>>)
    ensures r == ResolveAll(fields, inputs, outputs)
  {
    var resolved: map<string, Value> := map[];
    for i := 0 to |fields|
      invariant ResolveAll(fields[..i], inputs, outputs) == Resolved(resolved)
    {
      assert fields[..i + 1][..i] == fields[..i];
      match Resolve(fields[i], inputs, outputs)
      case Resolved(value) => resolved := resolved[fields[i].name := value];
      case Unresolved(field, error) =>
        StaysUnresolved(fields, i + 1, inputs, outputs);
        return Unresolved(field, error);
    }
    assert fields[..|fields|] == fields;
    r := Resolved(resolved);
  }

  lemma {:induction false} StaysUnresolved(
      fields: seq<Field>, i: nat, inputs: map<string, Value>, outputs: map<string, Value>)
    requires i <= |fields| && ResolveAll(fields[..i], inputs, outputs).Unresolved?
    ensures ResolveAll(fields, inputs, outputs) == ResolveAll(fields[..i], inputs, outputs)
  {
    if i == |fields| {
      assert fields[..i] == fields;
    } else {
      var before := fields[..|fields| - 1];
      assert before[..i] == fields[..i];
      StaysUnresolved(before, i, inputs, outputs);
    }
  }

  datatype InvocationState = Returned(state: WorkflowState) | InputsMissing(names: seq<string>)
    | Raised(step: string, field: string, error: BindingError)

  datatype Invocation<W> = Invocation(
    world: W, state: InvocationState, outputs: map<string, Value>, results: seq<StepResult>, error: Option<string>,
    events: seq<Event>, calls: seq<Call>, token: Token)

  /** The local variables of invoke. */
  datatype Context<W> = Context(
    world: W, outputs: map<string, Value>, results: seq<StepResult>, events: seq<Event>, calls: seq<Call>, token: Token)

  function Stopped<W>(x: Context<W>, state: InvocationState, error: Option<string>): Invocation<W> {
    Invocation(x.world, state, map[], x.results, error, x.events, x.calls, x.token)
  }

  /** The error_detail of a composite whose step did not complete. */
  function Detail(error: Option<string>, step: string): string {
    if error.Some? && error.value != "" then error.value else "Step '" + step + "' failed"
  }

  function BuiltStep(step: CompositeStep, input: map<string, Value>): Step {
    Step(step.id, step.capability, step.constraints, input)
  }

  /** The single-step workflow run for step k; `wfId(k)` is its fresh id. */
  function StepRun<W>(sv: Services<W>, wfId: nat -> string, step: CompositeStep, input: map<string, Value>,
                      t: Token, signals: Signals, k: nat, w: W): (o: Outcome<W>)
    ensures |o.results| == 1
  {
    var wf := Workflow(wfId(k), [BuiltStep(step, input)]);
    WorkflowTheorems.ResultCount(sv, wf, t, signals, 3 * k + 1, w);
    Ran(sv, wf, t, signals, 3 * k + 1, w)
  }

  /** The context after the run `o` of step k. */
  function AfterStep<W>(x: Context<W>, step: string, o: Outcome<W>): Context<W>
    requires o.results != []
  {
    var r := o.results[0];
    Context(o.world, if r.state == StepCompleted then x.outputs[step := r.output] else x.outputs,
            x.results + [r], x.events + o.events, x.calls + o.calls, o.token)
  }

  datatype Turned<W> = Over(end: Invocation<W>) | Onward(x: Context<W>)

  /** The body of the loop in invoke, for step k. The token is read three times a step: here, and twice by the
      step's own run. */
  function StepTurn<W>(sv: Services<W>, wfId: nat -> string, step: CompositeStep, inputs: map<string, Value>,
                       signals: Signals, k: nat, x: Context<W>): Turned<W> {
    var y := x.(token := Poll(x.token, signals, 3 * k));
    if y.token.cancelled then Over(Stopped(y, Returned(Cancelled), Some(y.token.reason)))
    else
      match ResolveAll(step.bindings, inputs, y.outputs)
      case Unresolved(field, error) => Over(Stopped(y, Raised(step.id, field, error), None))
      case Resolved(input) =>
        var o := StepRun(sv, wfId, step, input, y.token, signals, k, y.world);
        var z := AfterStep(y, step.id, o);
        if o.results[0].state != StepCompleted then Over(Stopped(z, Returned(o.state), Some(Detail(o.error, step.id))))
        else Onward(z)
  }

  /** The end of invoke, when every step has completed. */
  function Conclude<W>(c: Composite, inputs: map<string, Value>, x: Context<W>): Invocation<W> {
    match ResolveAll(c.outputs, inputs, x.outputs)
    case Unresolved(field, error) => Stopped(x, Raised("output", field, error), None)
    case Resolved(outputs) => Stopped(x, Returned(Completed), None).(outputs := outputs)
  }

  /** invoke from step k on. */
  function InvokeFrom<W>(sv: Services<W>, wfId: nat -> string, c: Composite, inputs: map<string, Value>,
                         signals: Signals, k: nat, x: Context<W>): Invocation<W>
    requires k <= |c.steps|
    decreases |c.steps| - k
  {
    if k == |c.steps| then Conclude(c, inputs, x)
    else
      match StepTurn(sv, wfId, c.steps[k], inputs, signals, k, x)
      case Over(end) => end
      case Onward(z) => InvokeFrom(sv, wfId, c, inputs, signals, k + 1, z)
  }

  /** invoke, once the capability is found in the registry. */
  function Invoked<W>(sv: Services<W>, wfId: nat -> string, c: Composite, inputs: map<string, Value>,
                      t: Token, signals: Signals, w: W): Invocation<W> {
    var x := Context(w, map[], [], [], [], t);
    var missing := Missing(c.inputs, inputs);
    if missing != [] then Stopped(x, InputsMissing(missing), None)
    else InvokeFrom(sv, wfId, c, inputs, signals, 0, x)
  }

  function Missing(names: seq<string>, inputs: map<string, Value>): (missing: seq<string>)
    ensures forall n :: n in missing <==> n in names && n !in inputs
  {
    if names == [] then []
    else (if names[0] in inputs then [] else [names[0]]) + Missing(names[1..], inputs)
  }

  class CompositeEngine<W> {
    const engine: WorkflowEngine<W>
    var registry: map<string, Composite>

    constructor (engine: WorkflowEngine<W>, registry: map<string, Composite>)
      ensures this.engine == engine && this.registry == registry
    {
      this.engine, this.registry := engine, registry;
    }

    /** None is CompositeNotFoundError. */
    method Invoke(capabilityId: string, inputs: map<string, Value>, token: CancellationToken, signals: Signals,
                  wfId: nat -> string)
      returns (state: Option<InvocationState>, outputs: map<string, Value>, results: seq<StepResult>,
               error: Option<string>)
      modifies engine, token
      ensures
        if capabilityId !in registry then
          state == None && unchanged(engine, token)
        else
          var o := Invoked(engine.services, wfId, registry[capabilityId], inputs, old(token.State()), signals,
                           old(engine.world));
          && state == Some(o.state) && outputs == o.outputs && results == o.results && error == o.error
          && engine.world == o.world && token.State() == o.token
          && engine.published == old(engine.published) + o.events
          && engine.calls == old(engine.calls) + o.calls
    {
      if capabilityId !in registry {
        return None, map[], [], None;
      }
      var c := registry[capabilityId];
      var missing := Missing(c.inputs, inputs);
      if missing != [] {
        return Some(InputsMissing(missing)), map[], [], None;
      }
      var stepOutputs: map<string, Value> := map[];
      results := [];
      ghost var x := Context(engine.world, map[], [], [], [], token.State());
      ghost var start, log, made := x, engine.published, engine.calls;
      for k := 0 to |c.steps|
        invariant InvokeFrom(engine.services, wfId, c, inputs, signals, 0, start)
               == InvokeFrom(engine.services, wfId, c, inputs, signals, k, x)
        invariant stepOutputs == x.outputs && results == x.results && InContext(x, token, log, made)
      {
        ghost var turned := StepTurn(engine.services, wfId, c.steps[k], inputs, signals, k, x);
        state, stepOutputs, results, error :=
          InvokeStep(c.steps[k], inputs, token, signals, wfId, k, stepOutputs, results, x, log, made);
        if state.Some? {
          return state, map[], results, error;
        }
        x := turned.x;
      }
      var resolved := ResolveBindings(c.outputs, inputs, stepOutputs);
      match resolved
      case Unresolved(field, e) => return Some(Raised("output", field, e)), map[], results, None;
      case Resolved(values) => return Some(Returned(Completed)), values, results, None;
    }

    /** The engine and the token stand as in `x`, the engine having published `log` and made calls `made` before. */
    ghost predicate InContext(x: Context<W>, token: CancellationToken, log: seq<Event>, made: seq<Call>)
      reads engine, token
    {
      && engine.world == x.world && token.State() == x.token
      && engine.published == log + x.events && engine.calls == made + x.calls
    }

    /** The body of the loop; `state` is None when the loop goes on. */
    method InvokeStep(step: CompositeStep, inputs: map<string, Value>, token: CancellationToken, signals: Signals,
                      wfId: nat -> string, k: nat, outputs: map<string, Value>, before: seq<StepResult>,
                      ghost x: Context<W>, ghost log: seq<Event>, ghost made: seq<Call>)
      returns (state: Option<InvocationState>, outputs': map<string, Value>, results: seq<StepResult>,
               error: Option<string>)
      requires outputs == x.outputs && before == x.results && InContext(x, token, log, made)
      modifies engine, token
      ensures
        match StepTurn(engine.services, wfId, step, inputs, signals, k, x)
        case Over(end) =>
          && state == Some(end.state) && results == end.results && error == end.error && end.outputs == map[]
          && InContext(Context(end.world, x.outputs, end.results, end.events, end.calls, end.token), token, log, made)
        case Onward(z) =>
          state == None && outputs' == z.outputs && results == z.results && InContext(z, token, log, made)
    {
      outputs', results, error := outputs, before, None;
      token.Await(signals, 3 * k);
      if token.cancelled {
        return Some(Returned(Cancelled)), outputs, results, Some(token.reason);
      }
      var resolved := ResolveBindings(step.bindings, inputs, outputs);
      if resolved.Unresolved? {
        return Some(Raised(step.id, resolved.field, resolved.error)), outputs, results, None;
      }
      ghost var o := StepRun(engine.services, wfId, step, resolved.value, token.State(), signals, k, engine.world);
      var wfState, r, wfError := RunStep(step, resolved.value, token, signals, wfId, k, x.events, x.calls, log, made);
      results := results + [r];
      if r.state != StepCompleted {
        return Some(Returned(wfState)), outputs, results, Some(Detail(wfError, step.id));
      }
      return None, outputs[step.id := r.output], results, None;
    }

    /** The single-step workflow of a step, run through the workflow engine. */
    method RunStep(step: CompositeStep, input: map<string, Value>, token: CancellationToken, signals: Signals,
                   wfId: nat -> string, k: nat,
                   ghost events: seq<Event>, ghost called: seq<Call>, ghost log: seq<Event>, ghost made: seq<Call>)
      returns (state: WorkflowState, r: StepResult, error: Option<string>)
      requires engine.published == log + events && engine.calls == made + called
      modifies engine, token
      ensures
        var o := StepRun(engine.services, wfId, step, input, old(token.State()), signals, k, old(engine.world));
        && o.results == [r] && state == o.state && error == o.error
        && engine.world == o.world && token.State() == o.token
        && engine.published == log + (events + o.events) && engine.calls == made + (called + o.calls)
    {
      ghost var o := StepRun(engine.services, wfId, step, input, token.State(), signals, k, engine.world);
      var results;
      state, results, error := engine.Run(Workflow(wfId(k), [BuiltStep(step, input)]), token, signals, 3 * k + 1);
      r := results[0];
    }
  }
}
