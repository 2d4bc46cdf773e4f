/** The sequential workflow engine: src/shyam/workflow/engine.py. The navigator, the executor registry
    and the executors act on an arbitrary world and may answer anything or raise. */
module Workflow {
  import opened Options
  import opened Canonical
  import N = Navigation

  datatype Step = Step(id: string, capability: string, constraints: N.Constraints, input: map<string, Value>)

  datatype Workflow = Workflow(id: string, steps: seq<Step>)

  datatype StepState = StepCompleted | StepFailed | StepSkipped | StepCancelled

  datatype WorkflowState = Completed | Failed | Cancelled

  /** `output` is Null where the source has None. */
  datatype StepResult = StepResult(
    stepId: string, capability: string, state: StepState, target: Option<N.Candidate>, output: Value, error: string)

  datatype NavReply = NavRaised(error: string) | NoTarget(reason: string) | Selected(target: N.Candidate)

  datatype ExecReply = ExecRaised(error: string) | Done(output: Value)

  datatype Services<!W> = Services(
    navigate: (W, string, N.Constraints) -> (W, NavReply),
    registered: (W, string) -> bool,
    execute: (W, N.Candidate, map<string, Value>) -> (W, ExecReply))

  datatype Event =
    | Started(wf: string, stepCount: nat)
    | StepBegan(wf: string, step: string, target: Option<N.Candidate>)
    | StepDone(wf: string, step: string)
    | StepBroke(wf: string, step: string, error: string)
    | StepLeftOut(wf: string, step: string)
    | RunFailed(wf: string, step: string, error: string)
    | RunCancelled(wf: string, reason: string)
    | RunCompleted(wf: string, stepCount: nat)

  /** One call of an executor. */
  datatype Call = Call(stepId: string, target: N.Candidate, input: map<string, Value>)

  datatype Token = Token(cancelled: bool, reason: string)

  /** `signals(p)` is the cancel call, if any, that arrives before the token is read for the p-th time. */
  type Signals = nat -> Option<string>

  function Poll(t: Token, signals: Signals, p: nat): Token {
    match signals(p)
    case None => t
    case Some(reason) => Token(true, reason)
  }

  /** The loop variables of WorkflowEngine.run. */
  datatype Progress<W> = Progress(
    world: W, results: seq<StepResult>, events: seq<Event>, calls: seq<Call>,
    token: Token, failure: Option<string>, cancelled: bool)

  datatype Outcome<W> = Outcome(
    world: W, state: WorkflowState, results: seq<StepResult>, error: Option<string>,
    events: seq<Event>, calls: seq<Call>, token: Token)

  function Broken(step: Step, target: Option<N.Candidate>, error: string): StepResult {
    StepResult(step.id, step.capability, StepFailed, target, Null, error)
  }

  function NoExecutor(target: N.Candidate): string {
    "No executor available for provider '" + target.providerId + "'"
  }

  /** _execute_step: the world after it, its result, and the executor call if it got that far. */
  function Executed<W>(sv: Services<W>, step: Step, w: W): (W, StepResult, seq<Call>) {
    var (w1, reply) := sv.navigate(w, step.capability, step.constraints);
    match reply
    case NavRaised(error) => (w1, Broken(step, None, "Navigator invocation error: " + error), [])
    case NoTarget(reason) => (w1, Broken(step, None, "Navigation failed to resolve target: " + reason), [])
    case Selected(target) =>
      if !sv.registered(w1, target.providerId) then
        (w1, Broken(step, Some(target), NoExecutor(target)), [])
      else
        var (w2, done) := sv.execute(w1, target, step.input);
        (w2,
         match done
         case ExecRaised(error) => Broken(step, Some(target), error)
         case Done(output) => StepResult(step.id, step.capability, StepCompleted, Some(target), output, ""),
         [Call(step.id, target, step.input)])
  }

  function Ending(wf: string, r: StepResult): Event {
    if r.state == StepCompleted then StepDone(wf, r.stepId) else StepBroke(wf, r.stepId, r.error)
  }

  /** The step-started event is published before navigation, without a target. */
  function ExecutionEvents(wf: string, r: StepResult): seq<Event> {
    [StepBegan(wf, r.stepId, None), Ending(wf, r)]
  }

  function ErrorOf(r: StepResult): string {
    if r.error != "" then r.error else "Step '" + r.stepId + "' failed"
  }

  function CancelledResult(step: Step, reason: string): StepResult {
    StepResult(step.id, step.capability, StepCancelled, None, Null, reason)
  }

  function CancelledResults(steps: seq<Step>, reason: string): seq<StepResult> {
    seq(|steps|, i requires 0 <= i < |steps| => CancelledResult(steps[i], reason))
  }

  function LeftOut(wf: string, steps: seq<Step>): seq<Event> {
    seq(|steps|, i requires 0 <= i < |steps| => StepLeftOut(wf, steps[i].id))
  }

  function Skipped(step: Step): StepResult {
    StepResult(step.id, step.capability, StepSkipped, None, Null, "Skipped due to earlier step failure")
  }

  /** One turn of the loop, for step i. */
  function Turn<W>(sv: Services<W>, wf: Workflow, signals: Signals, p: nat, i: nat, pr: Progress<W>): Progress<W>
    requires i < |wf.steps|
  {
    var step := wf.steps[i];
    var t := Poll(pr.token, signals, p + 1 + i);
    if t.cancelled then
      pr.(token := t, cancelled := true,
          results := pr.results + CancelledResults(wf.steps[i..], t.reason),
          events := pr.events + LeftOut(wf.id, wf.steps[i..]))
    else if pr.failure.Some? then
      pr.(token := t,
          results := pr.results + [Skipped(step)],
          events := pr.events + [StepLeftOut(wf.id, step.id)])
    else
      var (w, r, calls) := Executed(sv, step, pr.world);
      var events := pr.events + ExecutionEvents(wf.id, r);
      pr.(token := t, world := w, results := pr.results + [r], calls := pr.calls + calls,
          failure := if r.state == StepCompleted then None else Some(ErrorOf(r)),
          events := if r.state == StepCompleted then events
                    else events + [RunFailed(wf.id, step.id, ErrorOf(r))])
  }

  function Loop<W>(sv: Services<W>, wf: Workflow, signals: Signals, p: nat, i: nat, pr: Progress<W>): Progress<W>
    requires i <= |wf.steps|
    decreases |wf.steps| - i
  {
    if i == |wf.steps| || pr.cancelled then pr
    else Loop(sv, wf, signals, p, i + 1, Turn(sv, wf, signals, p, i, pr))
  }

  function Begun<W>(wf: Workflow, t: Token, w: W): Progress<W> {
    Progress(w, [], [Started(wf.id, |wf.steps|)], [], t, None, false)
  }

  /** The end of run: the terminal state, the event that announces it, and the result. */
  function Finished<W>(wf: Workflow, pr: Progress<W>): Outcome<W> {
    if pr.cancelled then
      Outcome(pr.world, Cancelled, pr.results, Some(pr.token.reason),
              pr.events + [RunCancelled(wf.id, pr.token.reason)], pr.calls, pr.token)
    else if pr.failure.Some? then
      Outcome(pr.world, Failed, pr.results, pr.failure, pr.events, pr.calls, pr.token)
    else
      Outcome(pr.world, Completed, pr.results, None,
              pr.events + [RunCompleted(wf.id, |wf.steps|)], pr.calls, pr.token)
  }

  /** run(workflow, token), reading the token for the p-th time first. */
  function Ran<W>(sv: Services<W>, wf: Workflow, t: Token, signals: Signals, p: nat, w: W): Outcome<W> {
    if wf.steps == [] then
      Outcome(w, Completed, [], None, [Started(wf.id, 0), RunCompleted(wf.id, 0)], [], t)
    else
      var t0 := Poll(t, signals, p);
      if t0.cancelled then
        Outcome(w, Cancelled, CancelledResults(wf.steps, t0.reason), Some(t0.reason),
                [RunCancelled(wf.id, t0.reason)], [], t0)
      else
        Finished(wf, Loop(sv, wf, signals, p, 0, Begun(wf, t0, w)))
  }

  class CancellationToken {
    var cancelled: bool
    var reason: string

    constructor ()
      ensures State() == Token(false, "")
    {
      cancelled, reason := false, "";
    }

    function State(): Token
      reads this
    {
      Token(cancelled, reason)
    }

    method Cancel(why: string)
      modifies this
      ensures State() == Token(true, why)
    {
      cancelled, reason := true, why;
    }

    /** What other tasks do to the token while the engine awaits. */
    method Await(signals: Signals, p: nat)
      modifies this
      ensures State() == Poll(old(State()), signals, p)
    {
      var signal := signals(p);
      if signal.Some? {
        Cancel(signal.value);
      }
    }
  }

  class WorkflowEngine<W> {
    const services: Services<W>
    var world: W
    var published: seq<Event>
    var calls: seq<Call>

    constructor (services: Services<W>, world: W)
      ensures this.services == services && this.world == world && published == [] && calls == []
    {
      this.services, this.world, published, calls := services, world, [], [];
    }

    method ExecuteStep(wf: string, step: Step) returns (r: StepResult)
      modifies this
      ensures r.stepId == step.id
      ensures
        var e := Executed(services, step, old(world));
        world == e.0 && r == e.1 && calls == old(calls) + e.2
      ensures published == old(published) + ExecutionEvents(wf, r)
    {
      published := published + [StepBegan(wf, step.id, None)];
      var (w1, reply) := services.navigate(world, step.capability, step.constraints);
      world := w1;
      match reply {
        case NavRaised(error) =>
          r := Broken(step, None, "Navigator invocation error: " + error);
        case NoTarget(reason) =>
          r := Broken(step, None, "Navigation failed to resolve target: " + reason);
        case Selected(target) =>
          if !services.registered(world, target.providerId) {
            r := Broken(step, Some(target), NoExecutor(target));
          } else {
            var (w2, done) := services.execute(world, target, step.input);
            world := w2;
            calls := calls + [Call(step.id, target, step.input)];
            match done {
              case ExecRaised(error) => r := Broken(step, Some(target), error);
              case Done(output) =>
                r := StepResult(step.id, step.capability, StepCompleted, Some(target), output, "");
            }
          }
      }
      published := published + [Ending(wf, r)];
    }

    /** The engine has reached `pr`, having published and called nothing else since `log` and `made`. */
    ghost predicate Reached(pr: Progress<W>, log: seq<Event>, made: seq<Call>)
      reads this
    {
      world == pr.world && published == log + pr.events && calls == made + pr.calls
    }

    /** The body of the loop in run, for step i. */
    method TakeTurn(wf: Workflow, token: CancellationToken, signals: Signals, p: nat, i: nat,
                    before: seq<StepResult>, priorFailure: Option<string>,
                    ghost pr: Progress<W>, ghost log: seq<Event>, ghost made: seq<Call>)
      returns (results: seq<StepResult>, failure: Option<string>, cancelled: bool)
      requires i < |wf.steps| && !pr.cancelled
      requires Reached(pr, log, made)
      requires before == pr.results && priorFailure == pr.failure && token.State() == pr.token
      modifies this, token
      ensures
        var next := Turn(services, wf, signals, p, i, pr);
        && Reached(next, log, made)
        && results == next.results && failure == next.failure && cancelled == next.cancelled
        && token.State() == next.token
    {
      var step := wf.steps[i];
      results, failure, cancelled := before, priorFailure, false;
      token.Await(signals, p + 1 + i);
      if token.cancelled {
        results := results + CancelledResults(wf.steps[i..], token.reason);
        published := published + LeftOut(wf.id, wf.steps[i..]);
        cancelled := true;
      } else if failure.Some? {
        results := results + [Skipped(step)];
        published := published + [StepLeftOut(wf.id, step.id)];
      } else {
        var r := ExecuteStep(wf.id, step);
        results := results + [r];
        if r.state != StepCompleted {
          failure := Some(ErrorOf(r));
          published := published + [RunFailed(wf.id, step.id, ErrorOf(r))];
        }
      }
    }

    method Run(wf: Workflow, token: CancellationToken, signals: Signals, p: nat)
      returns (state: WorkflowState, results: seq<StepResult>, error: Option<string>)
      modifies this, token
      ensures
        var o := Ran(services, wf, old(token.State()), signals, p, old(world));
        && world == o.world && state == o.state && results == o.results && error == o.error
        && published == old(published) + o.events
        && calls == old(calls) + o.calls
        && token.State() == o.token
    {
      if wf.steps == [] {
        published := published + [Started(wf.id, 0), RunCompleted(wf.id, 0)];
        return Completed, [], None;
      }
      token.Await(signals, p);
      if token.cancelled {
        published := published + [RunCancelled(wf.id, token.reason)];
        return Cancelled, CancelledResults(wf.steps, token.reason), Some(token.reason);
      }
      ghost var log, made := published, calls;
      ghost var start := Begun(wf, token.State(), world);
      published := published + [Started(wf.id, |wf.steps|)];
      results := [];
      var failure: Option<string>, cancelled := None, false;
      ghost var pr := start;
      for i := 0 to |wf.steps|
        invariant !cancelled && !pr.cancelled
        invariant Loop(services, wf, signals, p, 0, start) == Loop(services, wf, signals, p, i, pr)
        invariant Reached(pr, log, made)
        invariant results == pr.results && failure == pr.failure && token.State() == pr.token
      {
        results, failure, cancelled := TakeTurn(wf, token, signals, p, i, results, failure, pr, log, made);
        pr := Turn(services, wf, signals, p, i, pr);
        if cancelled {
          break;
        }
      }
      assert pr == Loop(services, wf, signals, p, 0, start);
      if cancelled {
        published := published + [RunCancelled(wf.id, token.reason)];
        return Cancelled, results, Some(token.reason);
      }
      if failure.Some? {
        return Failed, results, failure;
      }
      published := published + [RunCompleted(wf.id, |wf.steps|)];
      return Completed, results, None;
    }
  }
}
