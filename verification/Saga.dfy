/** Multi-step work over the action gateway: run the steps, and on a controlled failure compensate in reverse. */
module Saga {
  import opened Wrappers
  import opened Scalars
  import opened Actions
  import opened LabSource
  import opened Gateway

  datatype SagaStep = SagaStep(action: SourceActionPlan, approval: Option<ActionApproval>)

  datatype SagaState = SagaCompleted | SagaCompensated | SagaFailed | CompensationFailed

  datatype SagaOutcome = SagaOutcome(
    state: SagaState, receipts: seq<SourceMutationReceipt>, compensationReceipts: seq<SourceMutationReceipt>,
    failedActionId: Option<string>)

  type Completed = seq<(SagaStep, SourceMutationReceipt)>

  // The failures a saga compensates for; any other error leaves run() as it was raised.
  predicate Controlled(e: ActionError) {
    !e.ActionOutcomeUnknown? && !e.MissingKey? && !e.ConnectorError?
  }

  // --- run() as a function of the gateway's state ---

  function StepNext(env: Environment, s: GatewayState, step: SagaStep, identity: RequestIdentity)
    : (GatewayState, Result<SourceMutationReceipt, ActionError>)
  {
    var (s1, preview) := PreviewNext(env, s, step.action, identity, PREVIEW_TTL);
    if preview.Err? then (s1, Err(preview.error))
    else ExecuteNext(env, s1, step.action, preview.value, identity, step.approval)
  }

  function Receipts(completed: Completed): seq<SourceMutationReceipt> {
    seq(|completed|, i requires 0 <= i < |completed| => completed[i].1)
  }

  // Compensate the completed steps from the last; the receipts collected and the error that stopped it.
  function Unwind(env: Environment, s: GatewayState, completed: Completed, done: seq<SourceMutationReceipt>, identity: RequestIdentity)
    : (GatewayState, seq<SourceMutationReceipt>, Option<ActionError>)
    decreases |completed|
  {
    if completed == [] then (s, done, None)
    else
      var (step, receipt) := completed[|completed| - 1];
      var (s1, r) := CompensateNext(env, s, step.action, receipt, identity, step.approval);
      if r.Err? then (s1, done, Some(r.error))
      else Unwind(env, s1, completed[..|completed| - 1], done + [r.value], identity)
  }

  function Concluded(completed: Completed, compensations: seq<SourceMutationReceipt>, stopped: Option<ActionError>,
                     failed: string): Result<SagaOutcome, ActionError> {
    if stopped.Some? && !Controlled(stopped.value) then Err(stopped.value)
    else
      var state := if stopped.Some? then CompensationFailed else if completed == [] then SagaFailed else SagaCompensated;
      Ok(SagaOutcome(state, Receipts(completed), compensations, Some(failed)))
  }

  function RunNext(env: Environment, s: GatewayState, steps: seq<SagaStep>, completed: Completed, identity: RequestIdentity)
    : (GatewayState, Result<SagaOutcome, ActionError>)
    decreases |steps|
  {
    if steps == [] then (s, Ok(SagaOutcome(SagaCompleted, Receipts(completed), [], None)))
    else
      var (s1, r) := StepNext(env, s, steps[0], identity);
      if r.Ok? then RunNext(env, s1, steps[1..], completed + [(steps[0], r.value)], identity)
      else if !Controlled(r.error) then (s1, Err(r.error))
      else
        var (s2, compensations, stopped) := Unwind(env, s1, completed, [], identity);
        (s2, Concluded(completed, compensations, stopped, steps[0].action.actionId))
  }

  class ActionSagaCoordinator {
    const gateway: ActionGateway

    constructor (gateway: ActionGateway)
      ensures this.gateway == gateway
    {
      this.gateway := gateway;
    }

    method Run(steps: seq<SagaStep>, identity: RequestIdentity) returns (r: Result<SagaOutcome, ActionError>)
      requires gateway.Valid()
      modifies gateway, gateway.audit, gateway.Connectors()
      ensures (gateway.State(), r) ==
        if steps == [] then (old(gateway.State()), Err(InvalidValue))
        else RunNext(gateway.env, old(gateway.State()), steps, [], identity)
    {
      if steps == [] {
        return Err(InvalidValue);
      }
      var completed: Completed := [];
      for i := 0 to |steps|
        invariant RunNext(gateway.env, gateway.State(), steps[i..], completed, identity)
               == RunNext(gateway.env, old(gateway.State()), steps, [], identity)
      {
        var step := steps[i];
        assert steps[i..][0] == step && steps[i..][1..] == steps[i + 1..];
        var receipt := RunStep(step, identity);
        if receipt.Err? {
          if !Controlled(receipt.error) {
            return Err(receipt.error);
          }
          var compensations, stopped := CompensateAll(completed, identity);
          return Concluded(completed, compensations, stopped, step.action.actionId);
        }
        completed := completed + [(step, receipt.value)];
      }
      return Ok(SagaOutcome(SagaCompleted, Receipts(completed), [], None));
    }

    method RunStep(step: SagaStep, identity: RequestIdentity) returns (r: Result<SourceMutationReceipt, ActionError>)
      requires gateway.Valid()
      modifies gateway, gateway.audit, gateway.Connectors()
      ensures (gateway.State(), r) == StepNext(gateway.env, old(gateway.State()), step, identity)
    {
      var preview := gateway.Preview(step.action, identity, PREVIEW_TTL);
      if preview.Err? {
        return Err(preview.error);
      }
      r := gateway.Execute(step.action, preview.value, identity, step.approval);
    }

    // The inner loop of run(): walk the completed steps backwards until one compensation fails.
    method CompensateAll(completed: Completed, identity: RequestIdentity)
      returns (compensations: seq<SourceMutationReceipt>, stopped: Option<ActionError>)
      requires gateway.Valid()
      modifies gateway, gateway.audit, gateway.Connectors()
      ensures (gateway.State(), compensations, stopped)
           == Unwind(gateway.env, old(gateway.State()), completed, [], identity)
    {
      compensations := [];
      var n := |completed|;
      assert completed[..n] == completed;
      while n > 0
        invariant 0 <= n <= |completed|
        invariant Unwind(gateway.env, gateway.State(), completed[..n], compensations, identity)
               == Unwind(gateway.env, old(gateway.State()), completed, [], identity)
      {
        n := n - 1;
        var (step, receipt) := completed[n];
        assert completed[..n + 1][..n] == completed[..n];
        var r := gateway.Compensate(step.action, receipt, identity, step.approval);
        if r.Err? {
          return compensations, Some(r.error);
        }
        compensations := compensations + [r.value];
      }
      return compensations, None;
    }
  }
}
