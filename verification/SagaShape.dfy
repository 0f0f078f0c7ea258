/** How the receipts of a saga's outcome line up with its steps, for every pattern of failures. */
module SagaShape {
  import opened Wrappers
  import opened Actions
  import opened LabSource
  import opened Gateway
  import opened Saga

  // Each idempotency binding holds a receipt for the action it is bound to.
  ghost predicate BindingsSound(s: GatewayState) {
    forall k :: k in s.bindings ==> s.bindings[k].1.actionDigest == s.bindings[k].0
  }

  predicate ReceiptFor(receipt: SourceMutationReceipt, action: SourceActionPlan) {
    receipt.actionDigest == DigestOf(action) && (receipt.state == Executed || receipt.state == AlreadyExecuted)
  }

  predicate Undoes(compensation: SourceMutationReceipt, step: SagaStep, receipt: SourceMutationReceipt) {
    && step.action.compensation.Some?
    && compensation.actionDigest == DigestOf(Derived(step.action))
    && compensation.state == Compensated && compensation.compensationOf == Some(receipt.receiptId)
  }

  lemma AuthorizeKeepsBindings(env: Environment, s: GatewayState, action: SourceActionPlan, identity: RequestIdentity, stage: string)
    ensures AuthorizeNext(env, s, action, identity, stage).0.bindings == s.bindings
  {
  }

  lemma PreviewKeepsBindings(env: Environment, s: GatewayState, action: SourceActionPlan, identity: RequestIdentity, ttl: int)
    ensures PreviewNext(env, s, action, identity, ttl).0.bindings == s.bindings
  {
  }

  lemma ReplayReceipt(env: Environment, s: GatewayState, action: SourceActionPlan, now: int, receipt: SourceMutationReceipt)
    ensures var (t, r) := ReplayNext(env, s, action, now, receipt);
      t.bindings == s.bindings && r.actionDigest == receipt.actionDigest && r.state == AlreadyExecuted
  {
  }

  lemma OutcomeReceipt(env: Environment, s: GatewayState, action: SourceActionPlan, started: int, decisionId: string,
                       outcome: Result<MutationReply, SourceFault>)
    requires BindingsSound(s)
    ensures var (t, r) := OutcomeNext(env, s, action, started, decisionId, outcome);
      BindingsSound(t) && (r.Ok? ==> ReceiptFor(r.value, action))
  {
    hide EmitNext, LogNext;
    var (t, r) := OutcomeNext(env, s, action, started, decisionId, outcome);
    OutcomeBindings(env, s, action, started, decisionId, outcome);
    if r.Ok? { assert t.bindings == s.bindings[KeyOf(action) := (DigestOf(action), r.value)]; }
  }

  lemma OutcomeBindings(env: Environment, s: GatewayState, action: SourceActionPlan, started: int, decisionId: string,
                        outcome: Result<MutationReply, SourceFault>)
    ensures var (t, r) := OutcomeNext(env, s, action, started, decisionId, outcome);
      t.bindings == if r.Ok? then s.bindings[KeyOf(action) := (DigestOf(action), r.value)] else s.bindings
  {
  }

  lemma ExecuteReceipt(env: Environment, s: GatewayState, action: SourceActionPlan, preview: ActionPreview,
                       identity: RequestIdentity, approval: Option<ActionApproval>)
    requires BindingsSound(s)
    ensures var (t, r) := ExecuteNext(env, s, action, preview, identity, approval);
      BindingsSound(t) && (r.Ok? ==> ReceiptFor(r.value, action))
  {
    hide MutateNext, AuthorizeNext, ReplayNext, OutcomeNext, PreviewBinds, ApprovalHolds;
    var now := env.clock(s.tick);
    AuthorizeKeepsBindings(env, Tick(s), action, identity, "execute");
    var (s1, decision) := AuthorizeNext(env, Tick(s), action, identity, "execute");
    if KeyOf(action) in s1.bindings {
      ReplayReceipt(env, s1, action, now, s1.bindings[KeyOf(action)].1);
    } else if action.sourceId in s1.sources {
      var (source, outcome) := MutateNext(s1.sources[action.sourceId], RequestOf(action));
      OutcomeReceipt(env, s1.(sources := s1.sources[action.sourceId := source]), action, now, decision.decisionId, outcome);
    }
  }

  lemma StepReceipt(env: Environment, s: GatewayState, step: SagaStep, identity: RequestIdentity)
    returns (s1: GatewayState, r: Result<SourceMutationReceipt, ActionError>)
    requires BindingsSound(s)
    ensures (s1, r) == StepNext(env, s, step, identity)
    ensures BindingsSound(s1) && (r.Ok? ==> ReceiptFor(r.value, step.action))
  {
    var (previewed, preview) := PreviewNext(env, s, step.action, identity, PREVIEW_TTL);
    PreviewKeepsBindings(env, s, step.action, identity, PREVIEW_TTL);
    if preview.Ok? { ExecuteReceipt(env, previewed, step.action, preview.value, identity, step.approval); }
    s1, r := StepNext(env, s, step, identity).0, StepNext(env, s, step, identity).1;
  }

  lemma CompensateReceipt(env: Environment, s: GatewayState, step: SagaStep, receipt: SourceMutationReceipt, identity: RequestIdentity)
    returns (s1: GatewayState, r: Result<SourceMutationReceipt, ActionError>)
    requires BindingsSound(s)
    ensures (s1, r) == CompensateNext(env, s, step.action, receipt, identity, step.approval)
    ensures BindingsSound(s1) && (r.Ok? ==> Undoes(r.value, step, receipt))
  {
    hide PreviewNext, ApprovalHolds, MutateNext;
    s1, r := CompensateNext(env, s, step.action, receipt, identity, step.approval).0,
             CompensateNext(env, s, step.action, receipt, identity, step.approval).1;
    if step.action.compensation.Some? {
      var derived := Derived(step.action);
      var (previewed, preview) := PreviewNext(env, Tick(s), derived, identity, PREVIEW_TTL);
      PreviewKeepsBindings(env, Tick(s), derived, identity, PREVIEW_TTL);
      if preview.Ok? { ExecuteReceipt(env, previewed, derived, preview.value, identity, None); }
    }
  }

  // The compensations undo the completed steps from the last; they stop early exactly if one was refused.
  ghost predicate UndoneFromTheLast(completed: Completed, compensations: seq<SourceMutationReceipt>) {
    && |compensations| <= |completed|
    && forall i :: 0 <= i < |compensations| ==>
         Undoes(compensations[i], completed[|completed| - 1 - i].0, completed[|completed| - 1 - i].1)
  }

  lemma UndoneMore(completed: Completed, done: seq<SourceMutationReceipt>, next: SourceMutationReceipt, all: seq<SourceMutationReceipt>)
    requires completed != [] && Undoes(next, completed[|completed| - 1].0, completed[|completed| - 1].1)
    requires done + [next] <= all && UndoneFromTheLast(completed[..|completed| - 1], all[|done| + 1..])
    ensures done <= all && UndoneFromTheLast(completed, all[|done|..])
  {
  }

  lemma UnwindOneMore(env: Environment, s: GatewayState, completed: Completed, done: seq<SourceMutationReceipt>, identity: RequestIdentity)
    returns (s1: GatewayState, r: Result<SourceMutationReceipt, ActionError>)
    requires BindingsSound(s) && completed != []
    ensures BindingsSound(s1) && (r.Ok? ==> Undoes(r.value, completed[|completed| - 1].0, completed[|completed| - 1].1))
    ensures Unwind(env, s, completed, done, identity)
         == if r.Ok? then Unwind(env, s1, completed[..|completed| - 1], done + [r.value], identity) else (s1, done, Some(r.error))
  {
    s1, r := CompensateReceipt(env, s, completed[|completed| - 1].0, completed[|completed| - 1].1, identity);
  }

  lemma {:induction false} UnwindShape(env: Environment, s: GatewayState, completed: Completed,
                                       done: seq<SourceMutationReceipt>, identity: RequestIdentity)
    requires BindingsSound(s)
    ensures var (t, all, stopped) := Unwind(env, s, completed, done, identity);
      && done <= all && UndoneFromTheLast(completed, all[|done|..])
      && (stopped.None? <==> |all| == |done| + |completed|)
    decreases |completed|
  {
    hide Undoes, CompensateNext;
    assert done[|done|..] == [];
    if completed != [] {
      var n := |completed| - 1;
      var s1, r := UnwindOneMore(env, s, completed, done, identity);
      if r.Ok? {
        UnwindShape(env, s1, completed[..n], done + [r.value], identity);
        UndoneMore(completed, done, r.value, Unwind(env, s1, completed[..n], done + [r.value], identity).1);
      }
    }
  }

  ghost predicate Shaped(steps: seq<SagaStep>, outcome: SagaOutcome) {
    var n := |outcome.receipts|;
    && n <= |steps|
    && (forall i :: 0 <= i < n ==> ReceiptFor(outcome.receipts[i], steps[i].action))
    && (n < |steps| ==> outcome.failedActionId == Some(steps[n].action.actionId))
    && (forall i :: 0 <= i < |outcome.compensationReceipts| ==>
          i < n && Undoes(outcome.compensationReceipts[i], steps[n - 1 - i], outcome.receipts[n - 1 - i]))
    && (outcome.state.SagaCompleted? <==> n == |steps|)
    && (outcome.state.SagaFailed? <==> n < |steps| && n == 0)
    && (outcome.state.SagaCompensated? <==> n < |steps| && 0 < n == |outcome.compensationReceipts|)
    && (outcome.state.CompensationFailed? <==> n < |steps| && |outcome.compensationReceipts| < n)
    && (outcome.state.SagaCompleted? ==> outcome.compensationReceipts == [] && outcome.failedActionId == None)
  }

  ghost predicate Prefix(all: seq<SagaStep>, completed: Completed) {
    && |completed| <= |all|
    && forall i :: 0 <= i < |completed| ==> completed[i].0 == all[i] && ReceiptFor(completed[i].1, all[i].action)
  }

  lemma ConcludedShape(all: seq<SagaStep>, completed: Completed, compensations: seq<SourceMutationReceipt>, stopped: Option<ActionError>)
    requires Prefix(all, completed) && |completed| < |all|
    requires UndoneFromTheLast(completed, compensations) && (stopped.None? <==> |compensations| == |completed|)
    ensures var r := Concluded(completed, compensations, stopped, all[|completed|].action.actionId);
      r.Ok? ==> Shaped(all, r.value)
  {
  }

  lemma PrefixGrows(all: seq<SagaStep>, completed: Completed, receipt: SourceMutationReceipt)
    requires Prefix(all, completed) && |completed| < |all| && ReceiptFor(receipt, all[|completed|].action)
    ensures Prefix(all, completed + [(all[|completed|], receipt)])
  {
  }

  lemma CompletedShape(env: Environment, s: GatewayState, all: seq<SagaStep>, completed: Completed, identity: RequestIdentity)
    requires Prefix(all, completed) && |completed| >= |all|
    ensures |completed| == |all|
    ensures RunNext(env, s, all[|completed|..], completed, identity) == (s, Ok(SagaOutcome(SagaCompleted, Receipts(completed), [], None)))
    ensures Shaped(all, SagaOutcome(SagaCompleted, Receipts(completed), [], None))
  {
  }

  lemma FailureShape(env: Environment, s: GatewayState, all: seq<SagaStep>, completed: Completed, identity: RequestIdentity)
    requires BindingsSound(s) && Prefix(all, completed) && |completed| < |all|
    ensures var u := Unwind(env, s, completed, [], identity);
      var r := Concluded(completed, u.1, u.2, all[|completed|].action.actionId);
      r.Ok? ==> Shaped(all, r.value)
  {
    var (t, compensations, stopped) := Unwind(env, s, completed, [], identity);
    UnwindShape(env, s, completed, [], identity);
    assert compensations[0..] == compensations;
    ConcludedShape(all, completed, compensations, stopped);
  }

  lemma RunOneMore(env: Environment, s: GatewayState, all: seq<SagaStep>, completed: Completed, identity: RequestIdentity)
    returns (s1: GatewayState, r: Result<SourceMutationReceipt, ActionError>)
    requires BindingsSound(s) && |completed| < |all|
    ensures BindingsSound(s1) && (r.Ok? ==> ReceiptFor(r.value, all[|completed|].action))
    ensures var m := |completed|;
      RunNext(env, s, all[m..], completed, identity)
      == if r.Ok? then RunNext(env, s1, all[m + 1..], completed + [(all[m], r.value)], identity)
         else if !Controlled(r.error) then (s1, Err(r.error))
         else var u := Unwind(env, s1, completed, [], identity);
              (u.0, Concluded(completed, u.1, u.2, all[m].action.actionId))
  {
    var m := |completed|;
    assert all[m..][0] == all[m] && all[m..][1..] == all[m + 1..];
    s1, r := StepReceipt(env, s, all[m], identity);
  }

  lemma {:induction false} RunShape(env: Environment, s: GatewayState, all: seq<SagaStep>, completed: Completed, identity: RequestIdentity)
    requires BindingsSound(s) && Prefix(all, completed)
    ensures var (t, r) := RunNext(env, s, all[|completed|..], completed, identity);
      r.Ok? ==> Shaped(all, r.value)
    decreases |all| - |completed|
  {
    hide *;
    var m := |completed|;
    if m < |all| {
      var s1, r := RunOneMore(env, s, all, completed, identity);
      if r.Ok? {
        PrefixGrows(all, completed, r.value);
        RunShape(env, s1, all, completed + [(all[m], r.value)], identity);
      } else if Controlled(r.error) {
        FailureShape(env, s1, all, completed, identity);
      }
    } else {
      CompletedShape(env, s, all, completed, identity);
    }
  }

  /**
   Receipts cover exactly the successful prefix; compensation i undoes step n-1-i; and the state of
   the outcome says how far the compensation got.
   */
  lemma SagaOutcomeShape(env: Environment, s: GatewayState, steps: seq<SagaStep>, identity: RequestIdentity)
    requires BindingsSound(s)
    ensures var (t, r) := RunNext(env, s, steps, [], identity);
      r.Ok? ==> Shaped(steps, r.value)
  {
    assert steps[0..] == steps;
    RunShape(env, s, steps, [], identity);
  }
}
