/** What a saga's outcome says about its receipts, and what it leaves behind in the sources. */
module SagaTheorems {
  import opened Wrappers
  import opened Scalars
  import opened Actions
  import opened LabSource
  import opened Gateway
  import opened Saga

  // --- The effect of one gateway call ---

  ghost predicate Seen(s: GatewayState, k: Key) {
    k in s.bindings || (k.0 in s.sources && k.1 in s.sources[k.0].idempotency)
  }

  ghost predicate Untouched(s: GatewayState, t: GatewayState) {
    t.bindings == s.bindings && t.sources == s.sources
  }

  // The action's mutation, and nothing else, happened between s and t.
  ghost predicate Applied(s: GatewayState, t: GatewayState, action: SourceActionPlan) {
    var source := action.sourceId;
    && source in s.sources && t.sources.Keys == s.sources.Keys
    && (forall other :: other in s.sources && other != source ==> t.sources[other] == s.sources[other])
    && "expectedValue" in action.preconditions && TextValued(action)
    && s.sources[source].value == StrOf(action.preconditions["expectedValue"])
    && t.sources[source].value == StrOf(action.parameters["newValue"])
    && t.sources[source].version == s.sources[source].version + 1
    && (forall k :: Seen(t, k) <==> Seen(s, k) || k == KeyOf(action))
  }

  lemma PreviewUntouched(env: Environment, s: GatewayState, action: SourceActionPlan, identity: RequestIdentity, ttl: int)
    ensures Untouched(s, PreviewNext(env, s, action, identity, ttl).0)
  {
  }

  lemma MutateEffect(s: LabState, action: SourceActionPlan)
    requires action.idempotencyKey !in s.idempotency
    ensures var (t, outcome) := MutateNext(s, RequestOf(action));
      if outcome.Ok? && outcome.value.success && outcome.value.postconditionsMet then
        && "expectedValue" in action.preconditions && TextValued(action)
        && s.value == StrOf(action.preconditions["expectedValue"]) && t.value == StrOf(action.parameters["newValue"])
        && t.version == s.version + 1
        && t.idempotency.Keys == s.idempotency.Keys + {action.idempotencyKey}
      else TextValued(action) ==> t == s
  {
  }

  // Without a binding, execute either stops before the source or ends as the source answered.
  lemma ExecuteReaches(env: Environment, s: GatewayState, action: SourceActionPlan, preview: ActionPreview,
                       identity: RequestIdentity, approval: Option<ActionApproval>)
    returns (reached: bool, sent: GatewayState, decisionId: string)
    requires KeyOf(action) !in s.bindings
    ensures var (t, r) := ExecuteNext(env, s, action, preview, identity, approval);
      if !reached then Untouched(s, t) && r.Err?
      else
        && action.sourceId in s.sources && sent.bindings == s.bindings
        && var (source, outcome) := MutateNext(s.sources[action.sourceId], RequestOf(action));
        && sent.sources == s.sources[action.sourceId := source]
        && (t, r) == OutcomeNext(env, sent, action, env.clock(s.tick), decisionId, outcome)
  {
    var now := env.clock(s.tick);
    var (s1, decision) := AuthorizeNext(env, Tick(s), action, identity, "execute");
    reached := PreviewBinds(action, preview, identity, now) && ApprovalHolds(env.verifier, action, approval, identity, now, false)
      && decision.allowed && action.sourceId in s.sources;
    sent, decisionId := s1, decision.decisionId;
    if reached {
      sent := s1.(sources := s1.sources[action.sourceId := MutateNext(s.sources[action.sourceId], RequestOf(action)).0]);
    }
  }

  lemma OutcomeEffect(env: Environment, s: GatewayState, action: SourceActionPlan, started: int, decisionId: string,
                      outcome: Result<MutationReply, SourceFault>)
    ensures var (t, r) := OutcomeNext(env, s, action, started, decisionId, outcome);
      && t.sources == s.sources
      && (r.Ok? <==> outcome.Ok? && outcome.value.success && outcome.value.postconditionsMet)
      && (r.Err? ==> t.bindings == s.bindings && r.error.ActionExecutionFailed?)
      && (r.Ok? ==> t.bindings == s.bindings[KeyOf(action) := (DigestOf(action), r.value)]
                    && r.value.actionDigest == DigestOf(action) && r.value.state == Executed)
  {
  }

  lemma AppliedBy(s: GatewayState, t: GatewayState, action: SourceActionPlan, source: LabState)
    requires action.sourceId in s.sources && t.sources == s.sources[action.sourceId := source]
    requires t.bindings.Keys == s.bindings.Keys + {KeyOf(action)}
    requires "expectedValue" in action.preconditions && TextValued(action)
    requires s.sources[action.sourceId].value == StrOf(action.preconditions["expectedValue"])
    requires source.value == StrOf(action.parameters["newValue"]) && source.version == s.sources[action.sourceId].version + 1
    requires source.idempotency.Keys == s.sources[action.sourceId].idempotency.Keys + {action.idempotencyKey}
    ensures Applied(s, t, action)
  {
  }

  /** Executing under a new key applies the action if it succeeds and, for a string value, nothing if it fails. */
  lemma ExecuteEffect(env: Environment, s: GatewayState, action: SourceActionPlan, preview: ActionPreview,
                      identity: RequestIdentity, approval: Option<ActionApproval>)
    requires !Seen(s, KeyOf(action))
    ensures var (t, r) := ExecuteNext(env, s, action, preview, identity, approval);
      && (r.Ok? ==> Applied(s, t, action))
      && (r.Err? && TextValued(action) ==> Untouched(s, t))
  {
    var reached, sent, decisionId := ExecuteReaches(env, s, action, preview, identity, approval);
    if reached {
      var (source, outcome) := MutateNext(s.sources[action.sourceId], RequestOf(action));
      MutateEffect(s.sources[action.sourceId], action);
      OutcomeEffect(env, sent, action, env.clock(s.tick), decisionId, outcome);
      var (t, r) := OutcomeNext(env, sent, action, env.clock(s.tick), decisionId, outcome);
      if r.Ok? { AppliedBy(s, t, action, source); }
    }
  }

  lemma StepEffect(env: Environment, s: GatewayState, step: SagaStep, identity: RequestIdentity)
    requires !Seen(s, KeyOf(step.action))
    ensures var (t, r) := StepNext(env, s, step, identity);
      && (r.Ok? ==> Applied(s, t, step.action))
      && (r.Err? && TextValued(step.action) ==> Untouched(s, t))
  {
    var (s1, preview) := PreviewNext(env, s, step.action, identity, PREVIEW_TTL);
    PreviewUntouched(env, s, step.action, identity, PREVIEW_TTL);
    assert Seen(s1, KeyOf(step.action)) == Seen(s, KeyOf(step.action));
    if preview.Ok? {
      ExecuteEffect(env, s1, step.action, preview.value, identity, step.approval);
      AppliedAfter(s, s1, ExecuteNext(env, s1, step.action, preview.value, identity, step.approval).0, step.action);
    }
  }

  // Applied looks at nothing but bindings and sources.
  lemma AppliedAfter(s: GatewayState, s1: GatewayState, t: GatewayState, action: SourceActionPlan)
    requires Untouched(s, s1)
    ensures Applied(s1, t, action) ==> Applied(s, t, action)
  {
  }

  lemma CompensateEffect(env: Environment, s: GatewayState, original: SourceActionPlan, receipt: SourceMutationReceipt,
                         identity: RequestIdentity, approval: Option<ActionApproval>)
    requires original.compensation.Some? ==> !Seen(s, KeyOf(Derived(original)))
    ensures var (t, r) := CompensateNext(env, s, original, receipt, identity, approval);
      r.Ok? ==> original.compensation.Some? && Applied(s, t, Derived(original))
  {
    var (t, r) := CompensateNext(env, s, original, receipt, identity, approval);
    if r.Ok? {
      var derived := Derived(original);
      var (s1, preview) := PreviewNext(env, Tick(s), derived, identity, PREVIEW_TTL);
      PreviewUntouched(env, Tick(s), derived, identity, PREVIEW_TTL);
      assert Untouched(s, s1) && Seen(s1, KeyOf(derived)) == Seen(s, KeyOf(derived));
      ExecuteEffect(env, s1, derived, preview.value, identity, None);
      var s2 := ExecuteNext(env, s1, derived, preview.value, identity, None).0;
      AppliedAfter(s, s1, s2, derived);
      AppliedBefore(s, s2, t, derived);
    }
  }

  lemma AppliedBefore(s: GatewayState, t: GatewayState, t1: GatewayState, action: SourceActionPlan)
    requires Untouched(t, t1) && Applied(s, t, action)
    ensures Applied(s, t1, action)
  {
  }

  // --- A compensated saga restores its sources ---

  // Every key the saga may use, forward or derived, is used for one thing only.
  function DerivedKey(action: SourceActionPlan): Key {
    (action.sourceId, action.idempotencyKey + ":compensate")
  }

  ghost predicate KeysApart(steps: seq<SagaStep>) {
    && (forall i, j :: 0 <= i < j < |steps| ==>
          KeyOf(steps[i].action) != KeyOf(steps[j].action) && DerivedKey(steps[i].action) != DerivedKey(steps[j].action))
    && (forall i, j :: 0 <= i < |steps| && 0 <= j < |steps| ==> KeyOf(steps[i].action) != DerivedKey(steps[j].action))
  }

  ghost predicate KeysNew(s: GatewayState, steps: seq<SagaStep>, from: nat) {
    && (forall i :: from <= i < |steps| ==> !Seen(s, KeyOf(steps[i].action)))
    && (forall i :: 0 <= i < |steps| ==> !Seen(s, DerivedKey(steps[i].action)))
  }

  // How many of the steps act on a source, and the first that does.
  function StepsOn(steps: seq<SagaStep>, source: string): nat {
    if steps == [] then 0
    else StepsOn(steps[..|steps| - 1], source) + if steps[|steps| - 1].action.sourceId == source then 1 else 0
  }

  function FirstOn(steps: seq<SagaStep>, source: string): Option<SourceActionPlan> {
    if steps == [] then None
    else
      var earlier := FirstOn(steps[..|steps| - 1], source);
      var last := steps[|steps| - 1].action;
      if earlier.Some? then earlier else if last.sourceId == source then Some(last) else None
  }

  function StepsOf(completed: Completed): seq<SagaStep> {
    seq(|completed|, i requires 0 <= i < |completed| => completed[i].0)
  }

  predicate Reversible(action: SourceActionPlan) {
    action.compensation.Some? && "newValue" in action.compensation.value.parameters
  }

  // The value a source is left with when the steps have been unwound from a state that held `value`.
  function UnwoundValue(steps: seq<SagaStep>, source: string, value: string): string {
    match FirstOn(steps, source)
    case None => value
    case Some(first) =>
      if Reversible(first) then StrOf(first.compensation.value.parameters["newValue"]) else value
  }

  // What is left of a source at t when the steps, applied up to s, have all been compensated.
  ghost predicate Unwound(s: GatewayState, t: GatewayState, steps: seq<SagaStep>, source: string) {
    && source in s.sources && source in t.sources
    && (forall i :: 0 <= i < |steps| ==> Reversible(steps[i].action))
    && t.sources[source].version == s.sources[source].version + StepsOn(steps, source)
    && t.sources[source].value == UnwoundValue(steps, source, s.sources[source].value)
  }

  lemma {:induction false} FirstIsReversible(steps: seq<SagaStep>, source: string)
    requires forall i :: 0 <= i < |steps| ==> Reversible(steps[i].action)
    ensures FirstOn(steps, source).Some? ==> Reversible(FirstOn(steps, source).value)
  {
    if steps != [] { FirstIsReversible(steps[..|steps| - 1], source); }
  }

  lemma UnwoundMore(s: GatewayState, s1: GatewayState, t: GatewayState, steps: seq<SagaStep>, source: string)
    requires steps != [] && source in s.sources
    requires var last := steps[|steps| - 1].action; last.compensation.Some? && Applied(s, s1, Derived(last))
    requires Unwound(s1, t, steps[..|steps| - 1], source)
    ensures Unwound(s, t, steps, source)
  {
    FirstIsReversible(steps[..|steps| - 1], source);
  }

  ghost predicate DerivedKeysNew(s: GatewayState, steps: seq<SagaStep>) {
    && (forall i :: 0 <= i < |steps| ==> !Seen(s, DerivedKey(steps[i].action)))
    && (forall i, j :: 0 <= i < j < |steps| ==> DerivedKey(steps[i].action) != DerivedKey(steps[j].action))
  }

  lemma DerivedKeysStayNew(s: GatewayState, s1: GatewayState, steps: seq<SagaStep>)
    requires steps != [] && DerivedKeysNew(s, steps)
    requires var last := steps[|steps| - 1].action; last.compensation.Some? && Applied(s, s1, Derived(last))
    ensures DerivedKeysNew(s1, steps[..|steps| - 1])
  {
  }

  lemma UnwindOnce(env: Environment, s: GatewayState, completed: Completed, done: seq<SourceMutationReceipt>, identity: RequestIdentity)
    returns (s1: GatewayState, longer: seq<SourceMutationReceipt>)
    requires completed != [] && !Seen(s, DerivedKey(completed[|completed| - 1].0.action))
    requires Unwind(env, s, completed, done, identity).2.None?
    ensures var last := completed[|completed| - 1].0.action; last.compensation.Some? && Applied(s, s1, Derived(last))
    ensures Unwind(env, s, completed, done, identity) == Unwind(env, s1, completed[..|completed| - 1], longer, identity)
  {
    var (step, receipt) := completed[|completed| - 1];
    if step.action.compensation.Some? { assert KeyOf(Derived(step.action)) == DerivedKey(step.action); }
    CompensateEffect(env, s, step.action, receipt, identity, step.approval);
    var (after, r) := CompensateNext(env, s, step.action, receipt, identity, step.approval);
    s1, longer := after, done + [r.value];
  }

  lemma LastDerivedIsNew(s: GatewayState, completed: Completed)
    requires completed != [] && DerivedKeysNew(s, StepsOf(completed))
    ensures !Seen(s, DerivedKey(completed[|completed| - 1].0.action))
  {
    var steps := StepsOf(completed);
    assert steps[|completed| - 1] == completed[|completed| - 1].0;
  }

  lemma RestStaysNew(s: GatewayState, s1: GatewayState, completed: Completed)
    requires completed != [] && DerivedKeysNew(s, StepsOf(completed))
    requires var last := completed[|completed| - 1].0.action; last.compensation.Some? && Applied(s, s1, Derived(last))
    ensures DerivedKeysNew(s1, StepsOf(completed[..|completed| - 1]))
  {
    var steps, n := StepsOf(completed), |completed| - 1;
    DerivedKeysStayNew(s, s1, steps);
    assert steps[..n] == StepsOf(completed[..n]);
  }

  lemma UnwoundOneMore(s: GatewayState, s1: GatewayState, t: GatewayState, completed: Completed, source: string)
    requires completed != [] && source in s.sources
    requires var last := completed[|completed| - 1].0.action; last.compensation.Some? && Applied(s, s1, Derived(last))
    requires Unwound(s1, t, StepsOf(completed[..|completed| - 1]), source)
    ensures Unwound(s, t, StepsOf(completed), source)
  {
    var steps, n := StepsOf(completed), |completed| - 1;
    assert steps[..n] == StepsOf(completed[..n]);
    UnwoundMore(s, s1, t, steps, source);
  }

  lemma {:induction false} UnwindEffect(env: Environment, s: GatewayState, completed: Completed,
                                        done: seq<SourceMutationReceipt>, identity: RequestIdentity, source: string)
    requires source in s.sources && DerivedKeysNew(s, StepsOf(completed))
    requires Unwind(env, s, completed, done, identity).2.None?
    ensures Unwound(s, Unwind(env, s, completed, done, identity).0, StepsOf(completed), source)
    decreases |completed|
  {
    if completed == [] {
      assert StepsOf(completed) == [];
    } else {
      LastDerivedIsNew(s, completed);
      var s1, longer := UnwindOnce(env, s, completed, done, identity);
      RestStaysNew(s, s1, completed);
      UnwindEffect(env, s1, completed[..|completed| - 1], longer, identity, source);
      UnwoundOneMore(s, s1, Unwind(env, s1, completed[..|completed| - 1], longer, identity).0, completed, source);
    }
  }

  // Before any compensation: s is s0 with the steps applied.
  ghost predicate Advanced(s0: GatewayState, s: GatewayState, steps: seq<SagaStep>, source: string) {
    && source in s0.sources && source in s.sources
    && s.sources[source].version == s0.sources[source].version + StepsOn(steps, source)
    && match FirstOn(steps, source)
       case None => s.sources[source].value == s0.sources[source].value
       case Some(first) => "expectedValue" in first.preconditions
                           && s0.sources[source].value == StrOf(first.preconditions["expectedValue"])
  }

  lemma AdvancedMore(s0: GatewayState, s: GatewayState, t: GatewayState, steps: seq<SagaStep>, source: string)
    requires steps != [] && Advanced(s0, s, steps[..|steps| - 1], source)
    requires Applied(s, t, steps[|steps| - 1].action)
    ensures Advanced(s0, t, steps, source)
  {
  }

  lemma KeysStayNew(s: GatewayState, t: GatewayState, all: seq<SagaStep>, m: nat)
    requires m < |all| && KeysApart(all) && KeysNew(s, all, m) && Applied(s, t, all[m].action)
    ensures KeysNew(t, all, m + 1)
  {
  }

  // The compensation of the first step on the source writes back the value that step expected.
  ghost predicate WritesBack(first: SourceActionPlan) {
    && Reversible(first) && "expectedValue" in first.preconditions
    && StrOf(first.compensation.value.parameters["newValue"]) == StrOf(first.preconditions["expectedValue"])
  }

  ghost predicate Restored(s0: GatewayState, t: GatewayState, steps: seq<SagaStep>, source: string) {
    && source in s0.sources && source in t.sources
    && t.sources[source].version == s0.sources[source].version + 2 * StepsOn(steps, source)
    && (t.sources[source].value == s0.sources[source].value
        <==> (FirstOn(steps, source).Some? ==> WritesBack(FirstOn(steps, source).value)))
  }

  lemma AdvancedThenUnwound(s0: GatewayState, s: GatewayState, t: GatewayState, steps: seq<SagaStep>, source: string)
    requires Advanced(s0, s, steps, source) && Unwound(s, t, steps, source)
    ensures Restored(s0, t, steps, source)
  {
    FirstIsReversible(steps, source);
  }

  // A controlled failure whose compensations all succeed.
  lemma FailedRun(env: Environment, s0: GatewayState, s: GatewayState, all: seq<SagaStep>, completed: Completed,
                  identity: RequestIdentity, source: string)
    requires |completed| <= |all| && StepsOf(completed) == all[..|completed|]
    requires KeysApart(all) && KeysNew(s, all, |completed|) && Advanced(s0, s, all[..|completed|], source)
    requires Unwind(env, s, completed, [], identity).2.None?
    ensures Restored(s0, Unwind(env, s, completed, [], identity).0, all[..|completed|], source)
  {
    assert DerivedKeysNew(s, all[..|completed|]);
    UnwindEffect(env, s, completed, [], identity, source);
    AdvancedThenUnwound(s0, s, Unwind(env, s, completed, [], identity).0, all[..|completed|], source);
  }

  // What an outcome promises about a source: s0 is the state before the saga and t the one after.
  ghost predicate Faithful(s0: GatewayState, t: GatewayState, r: Result<SagaOutcome, ActionError>, all: seq<SagaStep>, source: string) {
    r.Ok? ==>
      && |r.value.receipts| <= |all|
      && (r.value.state.SagaCompleted? ==> |r.value.receipts| == |all| && Advanced(s0, t, all, source))
      && (r.value.state.SagaCompensated? || r.value.state.SagaFailed? ==> Restored(s0, t, all[..|r.value.receipts|], source))
  }

  function Stopped(env: Environment, s: GatewayState, completed: Completed, identity: RequestIdentity, failed: string)
    : (GatewayState, Result<SagaOutcome, ActionError>)
  {
    var (t, compensations, stopped) := Unwind(env, s, completed, [], identity);
    (t, Concluded(completed, compensations, stopped, failed))
  }

  // One step of the run, with what the caller needs to know of it and no more.
  lemma RunOnce(env: Environment, s: GatewayState, steps: seq<SagaStep>, completed: Completed, identity: RequestIdentity)
    returns (s1: GatewayState, r: Result<SourceMutationReceipt, ActionError>)
    requires steps != [] && !Seen(s, KeyOf(steps[0].action))
    ensures r.Ok? ==> Applied(s, s1, steps[0].action)
    ensures r.Err? && TextValued(steps[0].action) ==> Untouched(s, s1)
    ensures RunNext(env, s, steps, completed, identity) ==
      if r.Ok? then RunNext(env, s1, steps[1..], completed + [(steps[0], r.value)], identity)
      else if !Controlled(r.error) then (s1, Err(r.error))
      else Stopped(env, s1, completed, identity, steps[0].action.actionId)
  {
    s1, r := StepNext(env, s, steps[0], identity).0, StepNext(env, s, steps[0], identity).1;
    StepEffect(env, s, steps[0], identity);
  }

  // Where the run stands after `completed`: the steps so far are applied and the remaining keys are new.
  ghost predicate Underway(s0: GatewayState, s: GatewayState, all: seq<SagaStep>, completed: Completed, source: string) {
    && |completed| <= |all| && StepsOf(completed) == all[..|completed|]
    && KeysNew(s, all, |completed|) && Advanced(s0, s, all[..|completed|], source)
  }

  lemma FailureFaithful(env: Environment, s0: GatewayState, s: GatewayState, all: seq<SagaStep>, completed: Completed,
                        identity: RequestIdentity, source: string, failed: string)
    requires Underway(s0, s, all, completed, source) && KeysApart(all)
    ensures var (t, r) := Stopped(env, s, completed, identity, failed); Faithful(s0, t, r, all, source)
  {
    if Unwind(env, s, completed, [], identity).2.None? {
      FailedRun(env, s0, s, all, completed, identity, source);
    }
  }

  lemma StepDone(s0: GatewayState, s: GatewayState, s1: GatewayState, all: seq<SagaStep>, completed: Completed,
                 receipt: SourceMutationReceipt, source: string)
    requires Underway(s0, s, all, completed, source) && KeysApart(all) && |completed| < |all|
    requires Applied(s, s1, all[|completed|].action)
    ensures Underway(s0, s1, all, completed + [(all[|completed|], receipt)], source)
  {
    var m := |completed|;
    assert all[..m + 1][..m] == all[..m];
    assert StepsOf(completed + [(all[m], receipt)]) == all[..m + 1];
    AdvancedMore(s0, s, s1, all[..m + 1], source);
    KeysStayNew(s, s1, all, m);
  }

  lemma StepRefused(s0: GatewayState, s: GatewayState, s1: GatewayState, all: seq<SagaStep>, completed: Completed, source: string)
    requires Underway(s0, s, all, completed, source) && Untouched(s, s1)
    ensures Underway(s0, s1, all, completed, source)
  {
  }

  lemma RaisedFaithful(s0: GatewayState, s: GatewayState, error: ActionError, all: seq<SagaStep>, source: string)
    ensures Faithful(s0, s, Err(error), all, source)
  {
  }

  lemma RunEnds(env: Environment, s0: GatewayState, s: GatewayState, all: seq<SagaStep>, completed: Completed,
                identity: RequestIdentity, source: string)
    requires Underway(s0, s, all, completed, source) && |completed| == |all|
    ensures var (t, r) := RunNext(env, s, all[|completed|..], completed, identity); Faithful(s0, t, r, all, source)
  {
    assert all[..|all|] == all;
  }

  lemma NextNotSeen(s0: GatewayState, s: GatewayState, all: seq<SagaStep>, completed: Completed, source: string)
    requires Underway(s0, s, all, completed, source) && |completed| < |all|
    ensures !Seen(s, KeyOf(all[|completed|].action))
  {
  }

  lemma {:induction false} RunEffect(env: Environment, s0: GatewayState, s: GatewayState, all: seq<SagaStep>,
                                     completed: Completed, identity: RequestIdentity, source: string)
    requires |completed| <= |all| && Underway(s0, s, all, completed, source) && KeysApart(all)
    requires forall i :: 0 <= i < |all| ==> TextValued(all[i].action)
    ensures var (t, r) := RunNext(env, s, all[|completed|..], completed, identity); Faithful(s0, t, r, all, source)
    decreases |all| - |completed|
  {
    hide RunNext, Underway, Faithful, Seen, KeysApart, Applied, Untouched, Stopped, Controlled;
    var m := |completed|;
    if m == |all| {
      RunEnds(env, s0, s, all, completed, identity, source);
    } else {
      var step := all[m];
      NextNotSeen(s0, s, all, completed, source);
      assert all[m..][0] == step && all[m..][1..] == all[m + 1..];
      var s1, r := RunOnce(env, s, all[m..], completed, identity);
      if r.Ok? {
        StepDone(s0, s, s1, all, completed, r.value, source);
        RunEffect(env, s0, s1, all, completed + [(step, r.value)], identity, source);
      } else if Controlled(r.error) {
        StepRefused(s0, s, s1, all, completed, source);
        FailureFaithful(env, s0, s1, all, completed, identity, source, step.action.actionId);
      } else {
        assert Faithful(s0, s1, Err(r.error), all, source) by { RaisedFaithful(s0, s1, r.error, all, source); }
      }
    }
  }

  /**
   A compensated saga has moved every source on by two versions a step, and has restored its value
   exactly when the compensation of the first step on that source writes back what the step expected.
   A failed saga, with nothing to compensate, has not touched it.
   */
  lemma SagaRestoresSources(env: Environment, s: GatewayState, steps: seq<SagaStep>, identity: RequestIdentity, source: string)
    requires KeysApart(steps) && KeysNew(s, steps, 0) && source in s.sources
    requires forall i :: 0 <= i < |steps| ==> TextValued(steps[i].action)
    ensures var (t, r) := RunNext(env, s, steps, [], identity);
      r.Ok? && (r.value.state.SagaCompensated? || r.value.state.SagaFailed?) ==>
        && |r.value.receipts| <= |steps|
        && Restored(s, t, steps[..|r.value.receipts|], source)
  {
    assert steps[0..] == steps;
    RunEffect(env, s, s, steps, [], identity, source);
  }

  /** In particular: if every compensation writes back what its step expected, every value is restored. */
  lemma CompensatedSagaLeavesNoTrace(env: Environment, s: GatewayState, steps: seq<SagaStep>, identity: RequestIdentity, source: string)
    requires KeysApart(steps) && KeysNew(s, steps, 0) && source in s.sources
    requires forall i :: 0 <= i < |steps| ==> TextValued(steps[i].action) && WritesBack(steps[i].action)
    ensures var (t, r) := RunNext(env, s, steps, [], identity);
      r.Ok? && r.value.state.SagaCompensated? ==>
        && source in t.sources && |r.value.receipts| <= |steps|
        && t.sources[source].value == s.sources[source].value
        && t.sources[source].version == s.sources[source].version + 2 * StepsOn(steps[..|r.value.receipts|], source)
  {
    var (t, r) := RunNext(env, s, steps, [], identity);
    SagaRestoresSources(env, s, steps, identity, source);
    if r.Ok? && r.value.state.SagaCompensated? {
      FirstWritesBack(steps[..|r.value.receipts|], source);
    }
  }

  lemma {:induction false} FirstWritesBack(steps: seq<SagaStep>, source: string)
    requires forall i :: 0 <= i < |steps| ==> WritesBack(steps[i].action)
    ensures FirstOn(steps, source).Some? ==> WritesBack(FirstOn(steps, source).value)
  {
    if steps != [] { FirstWritesBack(steps[..|steps| - 1], source); }
  }
}
