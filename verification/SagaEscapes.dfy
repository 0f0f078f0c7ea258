/** When run() raises instead of ending: exactly at a step whose source is not registered, with all steps before it done. */
module SagaEscapes {
  import opened Wrappers
  import opened Scalars
  import opened Actions
  import opened LabSource
  import opened Gateway
  import opened Saga
  import opened SagaTheorems

  // The same sources, each for the same asset.
  ghost predicate SameAssets(s: GatewayState, t: GatewayState) {
    t.sources.Keys == s.sources.Keys && forall source :: source in s.sources ==> t.sources[source].assetId == s.sources[source].assetId
  }

  // --- One call ---

  lemma MutateKeepsAsset(s: LabState, action: SourceActionPlan)
    ensures MutateNext(s, RequestOf(action)).0.assetId == s.assetId
  {
  }

  lemma AuthorizeKeepsSources(env: Environment, s: GatewayState, action: SourceActionPlan, identity: RequestIdentity, stage: string)
    ensures AuthorizeNext(env, s, action, identity, stage).0.sources == s.sources
  {
  }

  lemma OutcomeKeepsSources(env: Environment, s: GatewayState, action: SourceActionPlan, started: int, decisionId: string,
                            outcome: Result<MutationReply, SourceFault>)
    ensures var (t, r) := OutcomeNext(env, s, action, started, decisionId, outcome);
      t.sources == s.sources && (r.Err? ==> Controlled(r.error))
  {
  }

  lemma ExecuteEscapes(env: Environment, s: GatewayState, action: SourceActionPlan, preview: ActionPreview,
                       identity: RequestIdentity, approval: Option<ActionApproval>)
    ensures var (t, r) := ExecuteNext(env, s, action, preview, identity, approval);
      SameAssets(s, t) && (r.Err? && !Controlled(r.error) ==> action.sourceId !in s.sources)
  {
    hide AuthorizeNext, OutcomeNext, MutateNext, PreviewBinds, ApprovalHolds, ReplayNext;
    var (s1, decision) := AuthorizeNext(env, Tick(s), action, identity, "execute");
    AuthorizeKeepsSources(env, Tick(s), action, identity, "execute");
    var now := env.clock(s.tick);
    if KeyOf(action) in s1.bindings {
      ReplayKeepsSources(env, s1, action, now, s1.bindings[KeyOf(action)].1);
    } else if action.sourceId in s1.sources {
      var (source, outcome) := MutateNext(s1.sources[action.sourceId], RequestOf(action));
      MutateKeepsAsset(s1.sources[action.sourceId], action);
      OutcomeKeepsSources(env, s1.(sources := s1.sources[action.sourceId := source]), action, now, decision.decisionId, outcome);
    }
  }

  lemma ReplayKeepsSources(env: Environment, s: GatewayState, action: SourceActionPlan, now: int, receipt: SourceMutationReceipt)
    ensures ReplayNext(env, s, action, now, receipt).0.sources == s.sources
  {
  }

  lemma PreviewEscapes(env: Environment, s: GatewayState, action: SourceActionPlan, identity: RequestIdentity, ttl: int)
    ensures var (t, r) := PreviewNext(env, s, action, identity, ttl);
      t.sources == s.sources
      && if action.sourceId !in s.sources then (t, r) == (s, Err(MissingKey)) else r.Err? ==> Controlled(r.error)
  {
    PreviewUntouched(env, s, action, identity, ttl);
  }

  /** A step raises past the saga exactly if its source is not registered; then nothing has happened. */
  lemma StepEscapes(env: Environment, s: GatewayState, step: SagaStep, identity: RequestIdentity)
    ensures var (t, r) := StepNext(env, s, step, identity);
      && SameAssets(s, t)
      && if step.action.sourceId !in s.sources then (t, r) == (s, Err(MissingKey)) else r.Err? ==> Controlled(r.error)
  {
    hide PreviewNext, ExecuteNext;
    var (s1, preview) := PreviewNext(env, s, step.action, identity, PREVIEW_TTL);
    PreviewEscapes(env, s, step.action, identity, PREVIEW_TTL);
    if preview.Ok? { ExecuteEscapes(env, s1, step.action, preview.value, identity, step.approval); }
  }

  lemma CompensateEscapes(env: Environment, s: GatewayState, original: SourceActionPlan, receipt: SourceMutationReceipt,
                          identity: RequestIdentity, approval: Option<ActionApproval>)
    requires original.sourceId in s.sources
    ensures var (t, r) := CompensateNext(env, s, original, receipt, identity, approval);
      SameAssets(s, t) && (r.Err? ==> Controlled(r.error))
  {
    hide PreviewNext, ExecuteNext, ApprovalHolds;
    if original.compensation.Some? {
      var derived := Derived(original);
      var (s1, preview) := PreviewNext(env, Tick(s), derived, identity, PREVIEW_TTL);
      PreviewEscapes(env, Tick(s), derived, identity, PREVIEW_TTL);
      if preview.Ok? { ExecuteEscapes(env, s1, derived, preview.value, identity, None); }
    }
  }

  // --- The whole saga ---

  ghost predicate Registered(s: GatewayState, steps: seq<SagaStep>) {
    forall i :: 0 <= i < |steps| ==> steps[i].action.sourceId in s.sources
  }

  // Compensations never raise past the saga: their sources have served them before.
  lemma {:induction false} UnwindEscapes(env: Environment, s: GatewayState, completed: Completed, done: seq<SourceMutationReceipt>,
                                         identity: RequestIdentity)
    requires Registered(s, StepsOf(completed))
    ensures var stopped := Unwind(env, s, completed, done, identity).2; stopped.Some? ==> Controlled(stopped.value)
    decreases |completed|
  {
    hide CompensateNext, Controlled;
    if completed != [] {
      var n := |completed| - 1;
      var (step, receipt) := completed[n];
      assert StepsOf(completed)[n] == step && StepsOf(completed[..n]) == StepsOf(completed)[..n];
      CompensateEscapes(env, s, step.action, receipt, identity, step.approval);
      var (s1, r) := CompensateNext(env, s, step.action, receipt, identity, step.approval);
      if r.Ok? { UnwindEscapes(env, s1, completed[..n], done + [r.value], identity); }
    }
  }

  // The first n steps have their sources registered, and the next, if there is one, has not.
  ghost predicate FirstGap(s: GatewayState, steps: seq<SagaStep>, n: nat) {
    n <= |steps| && Registered(s, steps[..n]) && (n < |steps| ==> steps[n].action.sourceId !in s.sources)
  }

  lemma {:induction false} FindGap(s: GatewayState, steps: seq<SagaStep>) returns (n: nat)
    ensures FirstGap(s, steps, n)
  {
    n := 0;
    while n < |steps| && steps[n].action.sourceId in s.sources
      invariant n <= |steps| && Registered(s, steps[..n])
    {
      n := n + 1;
    }
  }

  // Every step so far is done.
  ghost predicate Completes(r: Result<SagaOutcome, ActionError>) {
    r.Ok? && r.value.state.SagaCompleted?
  }

  // Run up to the gap, and run in full.
  ghost predicate EscapesAtGap(upto: (GatewayState, Result<SagaOutcome, ActionError>), full: (GatewayState, Result<SagaOutcome, ActionError>),
                               gap: bool, n: nat) {
    && upto.1.Ok? && (Completes(upto.1) ==> |upto.1.value.receipts| == n && upto.1.value.compensationReceipts == [])
    && if gap && Completes(upto.1) then full == (upto.0, Err(MissingKey)) else full.1.Ok?
  }

  lemma OneStepOfRun(env: Environment, s: GatewayState, steps: seq<SagaStep>, k: nat, completed: Completed, identity: RequestIdentity)
    requires 0 < k <= |steps|
    ensures var (s1, r) := StepNext(env, s, steps[0], identity);
      RunNext(env, s, steps[..k], completed, identity) ==
        if r.Ok? then RunNext(env, s1, steps[1..][..k - 1], completed + [(steps[0], r.value)], identity)
        else if !Controlled(r.error) then (s1, Err(r.error))
        else Stopped(env, s1, completed, identity, steps[0].action.actionId)
  {
    hide StepNext, Controlled;
    assert steps[..k][0] == steps[0] && steps[..k][1..] == steps[1..][..k - 1];
  }

  lemma StoppedEnds(env: Environment, s: GatewayState, completed: Completed, identity: RequestIdentity, failed: string)
    requires Registered(s, StepsOf(completed))
    ensures var r := Stopped(env, s, completed, identity, failed).1; r.Ok? && !r.value.state.SagaCompleted?
  {
    UnwindEscapes(env, s, completed, [], identity);
  }

  lemma RunAtGap(env: Environment, s: GatewayState, rest: seq<SagaStep>, completed: Completed, identity: RequestIdentity)
    requires rest != [] ==> rest[0].action.sourceId !in s.sources
    ensures EscapesAtGap(RunNext(env, s, [], completed, identity), RunNext(env, s, rest, completed, identity), rest != [], |completed|)
  {
    hide StepNext;
    if rest != [] { StepEscapes(env, s, rest[0], identity); }
  }

  lemma {:induction false} RunEscapes(env: Environment, s: GatewayState, rest: seq<SagaStep>, k: nat, completed: Completed, identity: RequestIdentity)
    requires k <= |rest| && Registered(s, StepsOf(completed)) && FirstGap(s, rest, k)
    ensures EscapesAtGap(RunNext(env, s, rest[..k], completed, identity), RunNext(env, s, rest, completed, identity),
                         k < |rest|, |completed| + k)
    decreases |rest|
  {
    hide StepNext, Stopped, EscapesAtGap, RunNext;
    assert rest[..|rest|] == rest;
    if k == 0 {
      assert rest[..0] == [];
      RunAtGap(env, s, rest, completed, identity);
    } else {
      var (s1, r) := StepNext(env, s, rest[0], identity);
      assert rest[..k][0] == rest[0];
      StepEscapes(env, s, rest[0], identity);
      OneStepOfRun(env, s, rest, k, completed, identity);
      OneStepOfRun(env, s, rest, |rest|, completed, identity);
      if r.Ok? {
        NextGap(s, s1, rest, k, completed, r.value);
        RunEscapes(env, s1, rest[1..], k - 1, completed + [(rest[0], r.value)], identity);
        assert rest[1..][..|rest| - 1] == rest[1..];
      } else {
        StoppedEnds(env, s1, completed, identity, rest[0].action.actionId);
        BothStopped(Stopped(env, s1, completed, identity, rest[0].action.actionId), k < |rest|, |completed| + k);
      }
    }
  }

  lemma BothStopped(stopped: (GatewayState, Result<SagaOutcome, ActionError>), gap: bool, n: nat)
    requires stopped.1.Ok? && !stopped.1.value.state.SagaCompleted?
    ensures EscapesAtGap(stopped, stopped, gap, n)
  {
  }

  lemma NextGap(s: GatewayState, s1: GatewayState, rest: seq<SagaStep>, k: nat, completed: Completed, receipt: SourceMutationReceipt)
    requires 0 < k && FirstGap(s, rest, k) && SameAssets(s, s1) && Registered(s, StepsOf(completed))
    ensures FirstGap(s1, rest[1..], k - 1) && Registered(s1, StepsOf(completed + [(rest[0], receipt)]))
  {
    assert rest[..k][0] == rest[0];
    var next := rest[1..][..k - 1];
    forall i | 0 <= i < |next| ensures next[i].action.sourceId in s1.sources {
      assert next[i] == rest[..k][i + 1];
    }
    var more := completed + [(rest[0], receipt)];
    forall i | 0 <= i <= |completed| ensures StepsOf(more)[i].action.sourceId in s1.sources {
      if i < |completed| { assert StepsOf(more)[i] == StepsOf(completed)[i]; }
    }
  }

  /**
   run() raises exactly if some step's source is not registered and the steps before the first such one make up a saga that
   completes; it then leaves what that saga leaves, nothing compensated, and there is no outcome.
   */
  lemma SagaRaisesExactly(env: Environment, s: GatewayState, steps: seq<SagaStep>, n: nat, identity: RequestIdentity)
    requires FirstGap(s, steps, n)
    ensures var (t, before) := RunNext(env, s, steps[..n], [], identity); var (t', r) := RunNext(env, s, steps, [], identity);
      && (r.Err? <==> n < |steps| && Completes(before))
      && (r.Err? ==> r.error == MissingKey && t' == t && |before.value.receipts| == n && before.value.compensationReceipts == [])
  {
    assert StepsOf([]) == [];
    RunEscapes(env, s, steps, n, [], identity);
  }

  // --- A saga left half done ---

  const FIRST := SourceActionPlan("first", "src", "row", "set", map["newValue" := Text("b")],
    map["expectedVersion" := Number(1), "expectedValue" := Text("a")], "key", Low, NoApproval, "demo",
    Some(CompensationSpec("set", map["newValue" := Text("a")], map["expectedVersion" := Number(2), "expectedValue" := Text("b")])))

  const SECOND := FIRST.(actionId := "second", sourceId := "gone", idempotencyKey := "other")

  const HALF := GatewayState(0, [], map[], map["src" := LabState("row", "a", 1, 0, map[])])

  // Everything is allowed, at once.
  ghost predicate Permissive(env: Environment) {
    && (forall n, action, identity, stage :: env.policy(n, action, identity, stage).allowed)
    && (forall n :: env.clock(n) == 0) && (forall source :: env.supportsKey(source))
  }

  lemma FirstPreviewed(env: Environment, identity: RequestIdentity)
    requires Permissive(env)
    ensures var (s1, preview) := PreviewNext(env, HALF, FIRST, identity, PREVIEW_TTL);
      && preview.Ok? && PreviewBinds(FIRST, preview.value, identity, 0)
      && s1.bindings == map[] && s1.sources == HALF.sources
  {
    PreviewUntouched(env, HALF, FIRST, identity, PREVIEW_TTL);
    hide EmitNext, EffectsOf;
  }

  lemma FirstApplies()
    ensures var (source, outcome) := MutateNext(HALF.sources["src"], RequestOf(FIRST));
      && source.value == "b" && source.version == 2 && outcome.Ok? && outcome.value.success && outcome.value.postconditionsMet
  {
  }

  lemma AuthorizeKeepsBindings(env: Environment, s: GatewayState, action: SourceActionPlan, identity: RequestIdentity)
    ensures AuthorizeNext(env, s, action, identity, "execute").0.bindings == s.bindings
  {
  }

  lemma FirstExecuted(env: Environment, s: GatewayState, preview: ActionPreview, identity: RequestIdentity)
    requires Permissive(env) && PreviewBinds(FIRST, preview, identity, 0) && s.bindings == map[] && s.sources == HALF.sources
    ensures var (t, r) := ExecuteNext(env, s, FIRST, preview, identity, None);
      r.Ok? && t.sources.Keys == {"src"} && t.sources["src"].value == "b" && t.sources["src"].version == 2
  {
    hide MutateNext, PreviewBinds, EmitNext, LogNext;
    var (s1, decision) := AuthorizeNext(env, Tick(s), FIRST, identity, "execute");
    AuthorizeKeepsSources(env, Tick(s), FIRST, identity, "execute");
    AuthorizeKeepsBindings(env, Tick(s), FIRST, identity);
    FirstApplies();
    var (source, outcome) := MutateNext(HALF.sources["src"], RequestOf(FIRST));
    OutcomeKeepsSources(env, s1.(sources := s1.sources["src" := source]), FIRST, 0, decision.decisionId, outcome);
  }

  /** The second step names an unregistered source: run() raises, and the first stays applied although it could be compensated. */
  lemma HalfDone(env: Environment, identity: RequestIdentity)
    requires Permissive(env)
    ensures FIRST.compensation.Some?
    ensures var (t, r) := RunNext(env, HALF, [SagaStep(FIRST, None), SagaStep(SECOND, None)], [], identity);
      r == Err(MissingKey) && "src" in t.sources && t.sources["src"].value == "b" && t.sources["src"].version == 2
  {
    hide PreviewNext, ExecuteNext;
    FirstPreviewed(env, identity);
    var (s1, preview) := PreviewNext(env, HALF, FIRST, identity, PREVIEW_TTL);
    FirstExecuted(env, s1, preview.value, identity);
    var (t, r) := ExecuteNext(env, s1, FIRST, preview.value, identity, None);
    var steps := [SagaStep(FIRST, None), SagaStep(SECOND, None)];
    assert steps[1..] == [SagaStep(SECOND, None)] && steps[0] == SagaStep(FIRST, None);
    StepEscapes(env, t, SagaStep(SECOND, None), identity);
  }
}
