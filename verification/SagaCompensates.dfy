/** When a compensation succeeds, exactly, and when a saga that failed ends compensated. */
module SagaCompensates {
  import opened Wrappers
  import opened Scalars
  import opened Actions
  import opened LabSource
  import opened Gateway
  import opened GatewayGuards
  import opened Saga
  import opened SagaTheorems
  import opened SagaShape
  import opened SagaEscapes
  import opened SagaWrites

  // --- One request at a source ---

  // The preconditions name this version and this value.
  predicate Expects(preconditions: map<string, Scalar>, version: int, value: string) {
    && "expectedVersion" in preconditions && IntOf(preconditions["expectedVersion"]) == Some(version)
    && "expectedValue" in preconditions && StrOf(preconditions["expectedValue"]) == value
  }

  predicate GivesText(parameters: map<string, Scalar>) {
    "newValue" in parameters && parameters["newValue"].Text?
  }

  /** Under a new key a request takes effect and is reported so exactly if it is for the source's asset, names its version and value, and gives a string. */
  lemma MutateSucceedsExactly(s: LabState, action: SourceActionPlan)
    requires action.idempotencyKey !in s.idempotency
    ensures var (t, outcome) := MutateNext(s, RequestOf(action));
      var met := action.assetId == s.assetId && Expects(action.preconditions, s.version, s.value) && GivesText(action.parameters);
      && (outcome.Ok? && outcome.value.success && outcome.value.postconditionsMet <==> met)
      && (met ==> t.value == action.parameters["newValue"].text && t.version == s.version + 1 && t.mutationCount == s.mutationCount + 1
                  && t.idempotency.Keys == s.idempotency.Keys + {action.idempotencyKey}
                  && t.idempotency[action.idempotencyKey].0 == action.actionId)
  {
  }

  // --- One call of the gateway ---

  // The source would carry the action out.
  predicate Applicable(s: GatewayState, action: SourceActionPlan) {
    && action.sourceId in s.sources && action.assetId == s.sources[action.sourceId].assetId
    && Expects(action.preconditions, s.sources[action.sourceId].version, s.sources[action.sourceId].value)
    && GivesText(action.parameters)
  }

  lemma ExecuteSucceedsExactly(env: Environment, s: GatewayState, action: SourceActionPlan, preview: ActionPreview,
                               identity: RequestIdentity, approval: Option<ActionApproval>)
    requires !Seen(s, KeyOf(action))
    ensures ExecuteNext(env, s, action, preview, identity, approval).1.Ok? <==>
      && Covered(preview, action, identity, env.clock(s.tick))
      && (NeedsHuman(action) ==> Vouched(env, approval, action, identity, env.clock(s.tick), false))
      && env.policy(s.tick + 1, action, identity, "execute").allowed
      && Applicable(s, action)
  {
    hide MutateNext, OutcomeNext, ReplayNext, EmitNext, Covered, Vouched, Expects, GivesText;
    ExecuteGuarded(env, s, action, preview, identity, approval);
    var (s1, decision) := AuthorizeNext(env, Tick(s), action, identity, "execute");
    AuthorizeKeepsSources(env, Tick(s), action, identity, "execute");
    AuthorizeBindings(env, Tick(s), action, identity, "execute");
    if action.sourceId in s1.sources {
      var (source, outcome) := MutateNext(s1.sources[action.sourceId], RequestOf(action));
      MutateSucceedsExactly(s1.sources[action.sourceId], action);
      OutcomeEffect(env, s1.(sources := s1.sources[action.sourceId := source]), action, env.clock(s.tick), decision.decisionId, outcome);
    }
  }

  lemma AuthorizeBindings(env: Environment, s: GatewayState, action: SourceActionPlan, identity: RequestIdentity, stage: string)
    ensures AuthorizeNext(env, s, action, identity, stage).0.bindings == s.bindings
  {
  }

  const FIVE_MINUTES := 5 * 60 * 1_000_000

  // When the preview is dated, and when its action is executed.
  function PreviewedAt(env: Environment, s: GatewayState, action: SourceActionPlan, identity: RequestIdentity): nat {
    AuthorizeNext(env, s, action, identity, "preview").0.tick
  }

  function ExecutedAt(env: Environment, s: GatewayState, action: SourceActionPlan, identity: RequestIdentity): nat {
    PreviewNext(env, s, action, identity, PREVIEW_TTL).0.tick
  }

  lemma PreviewExactly(env: Environment, s: GatewayState, action: SourceActionPlan, identity: RequestIdentity)
    ensures var (t, r) := PreviewNext(env, s, action, identity, PREVIEW_TTL);
      && (r.Ok? <==> action.sourceId in s.sources && env.supportsKey(action.sourceId))
      && (r.Ok? ==> forall now :: Covered(r.value, action, identity, now) <==>
            env.policy(s.tick, action, identity, "preview").allowed && now < env.clock(PreviewedAt(env, s, action, identity)) + FIVE_MINUTES)
      && t.sources == s.sources && t.bindings == s.bindings
      && (r.Ok? ==> PreviewedAt(env, s, action, identity) < t.tick <= PreviewedAt(env, s, action, identity) + 3)
  {
    hide EffectsOf;
  }

  // The action that takes the original back: its own operation, parameters and preconditions, under keys of its own.
  predicate Reverses(d: SourceActionPlan, original: SourceActionPlan) {
    && original.compensation.Some?
    && d.actionId == original.actionId + ":compensate" && d.sourceId == original.sourceId && d.assetId == original.assetId
    && d.operation == original.compensation.value.operation && d.parameters == original.compensation.value.parameters
    && d.preconditions == original.compensation.value.preconditions
    && d.idempotencyKey == original.idempotencyKey + ":compensate" && d.risk == Medium && d.approvalMode == NoApproval
    && d.purpose == "compensate " + original.actionId && d.compensation.None?
  }

  // Registered for idempotent mutation, allowed at both stages, and executed before its preview runs out.
  predicate Granted(env: Environment, s: GatewayState, action: SourceActionPlan, identity: RequestIdentity) {
    && action.sourceId in s.sources && env.supportsKey(action.sourceId)
    && env.policy(s.tick, action, identity, "preview").allowed
    && env.policy(ExecutedAt(env, s, action, identity) + 1, action, identity, "execute").allowed
    && env.clock(ExecutedAt(env, s, action, identity)) < env.clock(PreviewedAt(env, s, action, identity)) + FIVE_MINUTES
  }

  lemma ReversesIsDerived(d: SourceActionPlan, original: SourceActionPlan)
    requires Reverses(d, original)
    ensures d == Derived(original)
  {
  }

  /**
   compensate() succeeds exactly if the receipt is a successful one of this action, a Human action's approval is vouched for,
   the reversing action is granted, and the source is at the version and value that the compensation's own preconditions
   name and is given a string; it then holds that string, one version on.
   */
  lemma CompensateSucceedsExactly(env: Environment, s: GatewayState, original: SourceActionPlan, receipt: SourceMutationReceipt,
                                  identity: RequestIdentity, approval: Option<ActionApproval>, d: SourceActionPlan)
    requires Reverses(d, original) && !Seen(s, KeyOf(d))
    ensures var (t, r) := CompensateNext(env, s, original, receipt, identity, approval);
      && (r.Ok? <==>
            && Compensable(original, receipt)
            && (NeedsHuman(original) ==> Vouched(env, approval, original, identity, env.clock(s.tick), true))
            && Granted(env, Tick(s), d, identity) && Applicable(s, d))
      && (r.Ok? ==> Wrote(s, t, d) && r.value.state == Compensated && r.value.compensationOf == Some(receipt.receiptId))
  {
    hide PreviewNext, ExecuteNext, LogNext, Covered, Vouched, Compensable, Applicable, Wrote;
    ReversesIsDerived(d, original);
    CompensateGuarded(env, s, original, receipt, identity, approval);
    CompensateWrites(env, s, original, receipt, identity, approval);
    CompensateRuns(env, s, original, receipt, identity, approval);
    var (s1, preview) := PreviewNext(env, Tick(s), d, identity, PREVIEW_TTL);
    PreviewExactly(env, Tick(s), d, identity);
    if preview.Ok? {
      ApplicableAfter(s, s1, d);
      ExecuteSucceedsExactly(env, s1, d, preview.value, identity, None);
    }
  }

  // Past its own two tests compensate previews and executes the derived action.
  lemma CompensateRuns(env: Environment, s: GatewayState, original: SourceActionPlan, receipt: SourceMutationReceipt,
                       identity: RequestIdentity, approval: Option<ActionApproval>)
    requires original.compensation.Some?
    ensures var r := CompensateNext(env, s, original, receipt, identity, approval).1;
      var passed := Compensable(original, receipt)
        && (NeedsHuman(original) ==> Vouched(env, approval, original, identity, env.clock(s.tick), true));
      var (s1, preview) := PreviewNext(env, Tick(s), Derived(original), identity, PREVIEW_TTL);
      && (r.Ok? <==> passed && preview.Ok? && ExecuteNext(env, s1, Derived(original), preview.value, identity, None).1.Ok?)
      && (r.Ok? ==> r.value.state == Compensated && r.value.compensationOf == Some(receipt.receiptId))
  {
    hide PreviewNext, ExecuteNext, LogNext;
    var (s1, preview) := PreviewNext(env, Tick(s), Derived(original), identity, PREVIEW_TTL);
    var r := CompensateNext(env, s, original, receipt, identity, approval).1;
    if r.Ok? {
      assert preview.Ok?;
      assert ExecuteNext(env, s1, Derived(original), preview.value, identity, None).1.Ok?;
    }
  }

  lemma ApplicableAfter(s: GatewayState, s1: GatewayState, d: SourceActionPlan)
    requires s1.sources == s.sources && s1.bindings == s.bindings
    ensures Applicable(s1, d) <==> Applicable(s, d)
    ensures Seen(s1, KeyOf(d)) <==> Seen(s, KeyOf(d))
  {
  }

  // --- Unwinding ---

  // Previews outlive the moment between two calls.
  ghost predicate Prompt(env: Environment) {
    forall n: nat, m: nat :: n <= m <= n + 3 ==> env.clock(m) < env.clock(n) + FIVE_MINUTES
  }

  // Whenever it is asked for, the step's compensation is granted and vouched for.
  ghost predicate MayUndo(env: Environment, identity: RequestIdentity, step: SagaStep) {
    && step.action.compensation.Some? && env.supportsKey(step.action.sourceId)
    && (forall d, n, stage :: Reverses(d, step.action) ==> env.policy(n, d, identity, stage).allowed)
    && (NeedsHuman(step.action) ==> forall n :: Vouched(env, step.approval, step.action, identity, env.clock(n), true))
  }

  ghost predicate MayUndoAll(env: Environment, identity: RequestIdentity, steps: seq<SagaStep>) {
    Prompt(env) && forall i :: 0 <= i < |steps| ==> MayUndo(env, identity, steps[i])
  }

  // The compensation of this step finds the source as it expects it.
  predicate Undoes(s: GatewayState, action: SourceActionPlan, version: int, value: string)
    requires action.compensation.Some? && action.sourceId in s.sources
  {
    && action.assetId == s.sources[action.sourceId].assetId && GivesText(action.compensation.value.parameters)
    && Expects(action.compensation.value.preconditions, version, value)
  }

  lemma GrantedPromptly(env: Environment, s: GatewayState, d: SourceActionPlan, identity: RequestIdentity, step: SagaStep)
    requires Prompt(env) && MayUndo(env, identity, step) && Reverses(d, step.action) && d.sourceId in s.sources
    ensures Granted(env, s, d, identity)
  {
    hide PreviewNext, AuthorizeNext;
    PreviewExactly(env, s, d, identity);
  }

  lemma UndoExactly(env: Environment, s: GatewayState, step: SagaStep, receipt: SourceMutationReceipt, identity: RequestIdentity)
    requires Prompt(env) && MayUndo(env, identity, step) && Compensable(step.action, receipt)
    requires step.action.sourceId in s.sources && !Seen(s, DerivedKey(step.action))
    ensures var (t, r) := CompensateNext(env, s, step.action, receipt, identity, step.approval);
      var source := s.sources[step.action.sourceId];
      && (r.Ok? <==> Undoes(s, step.action, source.version, source.value))
      && (r.Ok? ==> Wrote(s, t, Derived(step.action)))
  {
    hide CompensateNext, Granted, Compensable, Wrote, Expects, GivesText, Prompt;
    var d := Derived(step.action);
    assert Reverses(d, step.action);
    GrantedPromptly(env, Tick(s), d, identity, step);
    CompensateSucceedsExactly(env, s, step.action, receipt, identity, step.approval, d);
  }

  // Each of the later compensations on the source adds a version, and the last of them its value.
  predicate Fits(s: GatewayState, steps: seq<SagaStep>, i: nat)
    requires i < |steps| && steps[i].action.compensation.Some? && steps[i].action.sourceId in s.sources
  {
    var source := steps[i].action.sourceId;
    Undoes(s, steps[i].action, s.sources[source].version + StepsOn(steps[i + 1..], source),
           UnwoundValue(steps[i + 1..], source, s.sources[source].value))
  }

  ghost predicate AllFit(s: GatewayState, steps: seq<SagaStep>)
    requires forall i :: 0 <= i < |steps| ==> steps[i].action.compensation.Some? && steps[i].action.sourceId in s.sources
  {
    forall i :: 0 <= i < |steps| ==> Fits(s, steps, i)
  }

  ghost predicate AllReversible(steps: seq<SagaStep>) {
    forall i :: 0 <= i < |steps| ==> Reversible(steps[i].action)
  }

  // One more compensation on the source adds a version, and its value if no earlier step follows.
  lemma OneMoreLater(later: seq<SagaStep>, source: string, version: int, value: string, version1: int, value1: string)
    requires later != [] && AllReversible(later)
    requires var last := later[|later| - 1].action;
      if last.sourceId == source
      then version1 == version + 1 && value1 == StrOf(last.compensation.value.parameters["newValue"])
      else version1 == version && value1 == value
    ensures version1 + StepsOn(later[..|later| - 1], source) == version + StepsOn(later, source)
    ensures UnwoundValue(later[..|later| - 1], source, value1) == UnwoundValue(later, source, value)
  {
    FirstIsReversible(later, source);
    FirstIsReversible(later[..|later| - 1], source);
  }

  lemma FitsEarlier(s: GatewayState, s1: GatewayState, steps: seq<SagaStep>, i: nat)
    requires steps != [] && i < |steps| - 1 && AllReversible(steps)
    requires Wrote(s, s1, Derived(steps[|steps| - 1].action)) && SameAssets(s, s1)
    requires steps[i].action.compensation.Some? && steps[i].action.sourceId in s.sources
    ensures Fits(s1, steps[..|steps| - 1], i) <==> Fits(s, steps, i)
  {
    hide Expects, GivesText, StepsOn, UnwoundValue, Seen;
    var n := |steps| - 1;
    var source := steps[i].action.sourceId;
    var later := steps[i + 1..];
    assert later[..|later| - 1] == steps[..n][i + 1..] && later[|later| - 1] == steps[n];
    OneMoreLater(later, source, s.sources[source].version, s.sources[source].value, s1.sources[source].version, s1.sources[source].value);
  }

  lemma FitIsReversible(s: GatewayState, steps: seq<SagaStep>, i: nat)
    requires i < |steps| && steps[i].action.compensation.Some? && steps[i].action.sourceId in s.sources && Fits(s, steps, i)
    ensures Reversible(steps[i].action)
  {
  }

  lemma LastFits(s: GatewayState, steps: seq<SagaStep>)
    requires steps != []
    requires var last := steps[|steps| - 1].action; last.compensation.Some? && last.sourceId in s.sources
    ensures var last := steps[|steps| - 1].action;
      Fits(s, steps, |steps| - 1) <==> Undoes(s, last, s.sources[last.sourceId].version, s.sources[last.sourceId].value)
  {
    assert steps[|steps| - 1 + 1..] == [];
  }

  lemma AllFitSplits(s: GatewayState, s1: GatewayState, steps: seq<SagaStep>)
    requires steps != [] && SameAssets(s, s1)
    requires forall i :: 0 <= i < |steps| ==> steps[i].action.compensation.Some? && steps[i].action.sourceId in s.sources
    requires Fits(s, steps, |steps| - 1) && Wrote(s, s1, Derived(steps[|steps| - 1].action))
    ensures AllFit(s1, steps[..|steps| - 1]) <==> AllFit(s, steps)
  {
    hide Wrote, Fits, Reversible;
    var n := |steps| - 1;
    FitIsReversible(s, steps, n);
    if AllReversible(steps) {
      forall i | 0 <= i < n ensures Fits(s1, steps[..n], i) <==> Fits(s, steps, i) { FitsEarlier(s, s1, steps, i); }
    } else {
      var j :| 0 <= j < |steps| && !Reversible(steps[j].action);
      if AllFit(s, steps) { FitIsReversible(s, steps, j); }
      if AllFit(s1, steps[..n]) { FitIsReversible(s1, steps[..n], j); }
    }
  }

  ghost predicate Unwindable(s: GatewayState, completed: Completed) {
    && (forall i :: 0 <= i < |completed| ==> Compensable(completed[i].0.action, completed[i].1))
    && Registered(s, StepsOf(completed)) && DerivedKeysNew(s, StepsOf(completed))
  }

  lemma UnwindableEarlier(s: GatewayState, s1: GatewayState, completed: Completed)
    requires completed != [] && Unwindable(s, completed) && SameAssets(s, s1)
    requires var last := completed[|completed| - 1].0.action; last.compensation.Some? && Wrote(s, s1, Derived(last))
    ensures Unwindable(s1, completed[..|completed| - 1])
  {
    var n, steps := |completed| - 1, StepsOf(completed);
    assert steps[n] == completed[n].0 && steps[..n] == StepsOf(completed[..n]);
    DerivedStayNew(s, s1, steps);
    forall i | 0 <= i < n ensures StepsOf(completed[..n])[i].action.sourceId in s1.sources { assert steps[i].action.sourceId in s.sources; }
  }

  lemma UnwindableMeans(s: GatewayState, completed: Completed, identity: RequestIdentity, env: Environment)
    requires Unwindable(s, completed) && MayUndoAll(env, identity, StepsOf(completed))
    ensures var steps := StepsOf(completed);
      forall i :: 0 <= i < |steps| ==> steps[i].action.compensation.Some? && steps[i].action.sourceId in s.sources
    ensures completed != [] ==>
      var (step, receipt) := completed[|completed| - 1];
      && MayUndo(env, identity, step) && Compensable(step.action, receipt) && step.action.sourceId in s.sources
      && !Seen(s, DerivedKey(step.action)) && StepsOf(completed)[|completed| - 1] == step
      && StepsOf(completed[..|completed| - 1]) == StepsOf(completed)[..|completed| - 1]
  {
    if completed != [] {
      LastDerivedIsNew(s, completed);
      assert StepsOf(completed)[|completed| - 1] == completed[|completed| - 1].0;
    }
  }

  /** Unwinding compensates every step exactly if each compensation finds its source as it expects it. */
  lemma {:induction false} UnwindExactly(env: Environment, s: GatewayState, completed: Completed, done: seq<SourceMutationReceipt>,
                                         identity: RequestIdentity)
    requires Unwindable(s, completed) && MayUndoAll(env, identity, StepsOf(completed))
    requires forall i :: 0 <= i < |completed| ==> StepsOf(completed)[i].action.compensation.Some? && StepsOf(completed)[i].action.sourceId in s.sources
    ensures Unwind(env, s, completed, done, identity).2.None? <==> AllFit(s, StepsOf(completed))
    decreases |completed|
  {
    hide CompensateNext, Unwindable, MayUndo, Compensable, Undoes, Wrote, Fits, Seen, Derived, DerivedKey, Prompt;
    UnwindableMeans(s, completed, identity, env);
    if completed != [] {
      var n, steps := |completed| - 1, StepsOf(completed);
      var (step, receipt) := completed[n];
      var (s1, r) := CompensateNext(env, s, step.action, receipt, identity, step.approval);
      UndoExactly(env, s, step, receipt, identity);
      LastFits(s, steps);
      if r.Ok? {
        CompensateEscapes(env, s, step.action, receipt, identity, step.approval);
        UnwindableEarlier(s, s1, completed);
        UnwindableMeans(s1, completed[..n], identity, env);
        UnwindExactly(env, s1, completed[..n], done + [r.value], identity);
        AllFitSplits(s, s1, steps);
      }
    }
  }

  // --- The whole saga ---

  // Where a run stands after its completed steps.
  ghost predicate Standing(s0: GatewayState, s: GatewayState, all: seq<SagaStep>, completed: Completed) {
    && |completed| <= |all| && StepsOf(completed) == all[..|completed|]
    && KeysNew(s, all, |completed|) && SameAssets(s0, s) && Registered(s, all[..|completed|]) && BindingsSound(s)
    && (forall i :: 0 <= i < |completed| ==> SagaShape.ReceiptFor(completed[i].1, completed[i].0.action))
    && (forall source :: source in s0.sources ==> Left(s0, s, ActionsOf(all[..|completed|]), source))
  }

  lemma StandingMore(s0: GatewayState, s: GatewayState, s1: GatewayState, all: seq<SagaStep>, completed: Completed, receipt: SourceMutationReceipt)
    requires Standing(s0, s, all, completed) && KeysApart(all) && |completed| < |all|
    requires Wrote(s, s1, all[|completed|].action) && SameAssets(s, s1) && BindingsSound(s1)
    requires SagaShape.ReceiptFor(receipt, all[|completed|].action)
    ensures Standing(s0, s1, all, completed + [(all[|completed|], receipt)])
  {
    hide Left, BindingsSound, SagaShape.ReceiptFor;
    var n := |completed|;
    var more := completed + [(all[n], receipt)];
    assert all[..n + 1][..n] == all[..n] && StepsOf(more) == all[..n + 1];
    ActionsMore(all, n);
    KeysStayApart(s, s1, all, n);
    forall source | source in s0.sources ensures Left(s0, s1, ActionsOf(all[..n + 1]), source) {
      LeftMore(s0, s, s1, ActionsOf(all[..n]), all[n].action, source);
    }
    assert all[n].action.sourceId in s1.sources;
    var front := all[..n + 1];
    forall i | 0 <= i < |front| ensures front[i].action.sourceId in s1.sources {
      if i < n { assert all[..n][i].action.sourceId in s.sources; }
    }
  }

  lemma StandingStill(s0: GatewayState, s: GatewayState, s1: GatewayState, all: seq<SagaStep>, completed: Completed)
    requires Standing(s0, s, all, completed) && Untouched(s, s1)
    ensures Standing(s0, s1, all, completed)
  {
    hide Left, Seen;
    assert forall k :: Seen(s1, k) == Seen(s, k) by { SeenAlike(s, s1); }
    forall source | source in s0.sources ensures Left(s0, s1, ActionsOf(all[..|completed|]), source) {
      LeftSame(s0, s, s1, ActionsOf(all[..|completed|]), source);
    }
  }

  lemma SeenAlike(s: GatewayState, s1: GatewayState)
    requires Untouched(s, s1)
    ensures forall k :: Seen(s1, k) == Seen(s, k)
  {
  }

  lemma NotSeenNext(s0: GatewayState, s: GatewayState, all: seq<SagaStep>, completed: Completed)
    requires Standing(s0, s, all, completed) && |completed| < |all|
    ensures !Seen(s, KeyOf(all[|completed|].action)) && BindingsSound(s)
  {
  }

  // One step of a run, with all that is known of it.
  lemma StandingStep(env: Environment, s0: GatewayState, s: GatewayState, all: seq<SagaStep>, completed: Completed, identity: RequestIdentity)
    returns (s1: GatewayState, r: Result<SourceMutationReceipt, ActionError>)
    requires Standing(s0, s, all, completed) && KeysApart(all) && |completed| < |all| && TextValued(all[|completed|].action)
    ensures r.Ok? ==> Standing(s0, s1, all, completed + [(all[|completed|], r.value)])
    ensures r.Err? ==> Standing(s0, s1, all, completed)
    ensures var n := |completed|;
      RunNext(env, s, all[n..], completed, identity) ==
        if r.Ok? then RunNext(env, s1, all[n + 1..], completed + [(all[n], r.value)], identity)
        else if !Controlled(r.error) then (s1, Err(r.error))
        else Stopped(env, s1, completed, identity, all[n].action.actionId)
  {
    hide StepNext, Standing, Wrote, BindingsSound, SagaShape.ReceiptFor, Stopped, Controlled, SameAssets;
    var n := |completed|;
    var step := all[n];
    assert all[n..][0] == step && all[n..][1..] == all[n + 1..];
    NotSeenNext(s0, s, all, completed);
    s1, r := StepReceipt(env, s, step, identity);
    StepWrites(env, s, step, identity);
    StepEscapes(env, s, step, identity);
    StepUnrolls(env, s, all[n..], completed, identity);
    if r.Ok? {
      StandingMore(s0, s, s1, all, completed, r.value);
    } else {
      StandingStill(s0, s, s1, all, completed);
    }
  }

  lemma StepUnrolls(env: Environment, s: GatewayState, steps: seq<SagaStep>, completed: Completed, identity: RequestIdentity)
    requires steps != []
    ensures var (s1, r) := StepNext(env, s, steps[0], identity);
      RunNext(env, s, steps, completed, identity) ==
        if r.Ok? then RunNext(env, s1, steps[1..], completed + [(steps[0], r.value)], identity)
        else if !Controlled(r.error) then (s1, Err(r.error))
        else Stopped(env, s1, completed, identity, steps[0].action.actionId)
  {
    hide StepNext, Controlled, Unwind;
  }

  // The point at which a saga that does not complete is stopped.
  lemma {:induction false} StoppingPoint(env: Environment, s0: GatewayState, s: GatewayState, all: seq<SagaStep>, completed: Completed,
                                         identity: RequestIdentity) returns (at: GatewayState, upto: Completed)
    requires |completed| <= |all| && Standing(s0, s, all, completed) && KeysApart(all)
    requires forall i :: 0 <= i < |all| ==> TextValued(all[i].action)
    ensures var (t, r) := RunNext(env, s, all[|completed|..], completed, identity);
      r.Ok? && !r.value.state.SagaCompleted? ==>
        |upto| < |all| && Standing(s0, at, all, upto) && (t, r) == Stopped(env, at, upto, identity, all[|upto|].action.actionId)
    decreases |all| - |completed|
  {
    hide Standing, Stopped, Controlled, StepNext, RunNext;
    at, upto := s, completed;
    var n := |completed|;
    if n == |all| {
      assert all[n..] == [];
      RunOfNone(env, s, completed, identity);
    } else {
      var s1, r := StandingStep(env, s0, s, all, completed, identity);
      if r.Ok? {
        at, upto := StoppingPoint(env, s0, s1, all, completed + [(all[n], r.value)], identity);
      } else {
        at := s1;
      }
    }
  }

  lemma RunOfNone(env: Environment, s: GatewayState, completed: Completed, identity: RequestIdentity)
    ensures var r := RunNext(env, s, [], completed, identity).1; r.Ok? && r.value.state.SagaCompleted?
  {
  }

  // --- In terms of where the saga began ---

  lemma {:induction false} CountIsSteps(steps: seq<SagaStep>, source: string)
    ensures CountOn(ActionsOf(steps), source) == StepsOn(steps, source)
  {
    if steps != [] {
      var n := |steps| - 1;
      CountIsSteps(steps[..n], source);
      assert (ActionsOf(steps[..n]) + [steps[n].action])[..|ActionsOf(steps[..n])|] == ActionsOf(steps[..n]);
    }
  }

  lemma {:induction false} StepsSplit(steps: seq<SagaStep>, m: nat, source: string)
    requires m <= |steps|
    ensures StepsOn(steps, source) == StepsOn(steps[..m], source) + StepsOn(steps[m..], source)
    decreases |steps|
  {
    if m == |steps| {
      assert steps[..m] == steps && steps[m..] == [];
    } else {
      var n := |steps| - 1;
      StepsSplit(steps[..n], m, source);
      assert steps[..n][..m] == steps[..m] && steps[m..][..|steps[m..]| - 1] == steps[..n][m..] && steps[m..][|steps[m..]| - 1] == steps[n];
    }
  }

  // With no later step on its source, a step's value is what is left there.
  lemma {:induction false} LastValueStays(steps: seq<SagaStep>, i: nat, value: string)
    requires i < |steps| && TextValued(steps[i].action) && FirstOn(steps[i + 1..], steps[i].action.sourceId).None?
    ensures ValueAfter(ActionsOf(steps), steps[i].action.sourceId, value) == steps[i].action.parameters["newValue"].text
    decreases |steps|
  {
    var n, source := |steps| - 1, steps[i].action.sourceId;
    var front := ActionsOf(steps[..n]);
    assert (front + [steps[n].action])[..|front|] == front;
    if i < n {
      assert steps[i + 1..][..|steps[i + 1..]| - 1] == steps[..n][i + 1..] && steps[i + 1..][|steps[i + 1..]| - 1] == steps[n];
      LastValueStays(steps[..n], i, value);
    }
  }

  /**
   The step's compensation is for the source's asset, gives a string, and expects by its own preconditions the version and
   value the step left, counting two versions for every later step on the source and the value its first compensation writes.
   */
  predicate Prepared(s0: GatewayState, steps: seq<SagaStep>, i: nat)
    requires i < |steps| && TextValued(steps[i].action) && steps[i].action.compensation.Some? && steps[i].action.sourceId in s0.sources
  {
    var action, source := steps[i].action, steps[i].action.sourceId;
    Undoes(s0, action, s0.sources[source].version + StepsOn(steps[..i + 1], source) + 2 * StepsOn(steps[i + 1..], source),
           UnwoundValue(steps[i + 1..], source, action.parameters["newValue"].text))
  }

  ghost predicate AllPrepared(s0: GatewayState, steps: seq<SagaStep>)
    requires forall i :: 0 <= i < |steps| ==>
      TextValued(steps[i].action) && steps[i].action.compensation.Some? && steps[i].action.sourceId in s0.sources
  {
    forall i :: 0 <= i < |steps| ==> Prepared(s0, steps, i)
  }

  lemma PreparedFits(s0: GatewayState, s: GatewayState, steps: seq<SagaStep>, i: nat)
    requires i < |steps| && TextValued(steps[i].action) && steps[i].action.compensation.Some? && steps[i].action.sourceId in s0.sources
    requires AllReversible(steps) && SameAssets(s0, s) && Left(s0, s, ActionsOf(steps), steps[i].action.sourceId)
    ensures Fits(s, steps, i) <==> Prepared(s0, steps, i)
  {
    hide Expects, GivesText, ValueAfter, ActionsOf, StepsOn, Seen, KeysOf;
    var source, later := steps[i].action.sourceId, steps[i + 1..];
    CountIsSteps(steps, source);
    StepsSplit(steps, i + 1, source);
    FirstIsReversible(later, source);
    if FirstOn(later, source).None? { LastValueStays(steps, i, s0.sources[source].value); }
  }

  lemma PreparedIsReversible(s0: GatewayState, steps: seq<SagaStep>, i: nat)
    requires i < |steps| && TextValued(steps[i].action) && steps[i].action.compensation.Some? && steps[i].action.sourceId in s0.sources
    requires Prepared(s0, steps, i)
    ensures Reversible(steps[i].action)
  {
  }

  lemma AllPreparedFit(s0: GatewayState, s: GatewayState, steps: seq<SagaStep>)
    requires forall i :: 0 <= i < |steps| ==>
      TextValued(steps[i].action) && steps[i].action.compensation.Some? && steps[i].action.sourceId in s0.sources
    requires SameAssets(s0, s) && forall source :: source in s0.sources ==> Left(s0, s, ActionsOf(steps), source)
    ensures AllFit(s, steps) <==> AllPrepared(s0, steps)
  {
    hide Fits, Prepared, Reversible, Left, TextValued;
    if AllReversible(steps) {
      forall i | 0 <= i < |steps| ensures Fits(s, steps, i) <==> Prepared(s0, steps, i) { PreparedFits(s0, s, steps, i); }
    } else {
      var j :| 0 <= j < |steps| && !Reversible(steps[j].action);
      if AllFit(s, steps) { FitIsReversible(s, steps, j); }
      if AllPrepared(s0, steps) { PreparedIsReversible(s0, steps, j); }
    }
  }

  lemma BeginsStanding(s: GatewayState, steps: seq<SagaStep>)
    requires KeysNew(s, steps, 0) && BindingsSound(s)
    ensures Standing(s, s, steps, [])
  {
    assert steps[..0] == [] && StepsOf([]) == [];
    forall source | source in s.sources ensures Left(s, s, ActionsOf([]), source) { NothingWritten(s, source); }
  }

  lemma StandingUnwinds(s0: GatewayState, s: GatewayState, all: seq<SagaStep>, completed: Completed)
    requires Standing(s0, s, all, completed) && KeysApart(all)
    requires forall i :: 0 <= i < |completed| ==> all[i].action.compensation.Some?
    ensures Unwindable(s, completed)
  {
    hide Left, Seen;
    forall i | 0 <= i < |completed| ensures Compensable(completed[i].0.action, completed[i].1) {
      assert StepsOf(completed)[i] == completed[i].0 == all[i];
      assert SagaShape.ReceiptFor(completed[i].1, completed[i].0.action);
    }
  }

  lemma StandingMeans(s0: GatewayState, s: GatewayState, all: seq<SagaStep>, completed: Completed)
    requires Standing(s0, s, all, completed)
    ensures |completed| <= |all| && StepsOf(completed) == all[..|completed|] && SameAssets(s0, s)
    ensures forall i :: 0 <= i < |completed| ==> all[i].action.sourceId in s.sources && all[i].action.sourceId in s0.sources
    ensures forall source :: source in s0.sources ==> Left(s0, s, ActionsOf(all[..|completed|]), source)
  {
    hide Left, Seen;
    var front := all[..|completed|];
    forall i | 0 <= i < |completed| ensures all[i].action.sourceId in s.sources { assert front[i].action.sourceId in s.sources; }
  }

  lemma StoppedCounts(env: Environment, s: GatewayState, completed: Completed, identity: RequestIdentity, failed: string)
    ensures var r := Stopped(env, s, completed, identity, failed).1;
      r.Ok? ==>
        && |r.value.receipts| == |completed|
        && (r.value.state.SagaCompensated? <==> completed != [] && Unwind(env, s, completed, [], identity).2.None?)
  {
  }

  lemma UndoneFromHere(env: Environment, s0: GatewayState, s: GatewayState, all: seq<SagaStep>, completed: Completed, identity: RequestIdentity)
    requires Standing(s0, s, all, completed) && KeysApart(all) && |completed| <= |all| && MayUndoAll(env, identity, all[..|completed|])
    requires forall i :: 0 <= i < |all| ==> TextValued(all[i].action)
    ensures var steps := all[..|completed|];
      (forall i :: 0 <= i < |steps| ==>
        TextValued(steps[i].action) && steps[i].action.compensation.Some? && steps[i].action.sourceId in s0.sources)
      && (Unwind(env, s, completed, [], identity).2.None? <==> AllPrepared(s0, steps))
  {
    hide Standing, MayUndo, TextValued, AllPrepared, AllFit, Unwindable, Prompt, Left;
    StandingMeans(s0, s, all, completed);
    var steps := all[..|completed|];
    forall i | 0 <= i < |steps| ensures steps[i].action.compensation.Some? { UndoIsDeclared(env, identity, steps[i]); }
    StandingUnwinds(s0, s, all, completed);
    UnwindExactly(env, s, completed, [], identity);
    AllPreparedFit(s0, s, steps);
  }

  lemma UndoIsDeclared(env: Environment, identity: RequestIdentity, step: SagaStep)
    requires MayUndo(env, identity, step)
    ensures step.action.compensation.Some?
  {
  }

  /**
   A saga of string-valued steps that fails after n of them, whose n compensations are granted and vouched for whenever they
   are asked for, ends compensated exactly if each of them expects what its step left.
   */
  lemma SagaCompensatesExactly(env: Environment, s: GatewayState, steps: seq<SagaStep>, identity: RequestIdentity)
    requires KeysApart(steps) && KeysNew(s, steps, 0) && BindingsSound(s)
    requires forall i :: 0 <= i < |steps| ==> TextValued(steps[i].action)
    ensures var r := RunNext(env, s, steps, [], identity).1;
      r.Ok? && !r.value.state.SagaCompleted? && r.value.receipts != [] ==>
        && |r.value.receipts| < |steps|
        && var done := steps[..|r.value.receipts|];
        MayUndoAll(env, identity, done) ==>
          && (forall i :: 0 <= i < |done| ==>
                TextValued(done[i].action) && done[i].action.compensation.Some? && done[i].action.sourceId in s.sources)
          && (r.value.state.SagaCompensated? <==> AllPrepared(s, done))
  {
    hide RunNext, Standing, MayUndoAll, TextValued, AllPrepared, Stopped, KeysApart, KeysNew;
    BeginsStanding(s, steps);
    assert steps[0..] == steps;
    var at, upto := StoppingPoint(env, s, s, steps, [], identity);
    var r := RunNext(env, s, steps, [], identity).1;
    if r.Ok? && !r.value.state.SagaCompleted? && r.value.receipts != [] {
      StoppedCounts(env, at, upto, identity, steps[|upto|].action.actionId);
      if MayUndoAll(env, identity, steps[..|upto|]) { UndoneFromHere(env, s, at, steps, upto, identity); }
    }
  }

  // --- A saga that is undone ---

  // The second step expects a version the source is not at.
  const LATE := FIRST.(actionId := "second", idempotencyKey := "other", preconditions := map["expectedVersion" := Number(9), "expectedValue" := Text("b")])

  lemma LateFails(env: Environment, s: GatewayState, identity: RequestIdentity)
    requires s.sources.Keys == {"src"} && s.sources["src"].version == 2 && !Seen(s, KeyOf(LATE))
    ensures var (t, r) := StepNext(env, s, SagaStep(LATE, None), identity); r.Err? && Controlled(r.error)
  {
    hide PreviewNext, ExecuteNext, Seen, Covered;
    StepEscapes(env, s, SagaStep(LATE, None), identity);
    var (s1, preview) := PreviewNext(env, s, LATE, identity, PREVIEW_TTL);
    PreviewExactly(env, s, LATE, identity);
    ApplicableAfter(s, s1, LATE);
    if preview.Ok? { ExecuteSucceedsExactly(env, s1, LATE, preview.value, identity, None); }
  }

  lemma FirstStep(env: Environment, identity: RequestIdentity)
    requires Permissive(env)
    ensures var (t, r) := StepNext(env, HALF, SagaStep(FIRST, None), identity);
      r.Ok? && t.sources.Keys == {"src"} && t.sources["src"].version == 2
  {
    hide PreviewNext, ExecuteNext;
    FirstPreviewed(env, identity);
    var (s1, preview) := PreviewNext(env, HALF, FIRST, identity, PREVIEW_TTL);
    FirstExecuted(env, s1, preview.value, identity);
  }

  lemma UndoneOutcome(env: Environment, identity: RequestIdentity)
    requires Permissive(env)
    ensures var r := RunNext(env, HALF, [SagaStep(FIRST, None), SagaStep(LATE, None)], [], identity).1;
      r.Ok? && !r.value.state.SagaCompleted? && |r.value.receipts| == 1
  {
    hide StepNext, KeysNew, Unwind, Seen, Controlled;
    var steps := [SagaStep(FIRST, None), SagaStep(LATE, None)];
    assert steps[1..] == [SagaStep(LATE, None)];
    FirstStep(env, identity);
    var (t, first) := StepNext(env, HALF, SagaStep(FIRST, None), identity);
    LateIsNew(env, identity);
    LateFails(env, t, identity);
    var s1 := StepNext(env, t, SagaStep(LATE, None), identity).0;
    StepEscapes(env, t, SagaStep(LATE, None), identity);
    StoppedEnds(env, s1, [(SagaStep(FIRST, None), first.value)], identity, LATE.actionId);
    var none: Completed := [];
    assert none + [(SagaStep(FIRST, None), first.value)] == [(SagaStep(FIRST, None), first.value)];
    StepUnrolls(env, HALF, steps, none, identity);
    StepUnrolls(env, t, steps[1..], [(SagaStep(FIRST, None), first.value)], identity);
    StoppedCounts(env, s1, [(SagaStep(FIRST, None), first.value)], identity, LATE.actionId);
  }

  lemma LateIsNew(env: Environment, identity: RequestIdentity)
    requires Permissive(env)
    ensures !Seen(StepNext(env, HALF, SagaStep(FIRST, None), identity).0, KeyOf(LATE))
  {
    hide StepNext;
    FirstStep(env, identity);
    StepWrites(env, HALF, SagaStep(FIRST, None), identity);
  }

  lemma FirstIsPrepared(env: Environment, identity: RequestIdentity)
    requires Permissive(env)
    ensures MayUndoAll(env, identity, [SagaStep(FIRST, None)]) && AllPrepared(HALF, [SagaStep(FIRST, None)])
  {
    var done := [SagaStep(FIRST, None)];
    assert done[..0] == [] && done[..1] == done && done[1..] == [];
  }

  lemma PairOfKeys()
    ensures var steps := [SagaStep(FIRST, None), SagaStep(LATE, None)];
      KeysApart(steps) && KeysNew(HALF, steps, 0) && BindingsSound(HALF)
  {
    assert KeyOf(FIRST) == ("src", "key") && KeyOf(LATE) == ("src", "other");
    assert |"key"| == 3 && |"other"| == 5 && |"key" + ":compensate"| == 14 && |"other" + ":compensate"| == 16;
    assert DerivedKey(FIRST) == ("src", "key" + ":compensate") && DerivedKey(LATE) == ("src", "other" + ":compensate");
  }

  /** The first step is applied, the second refused, and the first's compensation, which expects what it left, undoes it. */
  lemma UndoneSaga(env: Environment, identity: RequestIdentity)
    requires Permissive(env)
    ensures var (t, r) := RunNext(env, HALF, [SagaStep(FIRST, None), SagaStep(LATE, None)], [], identity);
      && r.Ok? && r.value.state.SagaCompensated?
      && "src" in t.sources && t.sources["src"].value == "a" && t.sources["src"].version == 3
  {
    hide RunNext, KeysApart, KeysNew, BindingsSound, MayUndoAll, AllPrepared, Prepared;
    var steps := [SagaStep(FIRST, None), SagaStep(LATE, None)];
    PairOfKeys();
    UndoneOutcome(env, identity);
    FirstIsPrepared(env, identity);
    assert steps[..1] == [SagaStep(FIRST, None)];
    SagaCompensatesExactly(env, HALF, steps, identity);
    SagaRestoresSources(env, HALF, steps, identity, "src");
    OneRestored();
  }

  lemma OneRestored()
    ensures StepsOn([SagaStep(FIRST, None)], "src") == 1 && FirstOn([SagaStep(FIRST, None)], "src") == Some(FIRST) && WritesBack(FIRST)
  {
    assert [SagaStep(FIRST, None)][..0] == [];
  }
}
