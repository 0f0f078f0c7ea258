/** What a saga leaves in each source, however it ended: the writes of its steps and of the compensations, in order. */
module SagaWrites {
  import opened Wrappers
  import opened Scalars
  import opened Actions
  import opened LabSource
  import opened Gateway
  import opened Saga
  import opened SagaTheorems
  import opened SagaEscapes

  // The source carries out a write whose value is not a string and then reports it as failed.
  predicate Slips(action: SourceActionPlan) {
    "newValue" in action.parameters && !TextValued(action)
  }

  // The source of the action took its value, and nothing else changed.
  ghost predicate Wrote(s: GatewayState, t: GatewayState, action: SourceActionPlan) {
    var source := action.sourceId;
    && source in s.sources && t.sources.Keys == s.sources.Keys
    && (forall other :: other in s.sources && other != source ==> t.sources[other] == s.sources[other])
    && "newValue" in action.parameters && t.sources[source].value == StrOf(action.parameters["newValue"])
    && t.sources[source].version == s.sources[source].version + 1
    && (forall k :: Seen(t, k) <==> Seen(s, k) || k == KeyOf(action))
  }

  // --- One call ---

  /** A refused mutation leaves the source as it was, unless its preconditions held and its value is not a string: then it is applied. */
  lemma RefusedMutation(s: LabState, action: SourceActionPlan)
    requires action.idempotencyKey !in s.idempotency
    requires var outcome := MutateNext(s, RequestOf(action)).1;
      !(outcome.Ok? && outcome.value.success && outcome.value.postconditionsMet)
    ensures var t := MutateNext(s, RequestOf(action)).0;
      if PreconditionsHold(s, RequestOf(action)) == Some(true) && Slips(action)
      then t.value == StrOf(action.parameters["newValue"]) && t.version == s.version + 1
           && t.idempotency.Keys == s.idempotency.Keys + {action.idempotencyKey}
      else t == s
  {
  }

  lemma WrittenTo(s: GatewayState, t: GatewayState, action: SourceActionPlan, source: LabState)
    requires action.sourceId in s.sources && t.sources == s.sources[action.sourceId := source] && t.bindings == s.bindings
    requires "newValue" in action.parameters && source.value == StrOf(action.parameters["newValue"])
    requires source.version == s.sources[action.sourceId].version + 1
    requires source.idempotency.Keys == s.sources[action.sourceId].idempotency.Keys + {action.idempotencyKey}
    ensures Wrote(s, t, action)
  {
  }

  // A call that failed: nothing happened, or the write slipped through.
  ghost predicate FailedAt(s: GatewayState, t: GatewayState, action: SourceActionPlan) {
    Untouched(s, t) || (Slips(action) && Wrote(s, t, action))
  }

  lemma ExecuteWrites(env: Environment, s: GatewayState, action: SourceActionPlan, preview: ActionPreview,
                      identity: RequestIdentity, approval: Option<ActionApproval>)
    requires !Seen(s, KeyOf(action))
    ensures var (t, r) := ExecuteNext(env, s, action, preview, identity, approval);
      (r.Ok? ==> Wrote(s, t, action)) && (r.Err? ==> FailedAt(s, t, action))
  {
    hide ExecuteNext, MutateNext, OutcomeNext;
    ExecuteEffect(env, s, action, preview, identity, approval);
    var (t, r) := ExecuteNext(env, s, action, preview, identity, approval);
    var reached, sent, decisionId := ExecuteReaches(env, s, action, preview, identity, approval);
    if reached && r.Err? {
      var (source, outcome) := MutateNext(s.sources[action.sourceId], RequestOf(action));
      OutcomeEffect(env, sent, action, env.clock(s.tick), decisionId, outcome);
      RefusedMutation(s.sources[action.sourceId], action);
      if PreconditionsHold(s.sources[action.sourceId], RequestOf(action)) == Some(true) && Slips(action) {
        WrittenTo(s, t, action, source);
      } else {
        assert t.sources == s.sources;
      }
    }
  }

  // Neither looks at anything but bindings and sources.
  lemma FramedBy(s: GatewayState, s1: GatewayState, t: GatewayState, t1: GatewayState, action: SourceActionPlan)
    requires Untouched(s, s1) && Untouched(t, t1)
    ensures Wrote(s1, t, action) ==> Wrote(s, t1, action)
    ensures FailedAt(s1, t, action) ==> FailedAt(s, t1, action)
  {
    assert forall k :: Seen(s1, k) == Seen(s, k);
    assert forall k :: Seen(t1, k) == Seen(t, k);
  }

  lemma StepWrites(env: Environment, s: GatewayState, step: SagaStep, identity: RequestIdentity)
    requires !Seen(s, KeyOf(step.action))
    ensures var (t, r) := StepNext(env, s, step, identity);
      (r.Ok? ==> Wrote(s, t, step.action)) && (r.Err? ==> FailedAt(s, t, step.action))
  {
    hide ExecuteNext, PreviewNext, Wrote;
    var (s1, preview) := PreviewNext(env, s, step.action, identity, PREVIEW_TTL);
    PreviewUntouched(env, s, step.action, identity, PREVIEW_TTL);
    assert Seen(s1, KeyOf(step.action)) == Seen(s, KeyOf(step.action));
    if preview.Ok? {
      ExecuteWrites(env, s1, step.action, preview.value, identity, step.approval);
      var t := ExecuteNext(env, s1, step.action, preview.value, identity, step.approval).0;
      FramedBy(s, s1, t, t, step.action);
    }
  }

  lemma CompensateWrites(env: Environment, s: GatewayState, original: SourceActionPlan, receipt: SourceMutationReceipt,
                         identity: RequestIdentity, approval: Option<ActionApproval>)
    requires original.compensation.Some? ==> !Seen(s, KeyOf(Derived(original)))
    ensures var (t, r) := CompensateNext(env, s, original, receipt, identity, approval);
      && (r.Ok? ==> original.compensation.Some? && Wrote(s, t, Derived(original)))
      && (r.Err? ==> Untouched(s, t) || (original.compensation.Some? && FailedAt(s, t, Derived(original))))
  {
    hide ExecuteNext, PreviewNext, Wrote, ApprovalHolds;
    if original.compensation.Some? {
      var derived := Derived(original);
      var (s1, preview) := PreviewNext(env, Tick(s), derived, identity, PREVIEW_TTL);
      PreviewUntouched(env, Tick(s), derived, identity, PREVIEW_TTL);
      assert Untouched(s, s1) && Seen(s1, KeyOf(derived)) == Seen(s, KeyOf(derived));
      if preview.Ok? {
        ExecuteWrites(env, s1, derived, preview.value, identity, None);
        var s2 := ExecuteNext(env, s1, derived, preview.value, identity, None).0;
        var t := CompensateNext(env, s, original, receipt, identity, approval).0;
        FramedBy(s, s1, s2, s2, derived);
        if Untouched(s2, t) { FramedBy(s, s1, s2, t, derived); }
      }
    }
  }

  // --- A list of writes ---

  function CountOn(writes: seq<SourceActionPlan>, source: string): nat {
    if writes == [] then 0
    else CountOn(writes[..|writes| - 1], source) + if writes[|writes| - 1].sourceId == source then 1 else 0
  }

  // The value after the writes, each of which carries one.
  function ValueAfter(writes: seq<SourceActionPlan>, source: string, value: string): string {
    if writes == [] then value
    else
      var last := writes[|writes| - 1];
      if last.sourceId == source && "newValue" in last.parameters then StrOf(last.parameters["newValue"])
      else ValueAfter(writes[..|writes| - 1], source, value)
  }

  ghost function KeysOf(writes: seq<SourceActionPlan>): set<Key> {
    set write | write in writes :: KeyOf(write)
  }

  /** At t the source is what it was at s with these writes made to it: a version each, and the last one's value; their keys, and no others, are new. */
  ghost predicate Left(s: GatewayState, t: GatewayState, writes: seq<SourceActionPlan>, source: string) {
    && source in s.sources && source in t.sources
    && t.sources[source].version == s.sources[source].version + CountOn(writes, source)
    && t.sources[source].value == ValueAfter(writes, source, s.sources[source].value)
    && (forall k :: Seen(t, k) <==> Seen(s, k) || k in KeysOf(writes))
  }

  lemma LeftMore(s0: GatewayState, s: GatewayState, t: GatewayState, writes: seq<SourceActionPlan>, action: SourceActionPlan, source: string)
    requires Left(s0, s, writes, source) && Wrote(s, t, action)
    ensures Left(s0, t, writes + [action], source)
  {
    hide Seen;
    assert (writes + [action])[..|writes|] == writes;
    assert KeysOf(writes + [action]) == KeysOf(writes) + {KeyOf(action)};
  }

  lemma LeftSame(s0: GatewayState, s: GatewayState, t: GatewayState, writes: seq<SourceActionPlan>, source: string)
    requires Left(s0, s, writes, source) && Untouched(s, t)
    ensures Left(s0, t, writes, source)
  {
  }

  // --- The compensations ---

  ghost predicate Undoable(steps: seq<SagaStep>, u: nat) {
    u <= |steps| && forall i :: |steps| - u <= i < |steps| ==> steps[i].action.compensation.Some?
  }

  // The writes that undo the last u steps, from the last.
  function Undo(steps: seq<SagaStep>, u: nat): seq<SourceActionPlan>
    requires Undoable(steps, u)
  {
    if u == 0 then []
    else [Derived(steps[|steps| - 1].action)] + Undo(steps[..|steps| - 1], u - 1)
  }

  // What an unwinding that made m receipts leaves: m compensations, and one more if the one that failed slipped through.
  ghost predicate Undone(s0: GatewayState, t: GatewayState, writes: seq<SourceActionPlan>, steps: seq<SagaStep>, m: nat, u: nat,
                         stopped: bool, source: string) {
    && m <= u <= m + 1 && Undoable(steps, u) && (stopped <==> m < |steps|)
    && (u == m + 1 ==> stopped && Slips(Derived(steps[|steps| - u].action)))
    && Left(s0, t, writes + Undo(steps, u), source)
  }

  lemma UndoneNone(s0: GatewayState, t: GatewayState, writes: seq<SourceActionPlan>, steps: seq<SagaStep>, source: string)
    requires Left(s0, t, writes, source)
    ensures Undone(s0, t, writes, steps, 0, 0, steps != [], source)
  {
    assert writes + [] == writes;
  }

  lemma UndoneOne(s0: GatewayState, t: GatewayState, writes: seq<SourceActionPlan>, steps: seq<SagaStep>, source: string)
    requires steps != [] && steps[|steps| - 1].action.compensation.Some? && Slips(Derived(steps[|steps| - 1].action))
    requires Left(s0, t, writes + [Derived(steps[|steps| - 1].action)], source)
    ensures Undone(s0, t, writes, steps, 0, 1, true, source)
  {
    assert Undo(steps, 1) == [Derived(steps[|steps| - 1].action)];
  }

  lemma UndoneMore(s0: GatewayState, t: GatewayState, writes: seq<SourceActionPlan>, steps: seq<SagaStep>, m: nat, u: nat, stopped: bool, source: string)
    requires steps != [] && steps[|steps| - 1].action.compensation.Some?
    requires Undone(s0, t, writes + [Derived(steps[|steps| - 1].action)], steps[..|steps| - 1], m, u, stopped, source)
    ensures Undone(s0, t, writes, steps, m + 1, u + 1, stopped, source)
  {
    var last, rest := Derived(steps[|steps| - 1].action), Undo(steps[..|steps| - 1], u);
    assert Undo(steps, u + 1) == [last] + rest;
    assert writes + [last] + rest == writes + ([last] + rest);
  }

  lemma DerivedStayNew(s: GatewayState, s1: GatewayState, steps: seq<SagaStep>)
    requires steps != [] && DerivedKeysNew(s, steps) && steps[|steps| - 1].action.compensation.Some?
    requires Wrote(s, s1, Derived(steps[|steps| - 1].action))
    ensures DerivedKeysNew(s1, steps[..|steps| - 1])
  {
    assert KeyOf(Derived(steps[|steps| - 1].action)) == DerivedKey(steps[|steps| - 1].action);
  }

  // One compensation of an unwinding, with no more than is needed of it.
  lemma UnwindWritesOnce(env: Environment, s: GatewayState, completed: Completed, done: seq<SourceMutationReceipt>, identity: RequestIdentity)
    returns (s1: GatewayState, r: Result<SourceMutationReceipt, ActionError>)
    requires completed != [] && !Seen(s, DerivedKey(completed[|completed| - 1].0.action))
    ensures var last := completed[|completed| - 1].0.action;
      && (r.Ok? ==> last.compensation.Some? && Wrote(s, s1, Derived(last)))
      && (r.Err? ==> Untouched(s, s1) || (last.compensation.Some? && FailedAt(s, s1, Derived(last))))
    ensures Unwind(env, s, completed, done, identity)
      == if r.Ok? then Unwind(env, s1, completed[..|completed| - 1], done + [r.value], identity) else (s1, done, Some(r.error))
  {
    hide CompensateNext, Wrote, FailedAt;
    var (step, receipt) := completed[|completed| - 1];
    if step.action.compensation.Some? { assert KeyOf(Derived(step.action)) == DerivedKey(step.action); }
    CompensateWrites(env, s, step.action, receipt, identity, step.approval);
    s1, r := CompensateNext(env, s, step.action, receipt, identity, step.approval).0,
             CompensateNext(env, s, step.action, receipt, identity, step.approval).1;
  }

  lemma {:induction false} UnwindWrites(env: Environment, s0: GatewayState, s: GatewayState, writes: seq<SourceActionPlan>,
      completed: Completed, steps: seq<SagaStep>, done: seq<SourceMutationReceipt>, identity: RequestIdentity, source: string)
    returns (m: nat, u: nat)
    requires steps == StepsOf(completed) && Left(s0, s, writes, source) && DerivedKeysNew(s, steps)
    ensures var (t, all, stopped) := Unwind(env, s, completed, done, identity);
      |all| == |done| + m && Undone(s0, t, writes, steps, m, u, stopped.Some?, source)
    decreases |completed|
  {
    hide Left, Wrote, Undone, FailedAt, Slips, CompensateNext, DerivedKeysNew, Derived;
    m, u := 0, 0;
    UndoneNone(s0, s, writes, steps, source);
    if completed != [] {
      var n := |completed| - 1;
      assert steps[n] == completed[n].0 && steps[..n] == StepsOf(completed[..n]);
      LastDerivedIsNew(s, completed);
      var s1, r := UnwindWritesOnce(env, s, completed, done, identity);
      if r.Ok? {
        var more := writes + [Derived(steps[n].action)];
        LeftMore(s0, s, s1, writes, Derived(steps[n].action), source);
        DerivedStayNew(s, s1, steps);
        m, u := UnwindWrites(env, s0, s1, more, completed[..n], steps[..n], done + [r.value], identity, source);
        var rest := Unwind(env, s1, completed[..n], done + [r.value], identity);
        UndoneMore(s0, rest.0, writes, steps, m, u, rest.2.Some?, source);
        m, u := m + 1, u + 1;
      } else {
        u := StoppedHere(s0, s, s1, writes, steps, source);
      }
    }
  }

  lemma StoppedHere(s0: GatewayState, s: GatewayState, s1: GatewayState, writes: seq<SourceActionPlan>, steps: seq<SagaStep>, source: string)
    returns (u: nat)
    requires steps != [] && Left(s0, s, writes, source)
    requires var last := steps[|steps| - 1].action;
      Untouched(s, s1) || (last.compensation.Some? && FailedAt(s, s1, Derived(last)))
    ensures Undone(s0, s1, writes, steps, 0, u, true, source)
  {
    hide Left, Wrote, Undone;
    if Untouched(s, s1) {
      u := 0;
      LeftSame(s0, s, s1, writes, source);
      UndoneNone(s0, s1, writes, steps, source);
    } else {
      u := 1;
      LeftMore(s0, s, s1, writes, Derived(steps[|steps| - 1].action), source);
      UndoneOne(s0, s1, writes, steps, source);
    }
  }

  // --- The whole saga ---

  function ActionsOf(steps: seq<SagaStep>): seq<SourceActionPlan> {
    if steps == [] then [] else ActionsOf(steps[..|steps| - 1]) + [steps[|steps| - 1].action]
  }

  /**
   The source holds the writes of the completed steps, then those of the compensations made, from the last step back.
   The step that failed adds its write only if it slipped through, and so does the compensation that failed.
   */
  ghost predicate Leaves(s0: GatewayState, t: GatewayState, all: seq<SagaStep>, o: SagaOutcome, f: nat, u: nat, source: string) {
    var n, m := |o.receipts|, |o.compensationReceipts|;
    && n <= |all| && n <= f <= n + 1 && f <= |all| && m <= u <= m + 1 && Undoable(all[..n], u)
    && (f == n + 1 ==> !o.state.SagaCompleted? && Slips(all[n].action))
    && (u == m + 1 ==> o.state.CompensationFailed? && Slips(Derived(all[n - u].action)))
    && Left(s0, t, ActionsOf(all[..f]) + Undo(all[..n], u), source)
  }

  lemma ActionsMore(all: seq<SagaStep>, m: nat)
    requires m < |all|
    ensures ActionsOf(all[..m + 1]) == ActionsOf(all[..m]) + [all[m].action]
  {
    assert all[..m + 1][..m] == all[..m];
  }

  lemma KeysStayApart(s: GatewayState, t: GatewayState, all: seq<SagaStep>, m: nat)
    requires m < |all| && KeysApart(all) && KeysNew(s, all, m) && Wrote(s, t, all[m].action)
    ensures KeysNew(t, all, m + 1) && DerivedKeysNew(t, all[..m])
  {
  }

  lemma KeysUntouched(s: GatewayState, t: GatewayState, all: seq<SagaStep>, m: nat)
    requires m < |all| && KeysApart(all) && KeysNew(s, all, m) && Untouched(s, t)
    ensures DerivedKeysNew(t, all[..m])
  {
    assert forall k :: Seen(t, k) == Seen(s, k);
  }

  // A step failed and the completed ones are unwound.
  lemma FailureWrites(env: Environment, s0: GatewayState, s: GatewayState, s1: GatewayState, all: seq<SagaStep>, completed: Completed,
                      identity: RequestIdentity, source: string) returns (f: nat, u: nat)
    requires |completed| < |all| && StepsOf(completed) == all[..|completed|]
    requires KeysApart(all) && KeysNew(s, all, |completed|) && Left(s0, s, ActionsOf(all[..|completed|]), source)
    requires FailedAt(s, s1, all[|completed|].action)
    ensures var (t, r) := Stopped(env, s1, completed, identity, all[|completed|].action.actionId);
      r.Ok? ==> Leaves(s0, t, all, r.value, f, u, source)
  {
    hide Left, Wrote, Slips, Unwind;
    var n := |completed|;
    f := n;
    if Untouched(s, s1) {
      LeftSame(s0, s, s1, ActionsOf(all[..n]), source);
      KeysUntouched(s, s1, all, n);
    } else {
      f := n + 1;
      ActionsMore(all, n);
      LeftMore(s0, s, s1, ActionsOf(all[..n]), all[n].action, source);
      KeysStayApart(s, s1, all, n);
    }
    var m;
    m, u := UnwindWrites(env, s0, s1, ActionsOf(all[..f]), completed, all[..n], [], identity, source);
  }

  lemma RunWritesOnce(env: Environment, s: GatewayState, steps: seq<SagaStep>, completed: Completed, identity: RequestIdentity)
    returns (s1: GatewayState, r: Result<SourceMutationReceipt, ActionError>)
    requires steps != [] && !Seen(s, KeyOf(steps[0].action))
    ensures (r.Ok? ==> Wrote(s, s1, steps[0].action)) && (r.Err? ==> FailedAt(s, s1, steps[0].action))
    ensures RunNext(env, s, steps, completed, identity) ==
      if r.Ok? then RunNext(env, s1, steps[1..], completed + [(steps[0], r.value)], identity)
      else if !Controlled(r.error) then (s1, Err(r.error))
      else Stopped(env, s1, completed, identity, steps[0].action.actionId)
  {
    hide StepNext, Wrote, FailedAt, Unwind;
    s1, r := StepNext(env, s, steps[0], identity).0, StepNext(env, s, steps[0], identity).1;
    StepWrites(env, s, steps[0], identity);
  }

  lemma AllDone(env: Environment, s0: GatewayState, s: GatewayState, all: seq<SagaStep>, completed: Completed, identity: RequestIdentity, source: string)
    requires |completed| == |all| && Left(s0, s, ActionsOf(all), source)
    ensures var (t, r) := RunNext(env, s, all[|completed|..], completed, identity);
      r.Ok? && Leaves(s0, t, all, r.value, |all|, 0, source)
  {
    hide Left;
    assert all[..|all|] == all && Undo(all, 0) == [];
    assert ActionsOf(all) + [] == ActionsOf(all);
  }

  lemma {:induction false} RunWrites(env: Environment, s0: GatewayState, s: GatewayState, all: seq<SagaStep>, completed: Completed,
                                     identity: RequestIdentity, source: string) returns (f: nat, u: nat)
    requires |completed| <= |all| && StepsOf(completed) == all[..|completed|]
    requires KeysApart(all) && KeysNew(s, all, |completed|) && Left(s0, s, ActionsOf(all[..|completed|]), source)
    ensures var (t, r) := RunNext(env, s, all[|completed|..], completed, identity);
      r.Ok? ==> Leaves(s0, t, all, r.value, f, u, source)
    decreases |all| - |completed|
  {
    hide Left, Wrote, Leaves, FailedAt, StepNext, Stopped, Unwind;
    var n := |completed|;
    f, u := n, 0;
    if n == |all| {
      assert all[..n] == all;
      AllDone(env, s0, s, all, completed, identity, source);
    } else {
      assert all[n..][0] == all[n] && all[n..][1..] == all[n + 1..];
      var s1, r := RunWritesOnce(env, s, all[n..], completed, identity);
      if r.Ok? {
        ActionsMore(all, n);
        LeftMore(s0, s, s1, ActionsOf(all[..n]), all[n].action, source);
        KeysStayApart(s, s1, all, n);
        var more := completed + [(all[n], r.value)];
        assert StepsOf(more) == all[..n + 1];
        f, u := RunWrites(env, s0, s1, all, more, identity, source);
      } else if Controlled(r.error) {
        f, u := FailureWrites(env, s0, s, s1, all, completed, identity, source);
      }
    }
  }

  // The step that failed slipped through exactly if its key is on record, and so did the compensation that failed.
  ghost predicate OnRecord(t: GatewayState, all: seq<SagaStep>, o: SagaOutcome, f: nat, u: nat) {
    var n, m := |o.receipts|, |o.compensationReceipts|;
    && m <= n <= |all|
    && (f == n + 1 <==> n < |all| && Seen(t, KeyOf(all[n].action)))
    && (u == m + 1 <==> m < n && Seen(t, DerivedKey(all[n - 1 - m].action)))
  }

  lemma {:induction false} ActionsAre(all: seq<SagaStep>, m: nat, write: SourceActionPlan)
    requires m <= |all|
    ensures write in ActionsOf(all[..m]) <==> exists i :: 0 <= i < m && write == all[i].action
  {
    if m > 0 {
      ActionsAre(all, m - 1, write);
      ActionsMore(all, m - 1);
    }
  }

  lemma {:induction false} UndoAre(steps: seq<SagaStep>, u: nat, write: SourceActionPlan)
    requires Undoable(steps, u)
    ensures write in Undo(steps, u) <==> exists i :: |steps| - u <= i < |steps| && write == Derived(steps[i].action)
  {
    if u > 0 { UndoAre(steps[..|steps| - 1], u - 1, write); }
  }

  // The keys of f steps and of the last u compensations.
  lemma KeysWritten(all: seq<SagaStep>, f: nat, n: nat, u: nat, k: Key)
    requires f <= |all| && n <= |all| && Undoable(all[..n], u)
    ensures k in KeysOf(ActionsOf(all[..f]) + Undo(all[..n], u)) <==>
      || (exists i :: 0 <= i < f && k == KeyOf(all[i].action))
      || (exists i :: n - u <= i < n && k == DerivedKey(all[i].action))
  {
    var writes := ActionsOf(all[..f]) + Undo(all[..n], u);
    if k in KeysOf(writes) {
      var write :| write in writes && KeyOf(write) == k;
      ActionsAre(all, f, write);
      UndoAre(all[..n], u, write);
    }
    if i :| 0 <= i < f && k == KeyOf(all[i].action) {
      ActionsAre(all, f, all[i].action);
      assert all[i].action in writes;
    }
    if i :| n - u <= i < n && k == DerivedKey(all[i].action) {
      UndoAre(all[..n], u, Derived(all[i].action));
      assert all[..n][i] == all[i];
      assert Derived(all[i].action) in writes && KeyOf(Derived(all[i].action)) == k;
    }
  }

  lemma SlipsAreOnRecord(s: GatewayState, t: GatewayState, all: seq<SagaStep>, o: SagaOutcome, f: nat, u: nat, source: string)
    requires KeysApart(all) && KeysNew(s, all, 0) && Leaves(s, t, all, o, f, u, source)
    ensures OnRecord(t, all, o, f, u)
  {
    hide Seen, KeysOf, ActionsOf, Undo, Slips;
    var n, m := |o.receipts|, |o.compensationReceipts|;
    if n < |all| { KeysWritten(all, f, n, u, KeyOf(all[n].action)); }
    if m < n { KeysWritten(all, f, n, u, DerivedKey(all[n - 1 - m].action)); }
  }

  // run() raised at step n: the writes of the steps before it, and nothing else.
  ghost predicate Escaped(s: GatewayState, t: GatewayState, steps: seq<SagaStep>, error: ActionError, n: nat, source: string) {
    error == MissingKey && FirstGap(s, steps, n) && n < |steps| && Left(s, t, ActionsOf(steps[..n]), source)
  }

  lemma EndedLeavesItsWrites(env: Environment, s: GatewayState, steps: seq<SagaStep>, identity: RequestIdentity, source: string)
    requires KeysApart(steps) && KeysNew(s, steps, 0) && source in s.sources
    ensures var (t, r) := RunNext(env, s, steps, [], identity);
      r.Ok? ==> exists f, u :: Leaves(s, t, steps, r.value, f, u, source) && OnRecord(t, steps, r.value, f, u)
  {
    hide RunNext, Left, Leaves, OnRecord, KeysApart, KeysNew;
    assert steps[0..] == steps && steps[..0] == [];
    assert StepsOf([]) == [];
    NothingWritten(s, source);
    var f, u := RunWrites(env, s, s, steps, [], identity, source);
    var (t, r) := RunNext(env, s, steps, [], identity);
    if r.Ok? {
      SlipsAreOnRecord(s, t, steps, r.value, f, u, source);
    }
  }

  // A completed saga leaves the writes of its steps.
  lemma CompletedLeaves(s: GatewayState, t: GatewayState, steps: seq<SagaStep>, o: SagaOutcome, f: nat, u: nat, source: string)
    requires Leaves(s, t, steps, o, f, u, source) && o.state.SagaCompleted? && |o.receipts| == |steps| && o.compensationReceipts == []
    ensures Left(s, t, ActionsOf(steps), source)
  {
    hide Left;
    assert steps[..f] == steps && steps[..|steps|] == steps && Undo(steps, 0) == [];
    assert ActionsOf(steps) + [] == ActionsOf(steps);
  }

  lemma EscapedLeavesItsWrites(env: Environment, s: GatewayState, steps: seq<SagaStep>, identity: RequestIdentity, source: string)
    requires KeysApart(steps) && KeysNew(s, steps, 0) && source in s.sources
    ensures var (t, r) := RunNext(env, s, steps, [], identity);
      r.Err? ==> exists n :: Escaped(s, t, steps, r.error, n, source)
  {
    hide RunNext, Left, Leaves, OnRecord, FirstGap;
    var n := FindGap(s, steps);
    var (t, r) := RunNext(env, s, steps, [], identity);
    SagaRaisesExactly(env, s, steps, n, identity);
    if r.Err? {
      GapIsInside(s, steps, n);
      var (t', before) := RunNext(env, s, steps[..n], [], identity);
      PrefixKeys(s, steps, n);
      EndedLeavesItsWrites(env, s, steps[..n], identity, source);
      var f, u :| Leaves(s, t', steps[..n], before.value, f, u, source);
      CompletedLeaves(s, t', steps[..n], before.value, f, u, source);
      assert Escaped(s, t, steps, r.error, n, source);
    }
  }

  lemma GapIsInside(s: GatewayState, steps: seq<SagaStep>, n: nat)
    requires FirstGap(s, steps, n)
    ensures n <= |steps|
  {
  }

  lemma PrefixKeys(s: GatewayState, steps: seq<SagaStep>, n: nat)
    requires KeysApart(steps) && KeysNew(s, steps, 0) && n <= |steps|
    ensures KeysApart(steps[..n]) && KeysNew(s, steps[..n], 0)
  {
  }

  /**
   However a saga ends, each source holds exactly the writes of its steps and of the compensations made, in order; the
   idempotency records tell whether a failed step or compensation is among them.  If run() raises, at a step whose source is
   not registered, they are the writes of all steps before it.
   */
  lemma SagaLeavesItsWrites(env: Environment, s: GatewayState, steps: seq<SagaStep>, identity: RequestIdentity, source: string)
    requires KeysApart(steps) && KeysNew(s, steps, 0) && source in s.sources
    ensures var (t, r) := RunNext(env, s, steps, [], identity);
      && (r.Ok? ==> exists f, u :: Leaves(s, t, steps, r.value, f, u, source) && OnRecord(t, steps, r.value, f, u))
      && (r.Err? ==> exists n :: Escaped(s, t, steps, r.error, n, source))
  {
    hide RunNext, Leaves, OnRecord, Escaped, KeysApart, KeysNew;
    EndedLeavesItsWrites(env, s, steps, identity, source);
    EscapedLeavesItsWrites(env, s, steps, identity, source);
  }

  lemma NothingWritten(s: GatewayState, source: string)
    requires source in s.sources
    ensures Left(s, s, ActionsOf([]), source)
  {
  }

  /** With string values throughout, a saga whose compensation failed leaves exactly the last m of its n completed steps undone. */
  lemma FailedCompensationLeavesSuffix(env: Environment, s: GatewayState, steps: seq<SagaStep>, identity: RequestIdentity, source: string)
    requires KeysApart(steps) && KeysNew(s, steps, 0) && source in s.sources
    requires forall i :: 0 <= i < |steps| ==> !Slips(steps[i].action)
    requires forall i :: 0 <= i < |steps| && steps[i].action.compensation.Some? ==> !Slips(Derived(steps[i].action))
    ensures var (t, r) := RunNext(env, s, steps, [], identity);
      r.Ok? ==>
        var n, m := |r.value.receipts|, |r.value.compensationReceipts|;
        && n <= |steps| && Undoable(steps[..n], m)
        && Left(s, t, ActionsOf(steps[..n]) + Undo(steps[..n], m), source)
  {
    hide RunNext, Left, Slips;
    EndedLeavesItsWrites(env, s, steps, identity, source);
    var (t, r) := RunNext(env, s, steps, [], identity);
    if r.Ok? {
      var f, u :| Leaves(s, t, steps, r.value, f, u, source);
    }
  }

  /** A compensation whose value is not a string is applied by the source and then reported as failed. */
  lemma CompensationSlips(s: LabState, action: SourceActionPlan)
    requires action.idempotencyKey !in s.idempotency && Slips(action) && PreconditionsHold(s, RequestOf(action)) == Some(true)
    ensures var (t, outcome) := MutateNext(s, RequestOf(action));
      && outcome.Ok? && outcome.value.success && !outcome.value.postconditionsMet
      && t.version == s.version + 1 && t.value == StrOf(action.parameters["newValue"])
  {
  }
}
