/** Every call of the durable gateway is a run of the recovery machine. */
module DurableRuns {
  import opened Wrappers
  import opened Scalars
  import opened HashChain
  import opened AuditLedger
  import opened Actions
  import opened LabSource
  import opened Gateway
  import opened Journal
  import opened RecoveryMachine
  import opened DurablePlays

  lemma {:induction false} RunSplits(w: World, first: seq<Step>, second: seq<Step>)
    ensures Run(w, first + second) == Run(Run(w, first), second)
  {
    if second == [] {
      assert first + second == first;
    } else {
      var n := |second| - 1;
      RunSplits(w, first, second[..n]);
      assert (first + second)[..|first| + n] == first + second[..n];
    }
  }

  lemma RunAfter(w: World, step: Step, rest: seq<Step>)
    ensures Run(w, [step] + rest) == Run(Next(w, step), rest)
  {
    hide Next;
    RunSplits(w, [step], rest);
    RunOne(w, step);
  }

  lemma RunOne(w: World, step: Step)
    ensures Run(w, [step]) == Next(w, step)
  {
    hide Next;
    assert [step][..0] == [];
  }

  ghost predicate Quiet(w: World, l: Ledger, sources: map<string, LabState>) {
    w.journal == l && w.sources == sources && w.calls == map[]
  }

  // The run from w that p tells of ends where p says, having dispatched just these.
  ghost predicate Runs(w: World, p: Played, sent: seq<SourceActionPlan>) {
    var t := Run(w, p.steps);
    Quiet(t, p.journal, p.state.sources) && t.dispatched == w.dispatched + sent
  }

  lemma RunsAfter(w: World, step: Step, p: Played, sent: seq<SourceActionPlan>)
    requires Runs(Next(w, step), p, sent) && Next(w, step).dispatched == w.dispatched
    ensures Runs(w, After(step, p), sent)
  {
    hide Next, Run;
    RunAfter(w, step, p.steps);
  }

  lemma RunsAfterSending(w: World, step: Step, p: Played, action: SourceActionPlan)
    requires Runs(Next(w, step), p, []) && Next(w, step).dispatched == w.dispatched + [action]
    ensures Runs(w, After(step, p), [action])
  {
    hide Next, Run;
    RunAfter(w, step, p.steps);
    assert w.dispatched + [action] + [] == w.dispatched + [action];
  }

  lemma RunsOne(w: World, p: Played, step: Step)
    requires p.steps == [step] && Quiet(Next(w, step), p.journal, p.state.sources)
    requires Next(w, step).dispatched == w.dispatched
    ensures Runs(w, p, [])
  {
    hide Next, Run;
    RunOne(w, step);
    assert w.dispatched + [] == w.dispatched;
  }

  // What can become of a lone request that has been handed to its connector.
  lemma LoneDelivery(w: World, action: SourceActionPlan, now: int, decisionId: string)
    requires w.calls == map[0 := AwaitingSource(action, now, decisionId)] && action.sourceId in w.sources
    ensures var (source, outcome) := MutateNext(w.sources[action.sourceId], RequestOf(action));
      var delivered := Next(w, Deliver(0));
      && Next(w, Crash) == w.(calls := map[], adrift := w.adrift + {action})
      && Next(w, LoseReply(0)) == w.(adrift := w.adrift + {action},
           calls := map[0 := SourceReturned(action, now, decisionId, Err(ConnectionLost))])
      && delivered == w.(sources := w.sources[action.sourceId := source],
           calls := map[0 := SourceReturned(action, now, decisionId, outcome)])
      && Next(delivered, Crash) == delivered.(calls := map[])
      && Next(delivered, LoseReply(0))
         == delivered.(calls := map[0 := SourceReturned(action, now, decisionId, Err(ConnectionLost))])
  {
    assert (set id | id in w.calls && w.calls[id].AwaitingSource? :: w.calls[id].action) == {action} by {
      assert 0 in w.calls && w.calls[0].action == action;
    }
    var lost := SourceReturned(action, now, decisionId, Err(ConnectionLost));
    assert w.calls[0 := lost] == map[0 := lost];
    var delivered := Next(w, Deliver(0));
    assert delivered.calls == map[0 := delivered.calls[0]];
    assert delivered.calls[0 := lost] == map[0 := lost];
    assert (set id | id in delivered.calls && delivered.calls[id].AwaitingSource? :: delivered.calls[id].action) == {};
    assert delivered.adrift + {} == delivered.adrift;
  }

  lemma LoneSettlement(w: World, call: Call, hookFails: bool, done: Completion)
    requires w.calls == map[0 := call] && call.SourceReturned?
    ensures Next(w, Resume(0, hookFails, done)) == w.(calls := map[],
      journal := FinishNext(w.journal, call.action, EndingOf(call, hookFails, done), done.completedAt).0)
  {
  }

  lemma SettleRuns(w: World, env: Environment, s: GatewayState, call: Call, hookFails: bool)
    requires call.SourceReturned? && w.calls == map[0 := call] && w.sources == s.sources
    ensures Runs(w, SettlePlay(env, s, w.journal, call, hookFails), [])
  {
    hide Next, FinishNext, EndingOf;
    var done := CompletionNext(env, s, call, hookFails).1;
    LoneSettlement(w, call, hookFails, done);
    RunsOne(w, SettlePlay(env, s, w.journal, call, hookFails), Resume(0, hookFails, done));
  }

  lemma SendRuns(w: World, env: Environment, s: GatewayState, action: SourceActionPlan, now: int, decisionId: string, fate: Fate)
    requires action.sourceId in s.sources && w.sources == s.sources
    requires w.calls == map[0 := AwaitingSource(action, now, decisionId)]
    ensures Runs(w, SendPlay(env, s, w.journal, action, now, decisionId, fate), [])
  {
    hide Next, Run, MutateNext, Runs, SettlePlay;
    LoneDelivery(w, action, now, decisionId);
    var (source, reply) := MutateNext(s.sources[action.sourceId], RequestOf(action));
    var s1 := s.(sources := s.sources[action.sourceId := source]);
    var delivered := Next(w, Deliver(0));
    var lost := SourceReturned(action, now, decisionId, Err(ConnectionLost));
    match fate {
      case DiesAfterDelivery =>
        RunsOne(delivered, Played(s1, w.journal, [Crash], Died), Crash);
        RunsAfter(w, Deliver(0), Played(s1, w.journal, [Crash], Died), []);
      case ReplyLost(arrived) =>
        if arrived {
          SettleRuns(Next(delivered, LoseReply(0)), env, s1, lost, false);
          RunsAfter(delivered, LoseReply(0), SettlePlay(env, s1, w.journal, lost, false), []);
          RunsAfter(w, Deliver(0), After(LoseReply(0), SettlePlay(env, s1, w.journal, lost, false)), []);
        } else {
          SettleRuns(Next(w, LoseReply(0)), env, s, lost, false);
          RunsAfter(w, LoseReply(0), SettlePlay(env, s, w.journal, lost, false), []);
        }
      case Replies(hookFails) =>
        var call := SourceReturned(action, now, decisionId, reply);
        SettleRuns(delivered, env, s1, call, hookFails);
        RunsAfter(w, Deliver(0), SettlePlay(env, s1, w.journal, call, hookFails), []);
      case _ => RunsOne(w, Played(s, w.journal, [Crash], Died), Crash);
    }
  }

  // The machine's steps for a decision taken by a lone call.
  lemma LoneDecision(w: World, action: SourceActionPlan, now: int, decision: PolicyDecision)
    requires w.calls == map[0 := AwaitingPolicy(action, now)]
    ensures var (begun, result) := WriteAhead(w.journal, action, decision.decisionId, now);
      && Next(w, Crash) == w.(calls := map[])
      && (decision.allowed ==>
            && Next(w, DieAfterPrepare(0, decision)) == w.(calls := map[], journal := PrepareNext(w.journal, action, decision.decisionId, now).0)
            && Next(w, DieAfterBegin(0, decision)) == w.(calls := map[], journal := begun))
      && Next(w, Authorized(0, decision)) ==
           if !decision.allowed then w.(calls := map[])
           else if result.Send? && action.sourceId in w.sources
           then w.(journal := begun, dispatched := w.dispatched + [action],
                   calls := map[0 := AwaitingSource(action, now, decision.decisionId)])
           else w.(journal := begun, calls := map[])
  {
    hide WriteAhead, PrepareNext;
    assert w.calls - {0} == map[];
    assert (set id | id in w.calls && w.calls[id].AwaitingSource? :: w.calls[id].action) == {};
    assert w.adrift + {} == w.adrift;
    assert w.calls[0 := AwaitingSource(action, now, decision.decisionId)]
        == map[0 := AwaitingSource(action, now, decision.decisionId)];
  }

  // When a decided call hands its request over.
  predicate Sends(l: Ledger, sources: map<string, LabState>, action: SourceActionPlan, now: int, decision: PolicyDecision, fate: Fate) {
    && decision.allowed && !fate.DiesAfterPrepare? && !fate.DiesAfterBegin?
    && WriteAhead(l, action, decision.decisionId, now).1.Send? && action.sourceId in sources
  }

  lemma DecideRuns(w: World, env: Environment, s: GatewayState, action: SourceActionPlan, now: int, decision: PolicyDecision, fate: Fate)
    requires w.calls == map[0 := AwaitingPolicy(action, now)] && w.sources == s.sources
    ensures Runs(w, DecidePlay(env, s, w.journal, action, now, decision, fate),
                 if Sends(w.journal, w.sources, action, now, decision, fate) then [action] else [])
  {
    hide Next, Run, Runs, WriteAhead, PrepareNext, SendPlay;
    LoneDecision(w, action, now, decision);
    var p := DecidePlay(env, s, w.journal, action, now, decision, fate);
    if Sends(w.journal, w.sources, action, now, decision, fate) {
      var t := Next(w, Authorized(0, decision));
      SendRuns(t, env, s, action, now, decision.decisionId, fate);
      RunsAfterSending(w, Authorized(0, decision), SendPlay(env, s, t.journal, action, now, decision.decisionId, fate), action);
    } else {
      RunsOne(w, p, p.steps[0]);
    }
  }

  // The decision an execute call obtains, if it gets as far as asking for one.
  predicate Asks(env: Environment, s: GatewayState, action: SourceActionPlan, preview: ActionPreview,
                 identity: RequestIdentity, approval: Option<ActionApproval>, fate: Fate) {
    var now := env.clock(s.tick);
    && PreviewBinds(action, preview, identity, now) && ApprovalHolds(env.verifier, action, approval, identity, now, false)
    && !fate.DiesAwaitingPolicy?
  }

  function DecisionFor(env: Environment, s: GatewayState, action: SourceActionPlan, identity: RequestIdentity, stage: string): PolicyDecision {
    env.policy(s.tick, action, identity, stage)
  }

  predicate HandsOver(env: Environment, s: GatewayState, l: Ledger, action: SourceActionPlan, preview: ActionPreview,
                      identity: RequestIdentity, approval: Option<ActionApproval>, fate: Fate) {
    && Asks(env, s, action, preview, identity, approval, fate)
    && Sends(l, s.sources, action, env.clock(s.tick), DecisionFor(env, Tick(s), action, identity, "execute"), fate)
  }

  lemma RunsNothing(w: World, p: Played)
    ensures p.steps == [] && Quiet(w, p.journal, p.state.sources) ==> Runs(w, p, [])
  {
    assert w.dispatched + [] == w.dispatched;
  }

  lemma LoneEntry(w: World, action: SourceActionPlan, now: int)
    requires w.calls == map[]
    ensures Next(w, Enter(0, action, now)) == w.(calls := map[0 := AwaitingPolicy(action, now)])
    ensures Next(w, EnterReconcile(0, action)) == w.(calls := map[0 := ReconcileAwaitingPolicy(action)])
  {
  }

  /** What execute does is what the machine does in these steps, and it hands the action over exactly when HandsOver says. */
  lemma ExecuteIsARun(w: World, env: Environment, s: GatewayState, action: SourceActionPlan, preview: ActionPreview,
                      identity: RequestIdentity, approval: Option<ActionApproval>, fate: Fate)
    requires w.calls == map[] && w.sources == s.sources
    ensures Runs(w, ExecutePlay(env, s, w.journal, action, preview, identity, approval, fate),
                 if HandsOver(env, s, w.journal, action, preview, identity, approval, fate) then [action] else [])
  {
    hide Sends, DecidePlay, ApprovalHolds, PreviewBinds, Next, Run, Runs;
    var now := env.clock(s.tick);
    var entered := w.(calls := map[0 := AwaitingPolicy(action, now)]);
    LoneEntry(w, action, now);
    RunsNothing(w, ExecutePlay(env, s, w.journal, action, preview, identity, approval, fate));
    if Asks(env, s, action, preview, identity, approval, fate) {
      var (s1, decision) := AuthorizeNext(env, Tick(s), action, identity, "execute");
      DecideRuns(entered, env, s1, action, now, decision, fate);
      var sent := if Sends(w.journal, w.sources, action, now, decision, fate) then [action] else [];
      RunsAfter(w, Enter(0, action, now), DecidePlay(env, s1, w.journal, action, now, decision, fate), sent);
    } else if PreviewBinds(action, preview, identity, now) && ApprovalHolds(env.verifier, action, approval, identity, now, false) {
      LoneDecision(entered, action, now, PolicyDecision(false, ""));
      RunsOne(entered, Played(Tick(s), w.journal, [Crash], Died), Crash);
      RunsAfter(w, Enter(0, action, now), Played(Tick(s), w.journal, [Crash], Died), []);
    }
  }

  lemma LoneReconcile(w: World, action: SourceActionPlan, decision: PolicyDecision)
    requires w.calls == map[0 := ReconcileAwaitingPolicy(action)]
    ensures Next(w, Crash) == w.(calls := map[])
    ensures Next(w, ReconcileAuthorized(0, decision)) ==
      if decision.allowed && Bound(w.journal, action) && action.sourceId in w.sources
         && Uncertain(w.journal.records[KeyOf(action)].state)
      then w.(calls := map[0 := ReconcileAsking(action, decision.decisionId, w.journal.records[KeyOf(action)].startedAt)])
      else w.(calls := map[])
  {
  }

  lemma LoneAsking(w: World, call: Call)
    requires w.calls == map[0 := call] && call.ReconcileAsking? && call.action.sourceId in w.sources
    ensures Next(w, Crash) == Next(w, Cancel(0)) == w.(calls := map[])
    ensures var reply := ReconcileNext(w.sources[call.action.sourceId], call.action.actionId, call.action.idempotencyKey);
      Next(w, Answer(0)) == w.(calls := map[0 := ReconcileReturned(call.action, call.decisionId, call.startedAt, reply)])
  {
  }

  lemma LoneReconciled(w: World, call: Call, done: Completion)
    requires w.calls == map[0 := call] && call.ReconcileReturned?
    ensures Next(w, ResumeReconcile(0, done)) == w.(calls := map[],
      journal := FinishNext(w.journal, call.action, ReconcileEnding(call, done), done.completedAt).0)
  {
  }

  lemma AskRuns(w: World, env: Environment, s: GatewayState, call: Call, fate: ReconcileFate)
    requires w.calls == map[0 := call] && call.ReconcileAsking? && call.action.sourceId in s.sources && w.sources == s.sources
    ensures Runs(w, AskPlay(env, s, w.journal, call, fate), [])
  {
    hide Next, FinishNext, ReconcileEnding, Runs;
    LoneAsking(w, call);
    if fate.Answers? {
      var reply := ReconcileNext(s.sources[call.action.sourceId], call.action.actionId, call.action.idempotencyKey);
      var answered := ReconcileReturned(call.action, call.decisionId, call.startedAt, reply);
      var done := RecoveryNext(env, s, answered).1;
      LoneReconciled(Next(w, Answer(0)), answered, done);
      RunsOne(Next(w, Answer(0)), AnswerPlay(env, s, w.journal, answered), ResumeReconcile(0, done));
      RunsAfter(w, Answer(0), AnswerPlay(env, s, w.journal, answered), []);
    } else {
      var p := AskPlay(env, s, w.journal, call, fate);
      RunsOne(w, p, p.steps[0]);
    }
  }

  lemma AllowedReconcileRuns(w: World, env: Environment, s: GatewayState, action: SourceActionPlan, decision: PolicyDecision, fate: ReconcileFate)
    requires w.calls == map[0 := ReconcileAwaitingPolicy(action)] && w.sources == s.sources && decision.allowed
    ensures Runs(w, AllowedReconcilePlay(env, s, w.journal, action, decision, fate), [])
  {
    hide Next, Runs, AskPlay;
    LoneReconcile(w, action, decision);
    var asked := ReconcileAuthorized(0, decision);
    var p := AllowedReconcilePlay(env, s, w.journal, action, decision, fate);
    if Bound(w.journal, action) && action.sourceId in w.sources && Uncertain(w.journal.records[KeyOf(action)].state) {
      var call := ReconcileAsking(action, decision.decisionId, w.journal.records[KeyOf(action)].startedAt);
      AskRuns(Next(w, asked), env, s, call, fate);
      RunsAfter(w, asked, AskPlay(env, s, w.journal, call, fate), []);
    } else {
      RunsOne(w, p, asked);
    }
  }

  /** What reconcile does is what the machine does in these steps, none of which hands anything over. */
  lemma ReconcileIsARun(w: World, env: Environment, s: GatewayState, action: SourceActionPlan, identity: RequestIdentity, fate: ReconcileFate)
    requires w.calls == map[] && w.sources == s.sources
    ensures Runs(w, ReconcilePlay(env, s, w.journal, action, identity, fate), [])
  {
    hide AllowedReconcilePlay, Next, Run, Runs;
    var entered := w.(calls := map[0 := ReconcileAwaitingPolicy(action)]);
    var (s1, decision) := AuthorizeNext(env, s, action, identity, "reconcile");
    LoneEntry(w, action, 0);
    LoneReconcile(entered, action, decision);
    var p := if fate.DiesBeforeAsking? then Played(s1, w.journal, [Crash], Died)
             else if !decision.allowed then Played(s1, w.journal, [ReconcileAuthorized(0, decision)], Raised(PolicyDenied(decision)))
             else AllowedReconcilePlay(env, s1, w.journal, action, decision, fate);
    if !fate.DiesBeforeAsking? && decision.allowed {
      AllowedReconcileRuns(entered, env, s1, action, decision, fate);
    } else {
      RunsOne(entered, p, p.steps[0]);
    }
    RunsAfter(w, EnterReconcile(0, action), p, []);
  }
}
