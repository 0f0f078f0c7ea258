/**
 One call of the durable gateway as a function of what it finds: of the gateway and its sources, of the
 journal, and of where the process dies or a reply gets lost.
 */
module DurablePlays {
  import opened Wrappers
  import opened Scalars
  import opened HashChain
  import opened AuditLedger
  import opened Actions
  import opened LabSource
  import opened Gateway
  import opened Journal
  import opened RecoveryMachine

  // What happens to one execute call once its preview and approval have been accepted.
  datatype Fate =
    | DiesAwaitingPolicy | DiesAfterPrepare | DiesAfterBegin | DiesBeforeDelivery | DiesAfterDelivery
    | ReplyLost(delivered: bool)
    | Replies(hookFails: bool)

  datatype ReconcileFate = DiesBeforeAsking | DiesAsking | SourceUnreachable | Answers

  datatype CallOutcome = Returned(receipt: SourceMutationReceipt) | Raised(error: ActionError) | Died

  // What a call leaves behind: gateway and sources, journal, the machine's steps, and what its caller sees.
  datatype Played = Played(state: GatewayState, journal: Ledger, steps: seq<Step>, outcome: CallOutcome)

  function After(step: Step, p: Played): Played {
    p.(steps := [step] + p.steps)
  }

  // --- execute() ---

  function EndingText(ending: Ending): string {
    match ending
    case Unresolved(_) => "reconciliation-required"
    case Settled(state, _) => if state.Executed? then "executed" else "failed"
  }

  function OutcomeOf(ending: Ending): CallOutcome {
    match ending
    case Unresolved(_) => Raised(ActionOutcomeUnknown)
    case Settled(state, receipt) => if state.Executed? then Returned(receipt) else Raised(ActionExecutionFailed(receipt))
  }

  // The clock is read; a reply that came through is audited.
  function CompletionNext(env: Environment, s: GatewayState, call: Call, hookFails: bool): (GatewayState, Completion)
    requires call.SourceReturned?
  {
    var completed := env.clock(s.tick);
    if call.outcome.Err? || hookFails then (Tick(s), Completion(completed, "", Genesis))
    else
      var state := if Succeeded(call.outcome.value) then ActionState.Executed else ActionState.Failed;
      var logged := LogNext(Tick(s), StateText(state), call.action.actionId, completed,
        map["source_version" := Text(call.outcome.value.sourceVersion)]);
      (logged, Completion(completed, "receipt:" + call.action.actionId + ":" + IntText(|logged.audit|), Head(logged.audit)))
  }

  // What follows the connector's answer, or the lack of one.
  function SettlePlay(env: Environment, s: GatewayState, l: Ledger, call: Call, hookFails: bool): Played
    requires call.SourceReturned?
  {
    var (s1, done) := CompletionNext(env, s, call, hookFails);
    var ending := EndingOf(call, hookFails, done);
    Played(EmitNext(env, s1, "data.harness.action." + EndingText(ending), call.action.actionId),
           FinishNext(l, call.action, ending, done.completedAt).0, [Resume(0, hookFails, done)], OutcomeOf(ending))
  }

  // What follows begin.
  function SendPlay(env: Environment, s: GatewayState, l: Ledger, action: SourceActionPlan, now: int, decisionId: string, fate: Fate): Played
    requires action.sourceId in s.sources
  {
    var (source, reply) := MutateNext(s.sources[action.sourceId], RequestOf(action));
    var delivered := s.(sources := s.sources[action.sourceId := source]);
    var lost := SourceReturned(action, now, decisionId, Err(ConnectionLost));
    match fate
    case DiesAfterDelivery => After(Deliver(0), Played(delivered, l, [Crash], Died))
    case ReplyLost(arrived) =>
      if arrived then After(Deliver(0), After(LoseReply(0), SettlePlay(env, delivered, l, lost, false)))
      else After(LoseReply(0), SettlePlay(env, s, l, lost, false))
    case Replies(hookFails) =>
      After(Deliver(0), SettlePlay(env, delivered, l, SourceReturned(action, now, decisionId, reply), hookFails))
    case _ => Played(s, l, [Crash], Died)
  }

  // What follows the policy's decision.
  function DecidePlay(env: Environment, s: GatewayState, l: Ledger, action: SourceActionPlan, now: int, decision: PolicyDecision, fate: Fate): Played
  {
    var (begun, result) := WriteAhead(l, action, decision.decisionId, now);
    var decided := [Authorized(0, decision)];
    if !decision.allowed then Played(s, l, decided, Raised(PolicyDenied(decision)))
    else if fate.DiesAfterPrepare? then
      Played(s, PrepareNext(l, action, decision.decisionId, now).0, [DieAfterPrepare(0, decision)], Died)
    else if fate.DiesAfterBegin? then Played(s, begun, [DieAfterBegin(0, decision)], Died)
    else
      match result
      case Refused(error) => Played(s, begun, decided, Raised(error))
      case Replay(receipt) =>
        var (s1, replayed) := ReplayNext(env, s, action, now, receipt);
        Played(s1, begun, decided, Returned(replayed))
      case Send =>
        if action.sourceId !in s.sources then Played(s, begun, decided, Raised(MissingKey))
        else After(Authorized(0, decision), SendPlay(env, s, begun, action, now, decision.decisionId, fate))
  }

  function ExecutePlay(env: Environment, s: GatewayState, l: Ledger, action: SourceActionPlan, preview: ActionPreview,
                       identity: RequestIdentity, approval: Option<ActionApproval>, fate: Fate): Played
  {
    var now := env.clock(s.tick);
    if !PreviewBinds(action, preview, identity, now) then Played(Tick(s), l, [], Raised(PreviewMismatch))
    else if !ApprovalHolds(env.verifier, action, approval, identity, now, false) then
      Played(Tick(s), l, [], Raised(ApprovalRequired))
    else if fate.DiesAwaitingPolicy? then After(Enter(0, action, now), Played(Tick(s), l, [Crash], Died))
    else
      var (s1, decision) := AuthorizeNext(env, Tick(s), action, identity, "execute");
      After(Enter(0, action, now), DecidePlay(env, s1, l, action, now, decision, fate))
  }

  // --- reconcile() ---

  function RecoveryNext(env: Environment, s: GatewayState, call: Call): (GatewayState, Completion)
    requires call.ReconcileReturned?
  {
    var completed := env.clock(s.tick);
    if !Proven(call.reply) then (Tick(s), Completion(completed, "", Genesis))
    else
      var logged := LogNext(Tick(s), "recovered", call.action.actionId, completed,
        map["source_version" := Text(call.reply.sourceVersion)]);
      (logged, Completion(completed, "", Head(logged.audit)))
  }

  // What follows the source's answer.
  function AnswerPlay(env: Environment, s: GatewayState, l: Ledger, call: Call): Played
    requires call.ReconcileReturned?
  {
    var (s1, done) := RecoveryNext(env, s, call);
    var ending := ReconcileEnding(call, done);
    Played(if ending.Settled? then EmitNext(env, s1, "data.harness.action.recovered", call.action.actionId) else s1,
           FinishNext(l, call.action, ending, done.completedAt).0, [ResumeReconcile(0, done)], OutcomeOf(ending))
  }

  // What follows the question put to the source.
  function AskPlay(env: Environment, s: GatewayState, l: Ledger, call: Call, fate: ReconcileFate): Played
    requires call.ReconcileAsking? && call.action.sourceId in s.sources
  {
    match fate
    case SourceUnreachable => Played(s, l, [Cancel(0)], Raised(ConnectorError))
    case Answers =>
      var reply := ReconcileNext(s.sources[call.action.sourceId], call.action.actionId, call.action.idempotencyKey);
      After(Answer(0), AnswerPlay(env, s, l, ReconcileReturned(call.action, call.decisionId, call.startedAt, reply)))
    case _ => Played(s, l, [Crash], Died)
  }

  function AllowedReconcilePlay(env: Environment, s: GatewayState, l: Ledger, action: SourceActionPlan, decision: PolicyDecision, fate: ReconcileFate): Played
  {
    var asked := [ReconcileAuthorized(0, decision)];
    if !Bound(l, action) then Played(s, l, asked, Raised(IdempotencyConflict))
    else
      var record := l.records[KeyOf(action)];
      if record.state.Executed? && record.receipt.Some? then Played(s, l, asked, Returned(record.receipt.value))
      else if !Uncertain(record.state) then Played(s, l, asked, Raised(ActionOutcomeUnknown))
      else if action.sourceId !in s.sources then Played(s, l, asked, Raised(MissingKey))
      else After(ReconcileAuthorized(0, decision),
                 AskPlay(env, s, l, ReconcileAsking(action, decision.decisionId, record.startedAt), fate))
  }

  function ReconcilePlay(env: Environment, s: GatewayState, l: Ledger, action: SourceActionPlan, identity: RequestIdentity, fate: ReconcileFate): Played
  {
    var (s1, decision) := AuthorizeNext(env, s, action, identity, "reconcile");
    After(EnterReconcile(0, action),
      if fate.DiesBeforeAsking? then Played(s1, l, [Crash], Died)
      else if !decision.allowed then Played(s1, l, [ReconcileAuthorized(0, decision)], Raised(PolicyDenied(decision)))
      else AllowedReconcilePlay(env, s1, l, action, decision, fate))
  }
}
