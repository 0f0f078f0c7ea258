/** What a call of the durable gateway comes to, exactly: for its caller, in the journal and at the source. */
module DurableOutcomes {
  import opened Wrappers
  import opened Scalars
  import opened HashChain
  import opened AuditLedger
  import opened Actions
  import opened LabSource
  import opened Gateway
  import opened Journal
  import opened RecoveryMachine
  import opened JournalIntegrity
  import opened RecoverySafety
  import opened DurablePlays
  import opened DurableRuns

  // The key is bound to another action; the action may be replayed; it may be begun.
  predicate Taken(l: Ledger, action: SourceActionPlan) {
    KeyOf(action) in l.records && !Bound(l, action)
  }

  predicate Replayable(l: Ledger, action: SourceActionPlan) {
    Bound(l, action) && l.records[KeyOf(action)].state.Executed? && l.records[KeyOf(action)].receipt.Some?
  }

  predicate Startable(l: Ledger, action: SourceActionPlan) {
    KeyOf(action) in l.records ==>
      && Bound(l, action)
      && var record := l.records[KeyOf(action)]; record.state == Prepared || (record.state.Executed? && record.receipt.None?)
  }

  lemma WriteAheadDecides(l: Ledger, action: SourceActionPlan, decisionId: string, now: int)
    ensures var (begun, result) := WriteAhead(l, action, decisionId, now);
      && (result.Send? <==> Startable(l, action)) && (result.Replay? <==> Replayable(l, action))
      && (result.Refused? ==> result.error == if Taken(l, action) then IdempotencyConflict else ActionOutcomeUnknown)
      && (result.Replay? ==> Replayable(l, action) && result.receipt == l.records[KeyOf(action)].receipt.value)
      && (result.Send? ==> Bound(begun, action)) && (!result.Send? ==> begun == l)
  {
  }

  // The call acts on an approving decision.
  predicate Acts(env: Environment, s: GatewayState, action: SourceActionPlan, preview: ActionPreview,
                 identity: RequestIdentity, approval: Option<ActionApproval>, fate: Fate) {
    && Asks(env, s, action, preview, identity, approval, fate)
    && DecisionFor(env, Tick(s), action, identity, "execute").allowed && !fate.DiesAfterPrepare? && !fate.DiesAfterBegin?
  }

  predicate Ends(fate: Fate) { fate.ReplyLost? || fate.Replies? }

  predicate Delivers(fate: Fate) { fate.DiesAfterDelivery? || fate.Replies? || fate == ReplyLost(true) }

  // What the call hears of its request: nothing it can rely on, or the source's reply.
  function Heard(sources: map<string, LabState>, action: SourceActionPlan, fate: Fate): Option<MutationReply>
    requires action.sourceId in sources
  {
    var reply := MutateNext(sources[action.sourceId], RequestOf(action)).1;
    if fate == Replies(false) && reply.Ok? then Some(reply.value) else None
  }

  // How a request that was handed over ends.
  function EndOf(sources: map<string, LabState>, action: SourceActionPlan, fate: Fate): DurableState
    requires action.sourceId in sources
  {
    match Heard(sources, action, fate)
    case None => ReconciliationRequired
    case Some(reply) => if Succeeded(reply) then DurableState.Executed else DurableState.Failed
  }

  ghost predicate RecordedAs(l: Ledger, action: SourceActionPlan, state: DurableState, receipt: Option<SourceMutationReceipt>) {
    Bound(l, action) && l.records[KeyOf(action)].state == state && l.records[KeyOf(action)].receipt == receipt
  }

  lemma SettleOutcome(env: Environment, s: GatewayState, l: Ledger, call: Call, hookFails: bool)
    requires call.SourceReturned? && Bound(l, call.action)
    ensures var p := SettlePlay(env, s, l, call, hookFails);
      && p.state.sources == s.sources
      && if call.outcome.Err? || hookFails
         then p.outcome == Raised(ActionOutcomeUnknown) && RecordedAs(p.journal, call.action, ReconciliationRequired, None)
         else if Succeeded(call.outcome.value)
         then p.outcome.Returned? && p.outcome.receipt.state == ActionState.Executed
              && RecordedAs(p.journal, call.action, DurableState.Executed, Some(p.outcome.receipt))
         else p.outcome.Raised? && p.outcome.error.ActionExecutionFailed?
              && RecordedAs(p.journal, call.action, DurableState.Failed, Some(p.outcome.error.receipt))
  {
  }

  // What a request that was handed over comes to, at the source, in the journal and for the caller.
  ghost predicate SentOutcome(p: Played, sources: map<string, LabState>, begun: Ledger, action: SourceActionPlan, fate: Fate)
    requires action.sourceId in sources
  {
    && p.state.sources == (if Delivers(fate)
         then sources[action.sourceId := MutateNext(sources[action.sourceId], RequestOf(action)).0] else sources)
    && if !Ends(fate) then p.outcome == Died && p.journal == begun
       else match EndOf(sources, action, fate)
         case ReconciliationRequired =>
           p.outcome == Raised(ActionOutcomeUnknown) && RecordedAs(p.journal, action, ReconciliationRequired, None)
         case Failed =>
           p.outcome.Raised? && p.outcome.error.ActionExecutionFailed?
           && RecordedAs(p.journal, action, DurableState.Failed, Some(p.outcome.error.receipt))
         case _ =>
           p.outcome.Returned? && p.outcome.receipt.state == ActionState.Executed
           && RecordedAs(p.journal, action, DurableState.Executed, Some(p.outcome.receipt))
  }

  lemma SendOutcome(env: Environment, s: GatewayState, l: Ledger, action: SourceActionPlan, now: int, decisionId: string, fate: Fate)
    requires action.sourceId in s.sources && Bound(l, action)
    ensures SentOutcome(SendPlay(env, s, l, action, now, decisionId, fate), s.sources, l, action, fate)
  {
    hide MutateNext, SettlePlay;
    var (source, reply) := MutateNext(s.sources[action.sourceId], RequestOf(action));
    var delivered := s.(sources := s.sources[action.sourceId := source]);
    var lost := SourceReturned(action, now, decisionId, Err(ConnectionLost));
    match fate {
      case ReplyLost(arrived) => SettleOutcome(env, if arrived then delivered else s, l, lost, false);
      case Replies(hookFails) => SettleOutcome(env, delivered, l, SourceReturned(action, now, decisionId, reply), hookFails);
      case _ =>
    }
  }

  // What any other call comes to.
  ghost predicate UnsentOutcome(p: Played, s: GatewayState, l: Ledger, action: SourceActionPlan, decision: PolicyDecision, fate: Fate) {
    p.state.sources == s.sources &&
    if !decision.allowed then p.outcome == Raised(PolicyDenied(decision)) && p.journal == l
    else if fate.DiesAfterPrepare? || fate.DiesAfterBegin? then p.outcome == Died
    else if Replayable(l, action) then
      && p.outcome.Returned? && p.journal == l
      && p.outcome.receipt == l.records[KeyOf(action)].receipt.value.(
           state := AlreadyExecuted, completedAt := p.outcome.receipt.completedAt, auditDigest := p.outcome.receipt.auditDigest)
    else if Startable(l, action) then p.outcome == Raised(MissingKey)
    else p.outcome == Raised(if Taken(l, action) then IdempotencyConflict else ActionOutcomeUnknown) && p.journal == l
  }

  lemma AfterKeeps(step: Step, p: Played, sources: map<string, LabState>, begun: Ledger, action: SourceActionPlan, fate: Fate)
    requires action.sourceId in sources && SentOutcome(p, sources, begun, action, fate)
    ensures SentOutcome(After(step, p), sources, begun, action, fate)
  {
    hide MutateNext, EndOf, RecordedAs;
  }

  lemma DecideOutcome(env: Environment, s: GatewayState, l: Ledger, action: SourceActionPlan, now: int, decision: PolicyDecision, fate: Fate)
    ensures var p := DecidePlay(env, s, l, action, now, decision, fate);
      if Sends(l, s.sources, action, now, decision, fate)
      then SentOutcome(p, s.sources, WriteAhead(l, action, decision.decisionId, now).0, action, fate)
      else UnsentOutcome(p, s, l, action, decision, fate)
  {
    hide WriteAhead, PrepareNext, SendPlay, Replayable, Startable, Taken, SentOutcome;
    WriteAheadDecides(l, action, decision.decisionId, now);
    if Sends(l, s.sources, action, now, decision, fate) {
      var begun := WriteAhead(l, action, decision.decisionId, now).0;
      SendOutcome(env, s, begun, action, now, decision.decisionId, fate);
      AfterKeeps(Authorized(0, decision), SendPlay(env, s, begun, action, now, decision.decisionId, fate), s.sources, begun, action, fate);
    }
  }

  // Where a call stops before it asks for a decision.
  predicate Turned(p: Played, s: GatewayState, l: Ledger, outcome: CallOutcome) {
    p.outcome == outcome && p.journal == l && p.state.sources == s.sources
  }

  // What a call comes to, in every case.
  ghost predicate Outcome(p: Played, env: Environment, s: GatewayState, l: Ledger, action: SourceActionPlan, preview: ActionPreview,
                          identity: RequestIdentity, approval: Option<ActionApproval>, fate: Fate) {
    var now, decision := env.clock(s.tick), DecisionFor(env, Tick(s), action, identity, "execute");
    if !PreviewBinds(action, preview, identity, now) then Turned(p, s, l, Raised(PreviewMismatch))
    else if !ApprovalHolds(env.verifier, action, approval, identity, now, false) then Turned(p, s, l, Raised(ApprovalRequired))
    else if fate.DiesAwaitingPolicy? then Turned(p, s, l, Died)
    else if HandsOver(env, s, l, action, preview, identity, approval, fate)
    then SentOutcome(p, s.sources, WriteAhead(l, action, decision.decisionId, now).0, action, fate)
    else UnsentOutcome(p, s, l, action, decision, fate)
  }

  lemma ExecuteComesTo(env: Environment, s: GatewayState, l: Ledger, action: SourceActionPlan, preview: ActionPreview,
                       identity: RequestIdentity, approval: Option<ActionApproval>, fate: Fate)
    ensures Outcome(ExecutePlay(env, s, l, action, preview, identity, approval, fate), env, s, l, action, preview, identity, approval, fate)
  {
    hide DecidePlay, Sends, SentOutcome, UnsentOutcome, ApprovalHolds, PreviewBinds, WriteAhead;
    if Asks(env, s, action, preview, identity, approval, fate) {
      var now, decision := env.clock(s.tick), DecisionFor(env, Tick(s), action, identity, "execute");
      var s1 := AuthorizeNext(env, Tick(s), action, identity, "execute").0;
      var p := DecidePlay(env, s1, l, action, now, decision, fate);
      DecideOutcome(env, s1, l, action, now, decision, fate);
      if Sends(l, s1.sources, action, now, decision, fate) {
        SendsRegistered(l, s1.sources, action, now, decision, fate);
        AfterKeeps(Enter(0, action, now), p, s1.sources, WriteAhead(l, action, decision.decisionId, now).0, action, fate);
      } else {
        AfterKeepsUnsent(Enter(0, action, now), p, s, s1, l, action, decision, fate);
      }
    }
  }

  lemma SendsRegistered(l: Ledger, sources: map<string, LabState>, action: SourceActionPlan, now: int, decision: PolicyDecision, fate: Fate)
    requires Sends(l, sources, action, now, decision, fate)
    ensures action.sourceId in sources
  {
  }

  lemma AfterKeepsUnsent(step: Step, p: Played, s: GatewayState, s1: GatewayState, l: Ledger, action: SourceActionPlan, decision: PolicyDecision, fate: Fate)
    requires UnsentOutcome(p, s1, l, action, decision, fate) && s.sources == s1.sources
    ensures UnsentOutcome(After(step, p), s, l, action, decision, fate)
  {
  }

  predicate IsRaised(p: Played, error: ActionError) { p.outcome == Raised(error) }

  // What execute raises and returns, each in exactly these cases.
  ghost predicate Exactly(p: Played, env: Environment, s: GatewayState, l: Ledger, action: SourceActionPlan, preview: ActionPreview,
                          identity: RequestIdentity, approval: Option<ActionApproval>, fate: Fate) {
    var now, decision := env.clock(s.tick), DecisionFor(env, Tick(s), action, identity, "execute");
    var binds := PreviewBinds(action, preview, identity, now);
    var holds := ApprovalHolds(env.verifier, action, approval, identity, now, false);
    var acts := Acts(env, s, action, preview, identity, approval, fate);
    var registered := action.sourceId in s.sources;
    var starts := acts && Startable(l, action) && registered;
    && (HandsOver(env, s, l, action, preview, identity, approval, fate) <==> starts)
    && (IsRaised(p, PreviewMismatch) <==> !binds)
    && (IsRaised(p, ApprovalRequired) <==> binds && !holds)
    && (p.outcome.Raised? && p.outcome.error.PolicyDenied? <==> Asks(env, s, action, preview, identity, approval, fate) && !decision.allowed)
    && (IsRaised(p, IdempotencyConflict) <==> acts && Taken(l, action))
    && (IsRaised(p, MissingKey) <==> acts && Startable(l, action) && !registered)
    && (IsRaised(p, ActionOutcomeUnknown) <==>
          || (acts && !Taken(l, action) && !Startable(l, action) && !Replayable(l, action))
          || (starts && Ends(fate) && EndOf(s.sources, action, fate) == ReconciliationRequired))
    && (p.outcome.Raised? && p.outcome.error.ActionExecutionFailed? <==>
          starts && Ends(fate) && EndOf(s.sources, action, fate) == DurableState.Failed)
    && (p.outcome.Returned? <==>
          (acts && Replayable(l, action)) || (starts && Ends(fate) && EndOf(s.sources, action, fate) == DurableState.Executed))
  }

  lemma StandingsApart(l: Ledger, action: SourceActionPlan)
    ensures !(Taken(l, action) && Startable(l, action)) && !(Taken(l, action) && Replayable(l, action))
    ensures !(Startable(l, action) && Replayable(l, action))
  {
  }

  /** execute() raises each error, returns and hands its action over in exactly the cases named. */
  lemma ExecuteIsExact(env: Environment, s: GatewayState, l: Ledger, action: SourceActionPlan, preview: ActionPreview,
                       identity: RequestIdentity, approval: Option<ActionApproval>, fate: Fate)
    ensures Exactly(ExecutePlay(env, s, l, action, preview, identity, approval, fate), env, s, l, action, preview, identity, approval, fate)
  {
    hide ExecutePlay, WriteAhead, MutateNext, RecordedAs, PreviewBinds, ApprovalHolds, Heard, Taken, Startable, Replayable, ReplayNext, BeginNext, PrepareNext, RequestOf;
    StandingsApart(l, action);
    ExecuteComesTo(env, s, l, action, preview, identity, approval, fate);
    WriteAheadDecides(l, action, DecisionFor(env, Tick(s), action, identity, "execute").decisionId, env.clock(s.tick));
  }

  /** In a run, what is handed over had no record or a prepared one. */
  lemma OnlyPreparedIsSent(initial: World, history: seq<Step>, action: SourceActionPlan)
    requires Initial(initial) && Startable(Run(initial, history).journal, action)
    ensures var l := Run(initial, history).journal;
      KeyOf(action) in l.records ==> l.records[KeyOf(action)].state == Prepared
  {
    InitialInv(initial);
    RunInv(initial, history);
    var l := Run(initial, history).journal;
    if KeyOf(action) in l.records { assert RecordSound(l.events, KeyOf(action), l.records[KeyOf(action)]); }
  }

  // The source's own record of the key shows that this action took effect.
  predicate ProvenAt(sources: map<string, LabState>, action: SourceActionPlan)
    requires action.sourceId in sources
  {
    Proven(ReconcileNext(sources[action.sourceId], action.actionId, action.idempotencyKey))
  }

  // What reconcile comes to once its policy has allowed it.
  ghost predicate ReconcileOutcome(p: Played, s: GatewayState, l: Ledger, action: SourceActionPlan, fate: ReconcileFate) {
    var open := Bound(l, action) && Uncertain(l.records[KeyOf(action)].state) && action.sourceId in s.sources;
    && p.state.sources == s.sources
    && (if open && fate.Answers?
        then if ProvenAt(s.sources, action)
             then p.outcome.Returned? && p.outcome.receipt.state == Recovered
                  && RecordedAs(p.journal, action, DurableState.Executed, Some(p.outcome.receipt))
             else IsRaised(p, ActionOutcomeUnknown) && RecordedAs(p.journal, action, ReconciliationRequired, None)
        else p.journal == l)
    && (IsRaised(p, IdempotencyConflict) <==> !Bound(l, action))
    && (IsRaised(p, MissingKey) <==>
          Bound(l, action) && Uncertain(l.records[KeyOf(action)].state) && action.sourceId !in s.sources)
    && (IsRaised(p, ConnectorError) <==> open && fate.SourceUnreachable?)
    && (IsRaised(p, ActionOutcomeUnknown) <==>
          || (Bound(l, action) && !Uncertain(l.records[KeyOf(action)].state) && !Replayable(l, action))
          || (open && fate.Answers? && !ProvenAt(s.sources, action)))
    && (p.outcome.Returned? <==> Replayable(l, action) || (open && fate.Answers? && ProvenAt(s.sources, action)))
    && (Replayable(l, action) ==> p.outcome == Returned(l.records[KeyOf(action)].receipt.value))
    && (p.outcome.Died? <==> open && !fate.SourceUnreachable? && !fate.Answers?)
  }

  lemma AllowedReconcileIsExact(env: Environment, s: GatewayState, l: Ledger, action: SourceActionPlan, decision: PolicyDecision, fate: ReconcileFate)
    ensures ReconcileOutcome(AllowedReconcilePlay(env, s, l, action, decision, fate), s, l, action, fate)
  {
  }

  /** reconcile() refuses, returns and completes a record in exactly the cases named; it never touches a source. */
  lemma ReconcileIsExact(env: Environment, s: GatewayState, l: Ledger, action: SourceActionPlan, identity: RequestIdentity, fate: ReconcileFate)
    ensures var p, decision := ReconcilePlay(env, s, l, action, identity, fate), DecisionFor(env, s, action, identity, "reconcile");
      if fate.DiesBeforeAsking? then Turned(p, s, l, Died)
      else if !decision.allowed then Turned(p, s, l, Raised(PolicyDenied(decision)))
      else ReconcileOutcome(p, s, l, action, fate)
  {
    hide AllowedReconcilePlay;
    var (s1, decision) := AuthorizeNext(env, s, action, identity, "reconcile");
    if !fate.DiesBeforeAsking? && decision.allowed {
      AllowedReconcileIsExact(env, s1, l, action, decision, fate);
      AfterKeepsReconcile(EnterReconcile(0, action), AllowedReconcilePlay(env, s1, l, action, decision, fate), s, s1, l, action, fate);
    }
  }

  lemma AfterKeepsReconcile(step: Step, p: Played, s: GatewayState, s1: GatewayState, l: Ledger, action: SourceActionPlan, fate: ReconcileFate)
    requires ReconcileOutcome(p, s1, l, action, fate) && s.sources == s1.sources
    ensures ReconcileOutcome(After(step, p), s, l, action, fate)
  {
  }
}
