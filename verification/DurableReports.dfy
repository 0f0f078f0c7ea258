/** What the durable gateway's receipts say: of a request that was answered, and of one found to have taken effect. */
module DurableReports {
  import opened Wrappers
  import opened Scalars
  import opened HashChain
  import opened AuditLedger
  import opened Actions
  import opened LabSource
  import opened Gateway
  import opened GatewayReports
  import opened Journal
  import opened RecoveryMachine
  import opened DurablePlays
  import opened DurableRuns
  import opened DurableOutcomes

  // The call was answered, well or badly.
  predicate Answered(outcome: CallOutcome) { outcome.Returned? || (outcome.Raised? && outcome.error.ActionExecutionFailed?) }

  function ReceiptOf(outcome: CallOutcome): SourceMutationReceipt
    requires Answered(outcome)
  {
    if outcome.Returned? then outcome.receipt else outcome.error.receipt
  }

  // The event telemetry is told of.
  function Announced(outcome: CallOutcome): string {
    "data.harness.action."
    + if !Answered(outcome) then "reconciliation-required" else if outcome.Returned? then "executed" else "failed"
  }

  lemma CompletionEnters(env: Environment, s: GatewayState, call: Call, hookFails: bool)
    requires call.SourceReturned?
    ensures var (t, done) := CompletionNext(env, s, call, hookFails);
      && t.sources == s.sources && (call.outcome.Err? || hookFails ==> t == Tick(s))
      && (call.outcome.Ok? && !hookFails ==>
            && done.receiptId == "receipt:" + call.action.actionId + ":" + IntText(|s.audit| + 1)
            && Noted(t.audit, |s.audit|, AuditBody(if Succeeded(call.outcome.value) then "executed" else "failed", call.action.actionId,
                 done.completedAt, Remarks(call.outcome.value.sourceVersion, true)))
            && t.audit[|s.audit|].digest == done.auditDigest)
  {
    hide LogNext, IntText;
    if call.outcome.Ok? && !hookFails {
      LogEnters(Tick(s), if Succeeded(call.outcome.value) then "executed" else "failed", call.action.actionId, env.clock(s.tick),
        map["source_version" := Text(call.outcome.value.sourceVersion)]);
    }
  }

  lemma LogEnters(s: GatewayState, event: string, actionId: string, at: int, attributes: map<string, Scalar>)
    ensures var t := LogNext(s, event, actionId, at, attributes);
      && t.sources == s.sources && |t.audit| == |s.audit| + 1 && Noted(t.audit, |s.audit|, AuditBody(event, actionId, at, attributes))
      && t.audit[|s.audit|].digest == Head(t.audit)
  {
  }

  lemma EmitKeeps(env: Environment, s: GatewayState, event: string, actionId: string)
    ensures EmitNext(env, s, event, actionId).sources == s.sources && s.audit <= EmitNext(env, s, event, actionId).audit
  {
  }

  lemma SettleTells(env: Environment, s: GatewayState, l: Ledger, call: Call, hookFails: bool)
    requires call.SourceReturned?
    ensures var p := SettlePlay(env, s, l, call, hookFails);
      && p.state.sources == s.sources && (Answered(p.outcome) <==> call.outcome.Ok? && !hookFails)
      && (Answered(p.outcome) ==>
            && Tells(ReceiptOf(p.outcome), s.audit, p.state.audit, call.action, call.now, call.decisionId, p.outcome.Returned?, true)
            && ReceiptOf(p.outcome).sourceVersion == call.outcome.value.sourceVersion
            && (p.outcome.Returned? <==> call.outcome.value.success && call.outcome.value.postconditionsMet))
      && (!Answered(p.outcome) ==> p.state == EmitNext(env, Tick(s), Announced(p.outcome), call.action.actionId))
      && exists s1 :: p.state == EmitNext(env, s1, Announced(p.outcome), call.action.actionId)
  {
    hide FinishNext, CompletionNext, EmitNext;
    CompletionEnters(env, s, call, hookFails);
    var (s1, done) := CompletionNext(env, s, call, hookFails);
    EmitKeeps(env, s1, "data.harness.action." + EndingText(EndingOf(call, hookFails, done)), call.action.actionId);
    var p := SettlePlay(env, s, l, call, hookFails);
    assert p.state == EmitNext(env, s1, Announced(p.outcome), call.action.actionId);
    if call.outcome.Ok? && !hookFails {
      var receipt, n := ReceiptOf(p.outcome), |s.audit|;
      assert Numbered(receipt, n);
      assert Entered(p.state.audit, n, receipt, if p.outcome.Returned? then "executed" else "failed", call.action.actionId,
        receipt.completedAt, Remarks(receipt.sourceVersion, true));
    }
  }

  // The receipt of an answered request names the action, the decision, the time of the call and the version its source is now at.
  ghost predicate SentTells(p: Played, before: seq<AuditEntry>, action: SourceActionPlan, started: int, decisionId: string)
    requires Answered(p.outcome)
  {
    && Tells(ReceiptOf(p.outcome), before, p.state.audit, action, started, decisionId, p.outcome.Returned?, true)
    && action.sourceId in p.state.sources && ReceiptOf(p.outcome).sourceVersion == IntText(p.state.sources[action.sourceId].version)
  }

  lemma SendTells(env: Environment, s: GatewayState, l: Ledger, action: SourceActionPlan, now: int, decisionId: string, fate: Fate)
    requires action.sourceId in s.sources && action.idempotencyKey !in s.sources[action.sourceId].idempotency
    ensures var p := SendPlay(env, s, l, action, now, decisionId, fate);
      Answered(p.outcome) ==> SentTells(p, s.audit, action, now, decisionId)
  {
    hide MutateNext, SettlePlay, Tells;
    RepliesWithVersion(s.sources[action.sourceId], action);
    var (source, reply) := MutateNext(s.sources[action.sourceId], RequestOf(action));
    var delivered := s.(sources := s.sources[action.sourceId := source]);
    var lost := SourceReturned(action, now, decisionId, Err(ConnectionLost));
    match fate {
      case ReplyLost(arrived) => SettleTells(env, if arrived then delivered else s, l, lost, false);
      case Replies(hookFails) => SettleTells(env, delivered, l, SourceReturned(action, now, decisionId, reply), hookFails);
      case _ =>
    }
  }

  /**
   The receipt of a request handed over under a key new to its source names the action, the decision, the time of the
   call and the version the source is now at, and points to the audit entry made of the answer.
   */
  lemma ExecuteTells(env: Environment, s: GatewayState, l: Ledger, action: SourceActionPlan, preview: ActionPreview,
                     identity: RequestIdentity, approval: Option<ActionApproval>, fate: Fate)
    requires HandsOver(env, s, l, action, preview, identity, approval, fate)
    requires action.sourceId in s.sources && action.idempotencyKey !in s.sources[action.sourceId].idempotency
    ensures var p := ExecutePlay(env, s, l, action, preview, identity, approval, fate);
      Answered(p.outcome) ==>
        SentTells(p, s.audit, action, env.clock(s.tick), env.policy(s.tick + 1, action, identity, "execute").decisionId)
  {
    hide SendPlay, WriteAhead, SentTells, PreviewBinds, ApprovalHolds;
    var (s1, decision) := AuthorizeNext(env, Tick(s), action, identity, "execute");
    var (begun, result) := WriteAhead(l, action, decision.decisionId, env.clock(s.tick));
    SendTells(env, s1, begun, action, env.clock(s.tick), decision.decisionId, fate);
    var sent := SendPlay(env, s1, begun, action, env.clock(s.tick), decision.decisionId, fate);
    var p := ExecutePlay(env, s, l, action, preview, identity, approval, fate);
    assert p.outcome == sent.outcome && p.state == sent.state;
    if Answered(p.outcome) { SentLater(sent, p, s.audit, s1.audit, action, env.clock(s.tick), decision.decisionId); }
  }

  lemma SentLater(sent: Played, p: Played, before: seq<AuditEntry>, now: seq<AuditEntry>, action: SourceActionPlan, started: int, decisionId: string)
    requires Answered(sent.outcome) && SentTells(sent, now, action, started, decisionId) && |before| <= |now|
    requires p.outcome == sent.outcome && p.state == sent.state
    ensures SentTells(p, before, action, started, decisionId)
  {
    hide Tells;
    LaterStill(ReceiptOf(p.outcome), before, now, p.state.audit, action, started, decisionId, p.outcome.Returned?, true);
  }

  // The receipt made for an action its source was found to have carried out: begun when the record was, at the version recorded then.
  ghost predicate RecoveryTells(receipt: SourceMutationReceipt, before: seq<AuditEntry>, log: seq<AuditEntry>, action: SourceActionPlan,
                                record: ActionRecord, source: LabState, decisionId: string) {
    && receipt.receiptId == "receipt:" + action.actionId + ":recovered" && receipt.actionId == action.actionId
    && receipt.actionDigest == DigestOf(action) && receipt.idempotencyKey == action.idempotencyKey
    && receipt.state == Recovered && receipt.startedAt == record.startedAt && receipt.policyDecisionId == decisionId
    && receipt.compensationOf.None? && action.idempotencyKey in source.idempotency
    && receipt.sourceVersion == source.idempotency[action.idempotencyKey].1.sourceVersion
    && exists n: nat :: |before| <= n && Entered(log, n, receipt, "recovered", action.actionId, receipt.completedAt,
         Remarks(receipt.sourceVersion, true))
  }

  lemma AnswerTells(env: Environment, s: GatewayState, l: Ledger, call: Call, record: ActionRecord, source: LabState)
    requires call.ReconcileReturned? && call.startedAt == record.startedAt
    requires call.reply == ReconcileNext(source, call.action.actionId, call.action.idempotencyKey)
    ensures var p := AnswerPlay(env, s, l, call);
      && !(p.outcome.Raised? && p.outcome.error.ActionExecutionFailed?)
      && (!p.outcome.Returned? ==> p.state == Tick(s))
      && (p.outcome.Returned? ==> exists s1 :: p.state == EmitNext(env, s1, "data.harness.action.recovered", call.action.actionId))
      && (p.outcome.Returned? ==> RecoveryTells(p.outcome.receipt, s.audit, p.state.audit, call.action, record, source, call.decisionId))
  {
    hide FinishNext;
    var p := AnswerPlay(env, s, l, call);
    if p.outcome.Returned? {
      assert Entered(p.state.audit, |s.audit|, p.outcome.receipt, "recovered", call.action.actionId, p.outcome.receipt.completedAt,
        Remarks(p.outcome.receipt.sourceVersion, true));
    }
  }

  /**
   A receipt reconcile() makes names the start and version on record, and points to the audit entry of the recovery; without a
   receipt nothing is audited but what the authorization was.
   */
  lemma ReconcileTells(env: Environment, s: GatewayState, l: Ledger, action: SourceActionPlan, identity: RequestIdentity, fate: ReconcileFate)
    requires Bound(l, action) && Uncertain(l.records[KeyOf(action)].state)
    ensures var p := ReconcilePlay(env, s, l, action, identity, fate);
      !p.outcome.Returned? ==> p.state.audit == AuthorizeNext(env, s, action, identity, "reconcile").0.audit
    ensures var p := ReconcilePlay(env, s, l, action, identity, fate);
      p.outcome.Returned? ==>
        && action.sourceId in s.sources
        && RecoveryTells(p.outcome.receipt, s.audit, p.state.audit, action, l.records[KeyOf(action)], s.sources[action.sourceId],
             env.policy(s.tick, action, identity, "reconcile").decisionId)
  {
    hide AnswerPlay, RecoveryTells, ReconcileNext;
    var (s1, decision) := AuthorizeNext(env, s, action, identity, "reconcile");
    var record := l.records[KeyOf(action)];
    if action.sourceId in s.sources {
      var source := s.sources[action.sourceId];
      var reply := ReconcileNext(source, action.actionId, action.idempotencyKey);
      var call := ReconcileReturned(action, decision.decisionId, record.startedAt, reply);
      AnswerTells(env, s1, l, call, record, source);
      var p := AnswerPlay(env, s1, l, call);
      if p.outcome.Returned? { RecoveredLater(p.outcome.receipt, s.audit, s1.audit, p.state.audit, action, record, source, decision.decisionId); }
    }
  }

  lemma RecoveredLater(receipt: SourceMutationReceipt, before: seq<AuditEntry>, now: seq<AuditEntry>, log: seq<AuditEntry>,
                       action: SourceActionPlan, record: ActionRecord, source: LabState, decisionId: string)
    requires RecoveryTells(receipt, now, log, action, record, source, decisionId) && |before| <= |now|
    ensures RecoveryTells(receipt, before, log, action, record, source, decisionId)
  {
  }
}
