/** What the gateways say of a call: the preview, the receipt, and the audit entry the receipt points to. */
module GatewayReports {
  import opened Wrappers
  import opened Ordering
  import opened Scalars
  import opened HashChain
  import opened AuditLedger
  import opened Actions
  import opened LabSource
  import opened Gateway
  import opened GatewayGuards

  // --- Previews ---

  predicate Noted(log: seq<AuditEntry>, n: nat, body: AuditBody) { n < |log| && log[n].body == body }

  // The second effect names exactly the preconditions, in order.
  predicate NamesPreconditions(effect: string, action: SourceActionPlan) {
    && |"conditional:"| <= |effect| && effect[..|"conditional:"|] == "conditional:"
    && var names := SortedStrings(action.preconditions.Keys);
       if names == [] then effect == "conditional:"
       else (forall n :: n in names ==> ',' !in n) ==> Split(effect[|"conditional:"|..]) == names
  }

  lemma EffectsName(action: SourceActionPlan)
    ensures var effects := EffectsOf(action);
      && |effects| == 2 && effects[0] == action.sourceId + ":" + action.assetId + ":" + action.operation
      && NamesPreconditions(effects[1], action)
  {
    var names := SortedStrings(action.preconditions.Keys);
    assert EffectsOf(action)[1][|"conditional:"|..] == Commas(names);
    if names != [] && forall n :: n in names ==> ',' !in n { CommasSplit(names); }
  }

  /** A preview says what was decided, when, for how long, of which action, and whether a human will be asked. */
  lemma PreviewSays(env: Environment, s: GatewayState, action: SourceActionPlan, identity: RequestIdentity, ttl: int)
    requires PreviewNext(env, s, action, identity, ttl).1.Ok?
    ensures var p, decision := PreviewNext(env, s, action, identity, ttl).1.value, env.policy(s.tick, action, identity, "preview");
      && p.previewId == "preview:" + action.actionId + ":" + env.shortDigest(DigestOf(action))
      && p.actionId == action.actionId && p.actionDigest == DigestOf(action) && p.policyDigest == identity.policyDigest
      && p.allowed == decision.allowed && p.policyDecisionId == decision.decisionId
      && (p.approvalRequired <==> NeedsHuman(action)) && p.expiresAt == p.createdAt + ttl && ttl > 0
      && p.createdAt == env.clock(AuthorizeNext(env, s, action, identity, "preview").0.tick)
      && |p.effects| == 2 && p.effects[0] == action.sourceId + ":" + action.assetId + ":" + action.operation
      && NamesPreconditions(p.effects[1], action)
      && exists n: nat :: |s.audit| <= n && Noted(PreviewNext(env, s, action, identity, ttl).0.audit, n,
           AuditBody("previewed", action.actionId, p.createdAt,
             map["allowed" := Flag(decision.allowed), "decision_id" := Text(decision.decisionId)]))
  {
    hide EffectsOf, NamesPreconditions;
    EffectsName(action);
    var (s1, decision) := AuthorizeNext(env, s, action, identity, "preview");
    assert Noted(PreviewNext(env, s, action, identity, ttl).0.audit, |s1.audit|,
      AuditBody("previewed", action.actionId, env.clock(s1.tick),
        map["allowed" := Flag(decision.allowed), "decision_id" := Text(decision.decisionId)]));
  }

  // --- Receipts and the audit entries behind them ---

  // Entry n of the ledger is the one the receipt points to.
  predicate Entered(log: seq<AuditEntry>, n: nat, receipt: SourceMutationReceipt, event: string, actionId: string,
                    at: int, attributes: map<string, Scalar>) {
    Noted(log, n, AuditBody(event, actionId, at, attributes)) && log[n].digest == receipt.auditDigest
  }

  // What the ledger keeps of a reply, or of its absence.
  function Remarks(version: string, heard: bool): map<string, Scalar> {
    if heard then map["source_version" := Text(version)]
    else map["source_version" := Text(version), "reason" := Text("connector_error")]
  }

  // The receipt of a request that was answered, or that raised.
  ghost predicate Tells(receipt: SourceMutationReceipt, before: seq<AuditEntry>, log: seq<AuditEntry>, action: SourceActionPlan,
                        started: int, decisionId: string, success: bool, heard: bool) {
    && receipt.actionId == action.actionId && receipt.actionDigest == DigestOf(action) && receipt.idempotencyKey == action.idempotencyKey
    && receipt.state == (if success then ActionState.Executed else ActionState.Failed)
    && receipt.startedAt == started && receipt.policyDecisionId == decisionId && receipt.compensationOf.None?
    && exists n: nat :: Numbered(receipt, n) && |before| <= n && Entered(log, n, receipt, if success then "executed" else "failed",
         action.actionId, receipt.completedAt, Remarks(receipt.sourceVersion, heard))
  }

  predicate Numbered(receipt: SourceMutationReceipt, n: nat) {
    receipt.receiptId == "receipt:" + receipt.actionId + ":" + IntText(n + 1)
  }

  // The call was answered, well or badly.
  predicate Settles(r: Result<SourceMutationReceipt, ActionError>) { r.Ok? || r.error.ActionExecutionFailed? }

  function ReceiptIn(r: Result<SourceMutationReceipt, ActionError>): SourceMutationReceipt
    requires Settles(r)
  {
    if r.Ok? then r.value else r.error.receipt
  }

  lemma OutcomeTells(env: Environment, s: GatewayState, action: SourceActionPlan, started: int, decisionId: string,
                     outcome: Result<MutationReply, SourceFault>)
    ensures var (t, r) := OutcomeNext(env, s, action, started, decisionId, outcome);
      && Settles(r) && Tells(ReceiptIn(r), s.audit, t.audit, action, started, decisionId, r.Ok?, outcome.Ok?)
      && ReceiptIn(r).sourceVersion == (if outcome.Ok? then outcome.value.sourceVersion else "unknown")
      && t.bindings == (if r.Ok? then s.bindings[KeyOf(action) := (DigestOf(action), r.value)] else s.bindings)
  {
    var (t, r) := OutcomeNext(env, s, action, started, decisionId, outcome);
    var receipt, n := ReceiptIn(r), |s.audit|;
    assert Numbered(receipt, n);
    assert Entered(t.audit, n, receipt, if r.Ok? then "executed" else "failed", action.actionId, receipt.completedAt,
      Remarks(receipt.sourceVersion, outcome.Ok?));
  }

  // Whether the source could read a request under a new key.
  predicate Readable(source: LabState, action: SourceActionPlan) {
    action.assetId == source.assetId ==>
      && "expectedVersion" in action.preconditions && IntOf(action.preconditions["expectedVersion"]).Some?
      && (IntOf(action.preconditions["expectedVersion"]).value == source.version ==>
            && "expectedValue" in action.preconditions
            && (StrOf(action.preconditions["expectedValue"]) == source.value ==> "newValue" in action.parameters))
  }

  lemma RepliesWithVersion(source: LabState, action: SourceActionPlan)
    requires action.idempotencyKey !in source.idempotency
    ensures var (after, outcome) := MutateNext(source, RequestOf(action));
      && (outcome.Ok? <==> Readable(source, action)) && (outcome.Ok? ==> outcome.value.sourceVersion == IntText(after.version))
  {
  }

  /**
   Under a new key, the receipt execute() returns or raises with names the action, the decision, the times and the
   version its source is now at, and points to the audit entry made of it; a successful one is bound to the key.
   */
  lemma ExecuteTells(env: Environment, s: GatewayState, action: SourceActionPlan, preview: ActionPreview,
                     identity: RequestIdentity, approval: Option<ActionApproval>)
    requires KeyOf(action) !in s.bindings && Settles(ExecuteNext(env, s, action, preview, identity, approval).1)
    requires action.sourceId in s.sources && action.idempotencyKey !in s.sources[action.sourceId].idempotency
    ensures var (t, r) := ExecuteNext(env, s, action, preview, identity, approval); var readable := Readable(s.sources[action.sourceId], action);
      && Tells(ReceiptIn(r), s.audit, t.audit, action, env.clock(s.tick), env.policy(s.tick + 1, action, identity, "execute").decisionId, r.Ok?, readable)
      && action.sourceId in t.sources
      && ReceiptIn(r).sourceVersion == (if readable then IntText(t.sources[action.sourceId].version) else "unknown")
      && t.bindings == (if r.Ok? then s.bindings[KeyOf(action) := (DigestOf(action), r.value)] else s.bindings)
  {
    hide MutateNext, OutcomeNext, ReplayNext, Tells, Readable, PreviewBinds, ApprovalHolds;
    var (s1, decision) := AuthorizeNext(env, Tick(s), action, identity, "execute");
    var (source, outcome) := MutateNext(s1.sources[action.sourceId], RequestOf(action));
    var s2 := s1.(sources := s1.sources[action.sourceId := source]);
    RepliesWithVersion(s1.sources[action.sourceId], action);
    OutcomeTells(env, s2, action, env.clock(s.tick), decision.decisionId, outcome);
    OutcomeSources(env, s2, action, env.clock(s.tick), decision.decisionId, outcome);
    var (t, r) := OutcomeNext(env, s2, action, env.clock(s.tick), decision.decisionId, outcome);
    LaterStill(ReceiptIn(r), s.audit, s2.audit, t.audit, action, env.clock(s.tick), decision.decisionId, r.Ok?, outcome.Ok?);
  }

  lemma OutcomeSources(env: Environment, s: GatewayState, action: SourceActionPlan, started: int, decisionId: string,
                       outcome: Result<MutationReply, SourceFault>)
    ensures OutcomeNext(env, s, action, started, decisionId, outcome).0.sources == s.sources
  {
  }

  lemma LaterStill(receipt: SourceMutationReceipt, before: seq<AuditEntry>, now: seq<AuditEntry>, log: seq<AuditEntry>,
                   action: SourceActionPlan, started: int, decisionId: string, success: bool, heard: bool)
    requires Tells(receipt, now, log, action, started, decisionId, success, heard) && |before| <= |now|
    ensures Tells(receipt, before, log, action, started, decisionId, success, heard)
  {
  }

  /** A replay returns the receipt the key is bound to, dated now and pointing to an entry that names it. */
  lemma ReplayTells(env: Environment, s: GatewayState, action: SourceActionPlan, preview: ActionPreview,
                    identity: RequestIdentity, approval: Option<ActionApproval>)
    requires KeyOf(action) in s.bindings && ExecuteNext(env, s, action, preview, identity, approval).1.Ok?
    ensures var (t, r) := ExecuteNext(env, s, action, preview, identity, approval); var (digest, bound) := s.bindings[KeyOf(action)];
      && digest == DigestOf(action) && t.bindings == s.bindings && t.sources == s.sources
      && r.value == bound.(state := AlreadyExecuted, completedAt := env.clock(s.tick), auditDigest := r.value.auditDigest)
      && exists n: nat :: |s.audit| <= n && Entered(t.audit, n, r.value, "replayed", action.actionId, env.clock(s.tick),
           map["receipt_id" := Text(bound.receiptId)])
  {
    hide MutateNext, OutcomeNext, ReplayNext, PreviewBinds, ApprovalHolds, Entered;
    var (s1, decision) := AuthorizeNext(env, Tick(s), action, identity, "execute");
    ReplayEntered(env, s1, action, env.clock(s.tick), s.bindings[KeyOf(action)].1);
  }

  lemma ReplayEntered(env: Environment, s: GatewayState, action: SourceActionPlan, now: int, bound: SourceMutationReceipt)
    ensures var (t, replayed) := ReplayNext(env, s, action, now, bound);
      && t.bindings == s.bindings && t.sources == s.sources
      && replayed == bound.(state := AlreadyExecuted, completedAt := now, auditDigest := replayed.auditDigest)
      && Entered(t.audit, |s.audit|, replayed, "replayed", action.actionId, now, map["receipt_id" := Text(bound.receiptId)])
  {
  }

  /** A compensation's receipt names the receipt it takes back, and its entry, under the original action, names the compensation's. */
  lemma CompensateTells(env: Environment, s: GatewayState, original: SourceActionPlan, receipt: SourceMutationReceipt,
                        identity: RequestIdentity, approval: Option<ActionApproval>)
    requires CompensateNext(env, s, original, receipt, identity, approval).1.Ok?
    ensures var (t, r) := CompensateNext(env, s, original, receipt, identity, approval);
      && r.value.state == Compensated && r.value.compensationOf == Some(receipt.receiptId)
      && exists n: nat, at :: |s.audit| <= n && Entered(t.audit, n, r.value, "compensated", original.actionId, at,
           map["compensation_receipt_id" := Text(r.value.receiptId)])
  {
    hide PreviewNext, ExecuteNext, ApprovalHolds;
    var derived := Derived(original);
    var (s1, preview) := PreviewNext(env, Tick(s), derived, identity, PREVIEW_TTL);
    var (s2, done) := ExecuteNext(env, s1, derived, preview.value, identity, None);
    PreviewLogs(env, Tick(s), derived, identity, PREVIEW_TTL);
    ExecuteLogs(env, s1, derived, preview.value, identity, None);
    var (t, r) := CompensateNext(env, s, original, receipt, identity, approval);
    assert Entered(t.audit, |s2.audit|, r.value, "compensated", original.actionId, env.clock(s2.tick),
      map["compensation_receipt_id" := Text(r.value.receiptId)]);
  }

  lemma PreviewLogs(env: Environment, s: GatewayState, action: SourceActionPlan, identity: RequestIdentity, ttl: int)
    ensures s.audit <= PreviewNext(env, s, action, identity, ttl).0.audit
  {
  }

  lemma ExecuteLogs(env: Environment, s: GatewayState, action: SourceActionPlan, preview: ActionPreview,
                    identity: RequestIdentity, approval: Option<ActionApproval>)
    ensures s.audit <= ExecuteNext(env, s, action, preview, identity, approval).0.audit
  {
    hide MutateNext, OutcomeNext, ReplayNext, AuthorizeNext, PreviewBinds, ApprovalHolds;
    var (s1, decision) := AuthorizeNext(env, Tick(s), action, identity, "execute");
    AuthorizeLogs(env, Tick(s), action, identity, "execute");
    if KeyOf(action) in s1.bindings {
      ReplayLogs(env, s1, action, env.clock(s.tick), s1.bindings[KeyOf(action)].1);
    } else if action.sourceId in s1.sources {
      var (source, outcome) := MutateNext(s1.sources[action.sourceId], RequestOf(action));
      OutcomeLogs(env, s1.(sources := s1.sources[action.sourceId := source]), action, env.clock(s.tick), decision.decisionId, outcome);
    }
  }

  lemma AuthorizeLogs(env: Environment, s: GatewayState, action: SourceActionPlan, identity: RequestIdentity, stage: string)
    ensures s.audit <= AuthorizeNext(env, s, action, identity, stage).0.audit
  {
  }

  lemma ReplayLogs(env: Environment, s: GatewayState, action: SourceActionPlan, now: int, receipt: SourceMutationReceipt)
    ensures s.audit <= ReplayNext(env, s, action, now, receipt).0.audit
  {
  }

  lemma OutcomeLogs(env: Environment, s: GatewayState, action: SourceActionPlan, started: int, decisionId: string,
                    outcome: Result<MutationReply, SourceFault>)
    ensures s.audit <= OutcomeNext(env, s, action, started, decisionId, outcome).0.audit
  {
  }

  // --- Telemetry ---

  // The sink works, or it does not, all along.
  ghost predicate Sinks(env: Environment, up: bool) { forall n :: env.telemetryUp(n) == up }

  lemma EmitAudits(env: Environment, s: GatewayState, event: string, actionId: string, up: bool)
    requires Sinks(env, up)
    ensures |EmitNext(env, s, event, actionId).audit| == |s.audit| + if up then 0 else 1
  {
  }

  lemma OutcomeAudits(env: Environment, s: GatewayState, action: SourceActionPlan, started: int, decisionId: string,
                      outcome: Result<MutationReply, SourceFault>, up: bool)
    requires Sinks(env, up)
    ensures var (t, r) := OutcomeNext(env, s, action, started, decisionId, outcome);
      Settles(r) && |t.audit| == |s.audit| + if up then 1 else 2
  {
  }

  lemma ReplayAudits(env: Environment, s: GatewayState, action: SourceActionPlan, now: int, receipt: SourceMutationReceipt, up: bool)
    requires Sinks(env, up)
    ensures |ReplayNext(env, s, action, now, receipt).0.audit| == |s.audit| + if up then 1 else 2
  {
  }

  /**
   With working telemetry execute() audits once if it was answered or replayed and not at all if it refused; where every emit
   fails, each leaves one more entry and changes nothing else.
   */
  lemma ExecuteAudits(env: Environment, s: GatewayState, action: SourceActionPlan, preview: ActionPreview,
                      identity: RequestIdentity, approval: Option<ActionApproval>, up: bool)
    requires Sinks(env, up)
    ensures var (t, r) := ExecuteNext(env, s, action, preview, identity, approval);
      |t.audit| == |s.audit| + if r == Err(PreviewMismatch) || r == Err(ApprovalRequired) then 0
                               else if Settles(r) then (if up then 1 else 3) else if up then 0 else 1
  {
    hide MutateNext, OutcomeNext, ReplayNext, EmitNext, PreviewBinds, ApprovalHolds, Sinks;
    var (s1, decision) := AuthorizeNext(env, Tick(s), action, identity, "execute");
    EmitAudits(env, Tick(Tick(s)), "data.harness.action.authorization", action.actionId, up);
    if KeyOf(action) in s1.bindings {
      ReplayAudits(env, s1, action, env.clock(s.tick), s1.bindings[KeyOf(action)].1, up);
    } else if action.sourceId in s1.sources {
      var (source, outcome) := MutateNext(s1.sources[action.sourceId], RequestOf(action));
      OutcomeAudits(env, s1.(sources := s1.sources[action.sourceId := source]), action, env.clock(s.tick), decision.decisionId, outcome, up);
    }
  }
}
