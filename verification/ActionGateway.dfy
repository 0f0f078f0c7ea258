/** The preview-first action gateway, in process, over the registered mutation connectors. */
module Gateway {
  import opened Wrappers
  import opened Ordering
  import opened Scalars
  import opened HashChain
  import opened AuditLedger
  import opened Actions
  import opened LabSource

  // Everything the gateway asks of its surroundings, as functions of how often it has asked.
  datatype Environment = Environment(
    policy: (nat, SourceActionPlan, RequestIdentity, string) -> PolicyDecision,
    clock: nat -> int,
    telemetryUp: nat -> bool,
    supportsKey: string -> bool,          // what the profile of a registered connector says of idempotency keys
    shortDigest: ActionDigest -> string,  // the first digits of a digest
    verifier: ApprovalVerifier)

  datatype GatewayState = GatewayState(
    tick: nat,
    audit: seq<AuditEntry>,
    bindings: map<Key, (ActionDigest, SourceMutationReceipt)>,
    sources: map<string, LabState>)

  // --- The calls as functions of the state ---

  function LogNext(s: GatewayState, eventType: string, actionId: string, at: int, attributes: map<string, Scalar>): GatewayState {
    s.(audit := Audited(s.audit, AuditBody(eventType, actionId, at, attributes)))
  }

  function Tick(s: GatewayState): GatewayState { s.(tick := s.tick + 1) }

  // A failing sink leaves one audit entry and is otherwise ignored.
  function EmitNext(env: Environment, s: GatewayState, event: string, actionId: string): GatewayState {
    if env.telemetryUp(s.tick) then Tick(s)
    else LogNext(Tick(Tick(s)), "telemetry-failed", actionId, env.clock(s.tick + 1), map["event_name" := Text(event)])
  }

  function AuthorizeNext(env: Environment, s: GatewayState, action: SourceActionPlan, identity: RequestIdentity, stage: string)
    : (GatewayState, PolicyDecision)
  {
    (EmitNext(env, Tick(s), "data.harness.action.authorization", action.actionId), env.policy(s.tick, action, identity, stage))
  }

  function PreviewNext(env: Environment, s: GatewayState, action: SourceActionPlan, identity: RequestIdentity, ttl: int)
    : (GatewayState, Result<ActionPreview, ActionError>)
  {
    if action.sourceId !in s.sources then (s, Err(MissingKey))
    else if !env.supportsKey(action.sourceId) then (s, Err(InvalidValue))
    else
      var (s1, decision) := AuthorizeNext(env, s, action, identity, "preview");
      var at := env.clock(s1.tick);
      if ttl <= 0 then (Tick(s1), Err(InvalidValue))
      else
        var s2 := LogNext(Tick(s1), "previewed", action.actionId, at, DecisionAttributes(decision));
        (EmitNext(env, s2, "data.harness.action.previewed", action.actionId),
         Ok(PreviewOf(env, action, identity, decision, at, ttl)))
  }

  function PreviewOf(env: Environment, action: SourceActionPlan, identity: RequestIdentity, decision: PolicyDecision, at: int, ttl: int)
    : ActionPreview
  {
    ActionPreview("preview:" + action.actionId + ":" + env.shortDigest(DigestOf(action)), action.actionId, DigestOf(action),
      identity.policyDigest, decision.decisionId, at, at + ttl, decision.allowed, action.approvalMode == Human, EffectsOf(action))
  }

  function EffectsOf(action: SourceActionPlan): seq<string> {
    [action.sourceId + ":" + action.assetId + ":" + action.operation,
     "conditional:" + Commas(SortedStrings(action.preconditions.Keys))]
  }

  function DecisionAttributes(decision: PolicyDecision): map<string, Scalar> {
    map["allowed" := Flag(decision.allowed), "decision_id" := Text(decision.decisionId)]
  }

  function StateText(state: ActionState): string {
    match state
    case Executed => "executed"
    case Recovered => "recovered"
    case AlreadyExecuted => "already-executed"
    case Compensated => "compensated"
    case Failed => "failed"
  }

  function ReceiptNext(s: GatewayState, action: SourceActionPlan, state: ActionState, started: int, completed: int,
                       version: string, decisionId: string): SourceMutationReceipt {
    SourceMutationReceipt("receipt:" + action.actionId + ":" + IntText(|s.audit|), action.actionId, DigestOf(action),
      action.idempotencyKey, state, started, completed, version, decisionId, Head(s.audit), None)
  }

  // What follows the reply of the connector.
  function OutcomeNext(env: Environment, s: GatewayState, action: SourceActionPlan, started: int, decisionId: string,
                       outcome: Result<MutationReply, SourceFault>)
    : (GatewayState, Result<SourceMutationReceipt, ActionError>)
  {
    var completed := env.clock(s.tick);
    var success := outcome.Ok? && outcome.value.success && outcome.value.postconditionsMet;
    var state := if success then Executed else Failed;
    var version := if outcome.Ok? then outcome.value.sourceVersion else "unknown";
    var logged := LogNext(Tick(s), StateText(state), action.actionId, completed,
      if outcome.Ok? then map["source_version" := Text(version)]
      else map["source_version" := Text("unknown"), "reason" := Text("connector_error")]);
    var receipt := ReceiptNext(logged, action, state, started, completed, version, decisionId);
    var bound := if success then logged.(bindings := logged.bindings[KeyOf(action) := (DigestOf(action), receipt)]) else logged;
    (EmitNext(env, bound, "data.harness.action." + StateText(state), action.actionId),
     if success then Ok(receipt) else Err(ActionExecutionFailed(receipt)))
  }

  function ReplayNext(env: Environment, s: GatewayState, action: SourceActionPlan, now: int, receipt: SourceMutationReceipt)
    : (GatewayState, SourceMutationReceipt)
  {
    var logged := LogNext(s, "replayed", action.actionId, now, map["receipt_id" := Text(receipt.receiptId)]);
    (EmitNext(env, logged, "data.harness.action.replayed", action.actionId),
     receipt.(state := AlreadyExecuted, completedAt := now, auditDigest := Head(logged.audit)))
  }

  function ExecuteNext(env: Environment, s: GatewayState, action: SourceActionPlan, preview: ActionPreview,
                       identity: RequestIdentity, approval: Option<ActionApproval>)
    : (GatewayState, Result<SourceMutationReceipt, ActionError>)
  {
    var now := env.clock(s.tick);
    if !PreviewBinds(action, preview, identity, now) then (Tick(s), Err(PreviewMismatch))
    else if !ApprovalHolds(env.verifier, action, approval, identity, now, false) then (Tick(s), Err(ApprovalRequired))
    else
      var (s1, decision) := AuthorizeNext(env, Tick(s), action, identity, "execute");
      if !decision.allowed then (s1, Err(PolicyDenied(decision)))
      else if KeyOf(action) in s1.bindings then
        var (digest, receipt) := s1.bindings[KeyOf(action)];
        if digest != DigestOf(action) then (s1, Err(IdempotencyConflict))
        else
          var (s2, replayed) := ReplayNext(env, s1, action, now, receipt);
          (s2, Ok(replayed))
      else if action.sourceId !in s1.sources then (s1, Err(MissingKey))
      else
        var (source, outcome) := MutateNext(s1.sources[action.sourceId], RequestOf(action));
        OutcomeNext(env, s1.(sources := s1.sources[action.sourceId := source]), action, now, decision.decisionId, outcome)
  }

  function Derived(original: SourceActionPlan): SourceActionPlan
    requires original.compensation.Some?
  {
    var spec := original.compensation.value;
    SourceActionPlan(original.actionId + ":compensate", original.sourceId, original.assetId, spec.operation,
      spec.parameters, spec.preconditions, original.idempotencyKey + ":compensate", Medium, NoApproval,
      "compensate " + original.actionId, None)
  }

  const PREVIEW_TTL := 300_000_000  // five minutes, in microseconds

  function CompensateNext(env: Environment, s: GatewayState, original: SourceActionPlan, receipt: SourceMutationReceipt,
                          identity: RequestIdentity, approval: Option<ActionApproval>)
    : (GatewayState, Result<SourceMutationReceipt, ActionError>)
  {
    if original.compensation.None? || receipt.actionDigest != DigestOf(original)
       || receipt.state !in {Executed, Recovered, AlreadyExecuted} then (s, Err(InvalidValue))
    else if !ApprovalHolds(env.verifier, original, approval, identity, env.clock(s.tick), true) then
      (Tick(s), Err(ApprovalRequired))
    else
      var derived := Derived(original);
      var (s1, preview) := PreviewNext(env, Tick(s), derived, identity, PREVIEW_TTL);
      if preview.Err? then (s1, Err(preview.error))
      else
        var (s2, done) := ExecuteNext(env, s1, derived, preview.value, identity, None);
        if done.Err? then (s2, done)
        else
          var s3 := LogNext(Tick(s2), "compensated", original.actionId, env.clock(s2.tick),
            map["compensation_receipt_id" := Text(done.value.receiptId)]);
          (s3, Ok(done.value.(state := Compensated, auditDigest := Head(s3.audit),
                              compensationOf := Some(receipt.receiptId))))
  }

  class ActionGateway {
    const env: Environment
    const audit: ActionAuditLedger
    const registry: map<string, LabMutationConnector>
    var tick: nat
    var bindings: map<Key, (ActionDigest, SourceMutationReceipt)>

    constructor (env: Environment, audit: ActionAuditLedger, registry: map<string, LabMutationConnector>)
      requires forall s :: s in registry ==> registry[s].sourceId == s
      ensures Valid() && this.env == env && this.audit == audit && this.registry == registry
      ensures tick == 0 && bindings == map[]
    {
      this.env, this.audit, this.registry := env, audit, registry;
      tick, bindings := 0, map[];
    }

    // A connector is registered under its own identity, so no object is registered twice.
    ghost predicate Valid()
    {
      forall s :: s in registry ==> registry[s].sourceId == s
    }

    ghost function Connectors(): set<LabMutationConnector> {
      set s | s in registry :: registry[s]
    }

    ghost function Sources(): map<string, LabState>
      reads Connectors()
    {
      map s | s in registry :: registry[s].State()
    }

    ghost function State(): GatewayState
      reads this, audit, Connectors()
    {
      GatewayState(tick, audit.entries, bindings, Sources())
    }

    method Now() returns (at: int)
      modifies this`tick
      ensures State() == Tick(old(State())) && at == env.clock(old(tick))
    {
      at := env.clock(tick);
      tick := tick + 1;
    }

    method Log(eventType: string, actionId: string, at: int, attributes: map<string, Scalar>) returns (digest: AuditDigest)
      modifies audit
      ensures State() == LogNext(old(State()), eventType, actionId, at, attributes)
      ensures digest == Head(audit.entries)
    {
      digest := audit.Append(eventType, actionId, at, attributes);
      assert Sources() == old(Sources());
    }

    method Emit(event: string, actionId: string)
      modifies this`tick, audit
      ensures State() == EmitNext(env, old(State()), event, actionId)
    {
      var delivered := env.telemetryUp(tick);
      var _ := Now();
      if !delivered {
        var at := Now();
        var _ := Log("telemetry-failed", actionId, at, map["event_name" := Text(event)]);
      }
    }

    method Authorize(action: SourceActionPlan, identity: RequestIdentity, stage: string) returns (decision: PolicyDecision)
      modifies this`tick, audit
      ensures (State(), decision) == AuthorizeNext(env, old(State()), action, identity, stage)
    {
      decision := env.policy(tick, action, identity, stage);
      var _ := Now();
      Emit("data.harness.action.authorization", action.actionId);
    }

    method Preview(action: SourceActionPlan, identity: RequestIdentity, ttl: int)
      returns (r: Result<ActionPreview, ActionError>)
      modifies this`tick, audit
      ensures (State(), r) == PreviewNext(env, old(State()), action, identity, ttl)
    {
      if action.sourceId !in registry {
        return Err(MissingKey);
      }
      if !env.supportsKey(action.sourceId) {
        return Err(InvalidValue);
      }
      var decision := Authorize(action, identity, "preview");
      ghost var authorized := State();
      var createdAt := Now();
      assert State() == Tick(authorized);
      if ttl <= 0 {
        return Err(InvalidValue);
      }
      r := Ok(PreviewOf(env, action, identity, decision, createdAt, ttl));
      var _ := Log("previewed", action.actionId, createdAt, DecisionAttributes(decision));
      Emit("data.harness.action.previewed", action.actionId);
    }

    method Mutate(action: SourceActionPlan) returns (outcome: Result<MutationReply, SourceFault>)
      requires Valid() && action.sourceId in registry
      modifies registry[action.sourceId]
      ensures var (source, expected) := MutateNext(old(State()).sources[action.sourceId], RequestOf(action));
        && outcome == expected
        && State() == old(State()).(sources := old(State()).sources[action.sourceId := source])
    {
      var connector := registry[action.sourceId];
      outcome := connector.Mutate(RequestOf(action));
      assert forall s :: s in registry && s != action.sourceId ==> registry[s] != connector;
    }

    method Execute(action: SourceActionPlan, preview: ActionPreview, identity: RequestIdentity, approval: Option<ActionApproval>)
      returns (r: Result<SourceMutationReceipt, ActionError>)
      requires Valid()
      modifies this, audit, Connectors()
      ensures (State(), r) == ExecuteNext(env, old(State()), action, preview, identity, approval)
    {
      var now := Now();
      if !PreviewBinds(action, preview, identity, now) {
        return Err(PreviewMismatch);
      }
      if !ApprovalHolds(env.verifier, action, approval, identity, now, false) {
        return Err(ApprovalRequired);
      }
      var decision := Authorize(action, identity, "execute");
      if !decision.allowed {
        return Err(PolicyDenied(decision));
      }
      var key := KeyOf(action);
      if key in bindings {
        var (digest, receipt) := bindings[key];
        if digest != DigestOf(action) {
          return Err(IdempotencyConflict);
        }
        var auditDigest := Log("replayed", action.actionId, now, map["receipt_id" := Text(receipt.receiptId)]);
        Emit("data.harness.action.replayed", action.actionId);
        return Ok(receipt.(state := AlreadyExecuted, completedAt := now, auditDigest := auditDigest));
      }
      if action.sourceId !in registry {
        return Err(MissingKey);
      }
      var outcome := Mutate(action);
      r := Conclude(action, now, decision.decisionId, outcome);
    }

    method Conclude(action: SourceActionPlan, started: int, decisionId: string, outcome: Result<MutationReply, SourceFault>)
      returns (r: Result<SourceMutationReceipt, ActionError>)
      modifies this, audit
      ensures (State(), r) == OutcomeNext(env, old(State()), action, started, decisionId, outcome)
    {
      var completed := Now();
      var success := outcome.Ok? && outcome.value.success && outcome.value.postconditionsMet;
      var state := if success then Executed else Failed;
      var version := if outcome.Ok? then outcome.value.sourceVersion else "unknown";
      var auditDigest := Log(StateText(state), action.actionId, completed,
        if outcome.Ok? then map["source_version" := Text(version)]
        else map["source_version" := Text("unknown"), "reason" := Text("connector_error")]);
      var receipt := SourceMutationReceipt("receipt:" + action.actionId + ":" + IntText(|audit.entries|), action.actionId,
        DigestOf(action), action.idempotencyKey, state, started, completed, version, decisionId, auditDigest, None);
      ghost var sources := Sources();
      if success {
        bindings := bindings[KeyOf(action) := (DigestOf(action), receipt)];
        assert Sources() == sources;
        r := Ok(receipt);
      } else {
        r := Err(ActionExecutionFailed(receipt));
      }
      Emit("data.harness.action." + StateText(state), action.actionId);
    }

    method Compensate(original: SourceActionPlan, receipt: SourceMutationReceipt, identity: RequestIdentity,
                      approval: Option<ActionApproval>)
      returns (r: Result<SourceMutationReceipt, ActionError>)
      requires Valid()
      modifies this, audit, Connectors()
      ensures (State(), r) == CompensateNext(env, old(State()), original, receipt, identity, approval)
    {
      if original.compensation.None? || receipt.actionDigest != DigestOf(original)
         || receipt.state !in {Executed, Recovered, AlreadyExecuted} {
        return Err(InvalidValue);
      }
      var now := Now();
      if !ApprovalHolds(env.verifier, original, approval, identity, now, true) {
        return Err(ApprovalRequired);
      }
      var derived := Derived(original);
      var preview := Preview(derived, identity, PREVIEW_TTL);
      if preview.Err? {
        return Err(preview.error);
      }
      r := Execute(derived, preview.value, identity, None);
      if r.Ok? {
        var at := Now();
        var auditDigest := Log("compensated", original.actionId, at,
          map["compensation_receipt_id" := Text(r.value.receiptId)]);
        r := Ok(r.value.(state := Compensated, auditDigest := auditDigest, compensationOf := Some(receipt.receiptId)));
      }
    }
  }
}
