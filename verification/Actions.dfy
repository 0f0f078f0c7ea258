/** Source actions, previews, approvals and receipts, with the guards every gateway applies. */
module Actions {
  import opened Wrappers
  import opened Scalars
  import opened AuditLedger

  datatype ActionRisk = Low | Medium | High
  datatype ApprovalMode = NoApproval | Human

  datatype CompensationSpec = CompensationSpec(
    operation: string, parameters: map<string, Scalar>, preconditions: map<string, Scalar>)

  datatype SourceActionPlan = SourceActionPlan(
    actionId: string, sourceId: string, assetId: string, operation: string,
    parameters: map<string, Scalar>, preconditions: map<string, Scalar>,
    idempotencyKey: string, risk: ActionRisk, approvalMode: ApprovalMode, purpose: string,
    compensation: Option<CompensationSpec>)

  // SHA-256 of the canonical plan: every field of the plan enters the digest.
  datatype ActionDigest = Sha256(plan: SourceActionPlan)

  function DigestOf(action: SourceActionPlan): ActionDigest { Sha256(action) }

  type Key = (string, string)

  function KeyOf(action: SourceActionPlan): Key { (action.sourceId, action.idempotencyKey) }

  datatype RequestIdentity = RequestIdentity(
    organizationId: string, solutionId: string, agentId: string, requestId: string, policyDigest: string)

  datatype PolicyDecision = PolicyDecision(allowed: bool, decisionId: string)

  datatype ActionPreview = ActionPreview(
    previewId: string, actionId: string, actionDigest: ActionDigest, policyDigest: string, policyDecisionId: string,
    createdAt: int, expiresAt: int, allowed: bool, approvalRequired: bool, effects: seq<string>)

  datatype ActionApproval = ActionApproval(
    approvalId: string, actionDigest: ActionDigest, approverId: string, policyDigest: string,
    approvedAt: int, expiresAt: int, allowCompensation: bool)

  datatype ActionState = Executed | Recovered | AlreadyExecuted | Compensated | Failed

  datatype SourceMutationReceipt = SourceMutationReceipt(
    receiptId: string, actionId: string, actionDigest: ActionDigest, idempotencyKey: string,
    state: ActionState, startedAt: int, completedAt: int, sourceVersion: string,
    policyDecisionId: string, auditDigest: AuditDigest, compensationOf: Option<string>)

  // What a gateway call raises.
  datatype ActionError =
    | PolicyDenied(decision: PolicyDecision)
    | PreviewMismatch
    | ApprovalRequired
    | IdempotencyConflict
    | ActionExecutionFailed(receipt: SourceMutationReceipt)
    | ActionOutcomeUnknown
    | InvalidValue
    | MissingKey
    | ConnectorError

  // The approval authority; a gateway may have none.
  type ApprovalVerifier = Option<(ActionApproval, SourceActionPlan, RequestIdentity, int, bool) -> bool>

  predicate PreviewBinds(action: SourceActionPlan, preview: ActionPreview, identity: RequestIdentity, now: int) {
    && preview.allowed
    && preview.actionId == action.actionId
    && preview.actionDigest == DigestOf(action)
    && preview.policyDigest == identity.policyDigest
    && now < preview.expiresAt
  }

  predicate ApprovalHolds(verifier: ApprovalVerifier, action: SourceActionPlan, approval: Option<ActionApproval>,
                          identity: RequestIdentity, now: int, compensation: bool) {
    action.approvalMode == Human ==>
      approval.Some? && verifier.Some? && verifier.value(approval.value, action, identity, now, compensation)
  }
}
