/** What it takes to get past the preview and the approval test of the plain gateway, and of its compensations. */
module GatewayGuards {
  import opened Wrappers
  import opened Actions
  import opened LabSource
  import opened Gateway

  // An approval was passed, an authority is there to ask, and asked for just this it said yes.
  predicate Vouched(env: Environment, approval: Option<ActionApproval>, action: SourceActionPlan, identity: RequestIdentity, now: int, compensation: bool) {
    approval.Some? && env.verifier.Some? && env.verifier.value(approval.value, action, identity, now, compensation)
  }

  // The preview allows this very action under this very policy, and has not run out.
  predicate Covered(preview: ActionPreview, action: SourceActionPlan, identity: RequestIdentity, now: int) {
    && preview.allowed && preview.actionId == action.actionId && preview.actionDigest == DigestOf(action)
    && preview.policyDigest == identity.policyDigest && now < preview.expiresAt
  }

  predicate NeedsHuman(action: SourceActionPlan) { action.approvalMode == Human }

  /** execute() raises PreviewMismatch and ApprovalRequired in exactly these cases, with nothing written and no key bound. */
  lemma ExecuteGuarded(env: Environment, s: GatewayState, action: SourceActionPlan, preview: ActionPreview,
                       identity: RequestIdentity, approval: Option<ActionApproval>)
    ensures var (t, r) := ExecuteNext(env, s, action, preview, identity, approval); var now := env.clock(s.tick);
      && (r == Err(PreviewMismatch) <==> !Covered(preview, action, identity, now))
      && (r == Err(ApprovalRequired) <==>
            Covered(preview, action, identity, now) && NeedsHuman(action) && !Vouched(env, approval, action, identity, now, false))
      && (r == Err(PreviewMismatch) || r == Err(ApprovalRequired) ==> t.sources == s.sources && t.bindings == s.bindings && t.audit == s.audit)
  {
    hide AuthorizeNext, MutateNext, ReplayNext, EmitNext, LogNext;
  }

  /** So whatever a Human action wrote or had replayed was vouched for at the time of the call. */
  lemma ExecutedWasVouched(env: Environment, s: GatewayState, action: SourceActionPlan, preview: ActionPreview,
                           identity: RequestIdentity, approval: Option<ActionApproval>)
    requires NeedsHuman(action)
    ensures var (t, r) := ExecuteNext(env, s, action, preview, identity, approval);
      r.Ok? || t.sources != s.sources || t.bindings != s.bindings ==>
        Covered(preview, action, identity, env.clock(s.tick)) && Vouched(env, approval, action, identity, env.clock(s.tick), false)
  {
    hide ExecuteNext;
    ExecuteGuarded(env, s, action, preview, identity, approval);
    ExecuteStops(env, s, action, preview, identity, approval);
  }

  lemma ExecuteStops(env: Environment, s: GatewayState, action: SourceActionPlan, preview: ActionPreview,
                     identity: RequestIdentity, approval: Option<ActionApproval>)
    ensures var now := env.clock(s.tick);
      !Covered(preview, action, identity, now) || (NeedsHuman(action) && !Vouched(env, approval, action, identity, now, false)) ==>
        var (t, r) := ExecuteNext(env, s, action, preview, identity, approval);
        r == Err(if Covered(preview, action, identity, now) then ApprovalRequired else PreviewMismatch)
        && t.sources == s.sources && t.bindings == s.bindings
  {
    hide AuthorizeNext, MutateNext, ReplayNext, OutcomeNext;
  }

  // A preview the gateway made binds exactly the action it was made for, the policy it was asked under, and its time.
  lemma PreviewBindsItsAction(env: Environment, made: SourceActionPlan, madeFor: RequestIdentity, decision: PolicyDecision, at: int, ttl: int,
                              action: SourceActionPlan, identity: RequestIdentity, now: int)
    ensures PreviewBinds(action, PreviewOf(env, made, madeFor, decision, at, ttl), identity, now) <==>
      decision.allowed && action == made && identity.policyDigest == madeFor.policyDigest && now < at + ttl
  {
  }

  // What a receipt must be for its action to be compensated.
  predicate Compensable(original: SourceActionPlan, receipt: SourceMutationReceipt) {
    && original.compensation.Some? && receipt.actionDigest == DigestOf(original)
    && (receipt.state == ActionState.Executed || receipt.state == Recovered || receipt.state == AlreadyExecuted)
  }

  /** compensate() needs an accepted receipt and, for a Human action, an approval that was vouched for as one that may compensate. */
  lemma CompensateGuarded(env: Environment, s: GatewayState, original: SourceActionPlan, receipt: SourceMutationReceipt,
                          identity: RequestIdentity, approval: Option<ActionApproval>)
    ensures var (t, r) := CompensateNext(env, s, original, receipt, identity, approval);
      var vouched := NeedsHuman(original) ==> Vouched(env, approval, original, identity, env.clock(s.tick), true);
      && (!Compensable(original, receipt) ==> (t, r) == (s, Err(InvalidValue)))
      && (Compensable(original, receipt) && !vouched ==> r == Err(ApprovalRequired) && t.sources == s.sources && t.bindings == s.bindings)
      && (Compensable(original, receipt) && vouched ==> r != Err(ApprovalRequired))
      && (r.Ok? || t.sources != s.sources || t.bindings != s.bindings ==> Compensable(original, receipt) && vouched)
  {
    hide PreviewNext, ExecuteNext, LogNext;
    if Compensable(original, receipt) {
      var derived := Derived(original);
      var (s1, preview) := PreviewNext(env, Tick(s), derived, identity, PREVIEW_TTL);
      PreviewNeverAsks(env, Tick(s), derived, identity, PREVIEW_TTL);
      if preview.Ok? { ExecuteGuarded(env, s1, derived, preview.value, identity, None); }
    }
  }

  lemma PreviewNeverAsks(env: Environment, s: GatewayState, action: SourceActionPlan, identity: RequestIdentity, ttl: int)
    ensures PreviewNext(env, s, action, identity, ttl).1 != Err(ApprovalRequired)
  {
  }
}
