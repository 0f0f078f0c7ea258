/** What it takes to get past the approval test of the durable gateway, and of all gateways with the authority that signs approvals. */
module ApprovalGuards {
  import opened Wrappers
  import opened Actions
  import opened LabSource
  import opened Gateway
  import opened GatewayGuards
  import opened Journal
  import opened RecoveryMachine
  import opened DurablePlays
  import opened DurableRuns
  import opened DurableOutcomes
  import opened ApprovalAuthority

  // --- The durable gateway ---

  /**
   The durable execute() raises PreviewMismatch and ApprovalRequired in exactly these cases, before anything is written
   ahead; what it hands over was vouched for.
   */
  lemma DurableGuarded(env: Environment, s: GatewayState, l: Ledger, action: SourceActionPlan, preview: ActionPreview,
                       identity: RequestIdentity, approval: Option<ActionApproval>, fate: Fate)
    ensures var p := ExecutePlay(env, s, l, action, preview, identity, approval, fate); var now := env.clock(s.tick);
      var vouched := NeedsHuman(action) ==> Vouched(env, approval, action, identity, now, false);
      && (p.outcome == Raised(PreviewMismatch) <==> !Covered(preview, action, identity, now))
      && (p.outcome == Raised(ApprovalRequired) <==> Covered(preview, action, identity, now) && !vouched)
      && (!Covered(preview, action, identity, now) || !vouched ==>
            p.journal == l && p.steps == [] && p.state.sources == s.sources && p.state.audit == s.audit)
      && (HandsOver(env, s, l, action, preview, identity, approval, fate) ==> Covered(preview, action, identity, now) && vouched)
  {
    hide WriteAhead, Sends, DecidePlay, AuthorizeNext, Acts, Startable, Taken, Replayable, EndOf, Ends;
    ExecuteIsExact(env, s, l, action, preview, identity, approval, fate);
  }

  // --- With the authority that signs approvals ---

  // The gateway asks this authority.
  ghost predicate Trusts(env: Environment, authority: HmacApprovalAuthority) {
    env.verifier.Some? && forall approval, action, identity, now, compensation ::
      env.verifier.value(approval, action, identity, now, compensation) == authority.Verify(approval, action, identity, now, compensation)
  }

  // The approval was given to this requester for this action, under this policy, for this time, and for compensation if that is asked.
  predicate GivenFor(approval: ActionApproval, issuedTo: RequestIdentity, action: SourceActionPlan, identity: RequestIdentity, now: int, compensation: bool) {
    && identity.organizationId == issuedTo.organizationId && identity.solutionId == issuedTo.solutionId
    && identity.agentId == issuedTo.agentId && identity.requestId == issuedTo.requestId
    && approval.actionDigest == DigestOf(action) && approval.policyDigest == identity.policyDigest
    && approval.approvedAt <= now < approval.expiresAt && (compensation ==> approval.allowCompensation)
  }

  lemma IssuedVouches(env: Environment, authority: HmacApprovalAuthority, approval: ActionApproval, issuedTo: RequestIdentity, nonce: string,
                      action: SourceActionPlan, identity: RequestIdentity, now: int, compensation: bool)
    requires Trusts(env, authority) && Injective(authority.mac) && nonce != []
    ensures Vouched(env, authority.Issue(approval, issuedTo, nonce), action, identity, now, compensation)
       <==> GivenFor(approval, issuedTo, action, identity, now, compensation)
  {
    authority.IssuedVerifiesExactly(approval, issuedTo, nonce, action, identity, now, compensation);
  }

  /** An approval the authority issued gets a Human action past both gateways' test, or its compensation past that of the plain one, exactly if it was given for it. */
  lemma IssuedPassesExactly(env: Environment, authority: HmacApprovalAuthority, approval: ActionApproval, issuedTo: RequestIdentity, nonce: string,
                            s: GatewayState, l: Ledger, action: SourceActionPlan, preview: ActionPreview, identity: RequestIdentity,
                            receipt: SourceMutationReceipt, fate: Fate)
    requires Trusts(env, authority) && Injective(authority.mac) && nonce != [] && NeedsHuman(action)
    ensures var issued, now := authority.Issue(approval, issuedTo, nonce), env.clock(s.tick);
      && (Covered(preview, action, identity, now) ==>
            && (ExecuteNext(env, s, action, preview, identity, issued).1 != Err(ApprovalRequired)
                <==> GivenFor(approval, issuedTo, action, identity, now, false))
            && (ExecutePlay(env, s, l, action, preview, identity, issued, fate).outcome != Raised(ApprovalRequired)
                <==> GivenFor(approval, issuedTo, action, identity, now, false)))
      && (Compensable(action, receipt) ==>
            (CompensateNext(env, s, action, receipt, identity, issued).1 != Err(ApprovalRequired)
             <==> GivenFor(approval, issuedTo, action, identity, now, true)))
  {
    hide ExecuteNext, ExecutePlay, CompensateNext, GivenFor, Vouched, Covered, Trusts;
    var issued, now := authority.Issue(approval, issuedTo, nonce), env.clock(s.tick);
    IssuedVouches(env, authority, approval, issuedTo, nonce, action, identity, now, false);
    IssuedVouches(env, authority, approval, issuedTo, nonce, action, identity, now, true);
    ExecuteGuarded(env, s, action, preview, identity, issued);
    DurableGuarded(env, s, l, action, preview, identity, issued, fate);
    CompensateGuarded(env, s, action, receipt, identity, issued);
  }

  lemma AlteredIsNotVouched(env: Environment, authority: HmacApprovalAuthority, approval: ActionApproval, issuedTo: RequestIdentity, nonce: string,
                            altered: ActionApproval, action: SourceActionPlan, identity: RequestIdentity, now: int, compensation: bool)
    requires Trusts(env, authority) && Injective(authority.mac) && nonce != []
    requires authority.Credential(altered.approvalId).Some?
          && authority.Credential(altered.approvalId).value.1 == authority.mac(authority.Body(approval, issuedTo, nonce))
    requires altered != authority.Issue(approval, issuedTo, nonce).value
    ensures !Vouched(env, Some(altered), action, identity, now, compensation)
  {
    if authority.Verify(altered, action, identity, now, compensation) {
      authority.AcceptedWasIssued(altered, action, identity, now, compensation, approval, issuedTo, nonce);
    }
  }

  /** An approval that carries an issued signature and was altered in any field gets nothing written, compensated or handed over. */
  lemma AlteredNeverPasses(env: Environment, authority: HmacApprovalAuthority, approval: ActionApproval, issuedTo: RequestIdentity, nonce: string,
                           altered: ActionApproval, s: GatewayState, l: Ledger, action: SourceActionPlan, preview: ActionPreview,
                           identity: RequestIdentity, receipt: SourceMutationReceipt, fate: Fate)
    requires Trusts(env, authority) && Injective(authority.mac) && nonce != [] && NeedsHuman(action)
    requires authority.Credential(altered.approvalId).Some?
          && authority.Credential(altered.approvalId).value.1 == authority.mac(authority.Body(approval, issuedTo, nonce))
    requires altered != authority.Issue(approval, issuedTo, nonce).value
    ensures var (t, r) := ExecuteNext(env, s, action, preview, identity, Some(altered)); r.Err? && t.sources == s.sources
    ensures var (t, r) := CompensateNext(env, s, action, receipt, identity, Some(altered)); r.Err? && t.sources == s.sources
    ensures var p := ExecutePlay(env, s, l, action, preview, identity, Some(altered), fate);
      p.outcome.Raised? && p.journal == l && p.state.sources == s.sources
  {
    hide ExecuteNext, ExecutePlay, CompensateNext, Vouched, Covered, Trusts;
    var now := env.clock(s.tick);
    AlteredIsNotVouched(env, authority, approval, issuedTo, nonce, altered, action, identity, now, false);
    AlteredIsNotVouched(env, authority, approval, issuedTo, nonce, altered, action, identity, now, true);
    ExecutedWasVouched(env, s, action, preview, identity, Some(altered));
    var r := ExecuteNext(env, s, action, preview, identity, Some(altered)).1;
    assert r.Ok? || r.Err?;
    DurableGuarded(env, s, l, action, preview, identity, Some(altered), fate);
    CompensateGuarded(env, s, action, receipt, identity, Some(altered));
  }
}
