/** The approval authority that signs approvals and checks its own signatures. */
module ApprovalAuthority {
  import opened Wrappers
  import opened Actions

  // Everything a signature covers.
  datatype ApprovalBody = ApprovalBody(
    issuer: string, audience: string, nonce: string, actionDigest: ActionDigest, approverId: string, policyDigest: string,
    approvedAt: int, expiresAt: int, allowCompensation: bool,
    organizationId: string, solutionId: string, agentId: string, requestId: string)

  // HMAC under the authority's secret, in hexadecimal.
  type Mac = ApprovalBody -> string

  // No two bodies share a code, and hexadecimal holds no colon.
  ghost predicate Injective(mac: Mac) {
    && (forall a, b :: mac(a) == mac(b) ==> a == b)
    && (forall a :: ':' !in mac(a))
  }

  // rsplit(":", 1): the text before and after the last colon.
  function SplitLast(s: string): Option<(string, string)> {
    if s == [] then None
    else
      var n := |s| - 1;
      if s[n] == ':' then Some((s[..n], ""))
      else
        match SplitLast(s[..n])
        case None => None
        case Some((before, after)) => Some((before, after + [s[n]]))
  }

  lemma {:induction false} SplitsAtLast(before: string, after: string)
    requires ':' !in after
    ensures SplitLast(before + ":" + after) == Some((before, after))
  {
    var s := before + ":" + after;
    if after == [] {
      assert s[..|s| - 1] == before;
    } else {
      var n := |after| - 1;
      SplitsAtLast(before, after[..n]);
      assert s[..|s| - 1] == before + ":" + after[..n];
      assert after == after[..n] + [after[n]];
    }
  }

  lemma {:induction false} SplitRejoins(s: string)
    requires SplitLast(s).Some?
    ensures s == SplitLast(s).value.0 + ":" + SplitLast(s).value.1
  {
    var n := |s| - 1;
    assert s == s[..n] + [s[n]];
    if s[n] != ':' { SplitRejoins(s[..n]); }
  }

  datatype HmacApprovalAuthority = HmacApprovalAuthority(issuer: string, audience: string, mac: Mac)
  {
    function Body(approval: ActionApproval, identity: RequestIdentity, nonce: string): ApprovalBody {
      ApprovalBody(issuer, audience, nonce, approval.actionDigest, approval.approverId, approval.policyDigest,
        approval.approvedAt, approval.expiresAt, approval.allowCompensation,
        identity.organizationId, identity.solutionId, identity.agentId, identity.requestId)
    }

    function Prefix(): string { issuer + ":" }

    // None where an empty nonce is refused; the fields are those of the approval handed in, its id replaced.
    function Issue(approval: ActionApproval, identity: RequestIdentity, nonce: string): Option<ActionApproval> {
      if nonce == [] then None
      else Some(approval.(approvalId := Prefix() + (nonce + ":" + mac(Body(approval, identity, nonce)))))
    }

    // The nonce and the signature an approval id carries.
    function Credential(approvalId: string): Option<(string, string)> {
      if !(Prefix() <= approvalId) then None else SplitLast(approvalId[|Prefix()|..])
    }

    predicate Verify(approval: ActionApproval, action: SourceActionPlan, identity: RequestIdentity, now: int, compensation: bool) {
      match Credential(approval.approvalId)
      case None => false
      case Some((nonce, signature)) =>
        && signature == mac(Body(approval, identity, nonce))
        && approval.actionDigest == DigestOf(action)
        && approval.policyDigest == identity.policyDigest
        && approval.approvedAt <= now < approval.expiresAt
        && (!compensation || approval.allowCompensation)
    }

    // An approval is issued under any nonce but the empty one, and only its id is new.
    lemma IssuedUnderNonce(approval: ActionApproval, identity: RequestIdentity, nonce: string)
      ensures Issue(approval, identity, nonce).Some? <==> nonce != ""
      ensures nonce != "" ==>
        var issued := Issue(approval, identity, nonce).value; issued == approval.(approvalId := issued.approvalId)
    {
    }

    lemma CredentialReadsBack(approval: ActionApproval, identity: RequestIdentity, nonce: string)
      requires Injective(mac) && nonce != []
      ensures Credential(Issue(approval, identity, nonce).value.approvalId) == Some((nonce, mac(Body(approval, identity, nonce))))
    {
      var rest := nonce + ":" + mac(Body(approval, identity, nonce));
      var id := Prefix() + rest;
      SplitsAtLast(nonce, mac(Body(approval, identity, nonce)));
      assert Prefix() <= id && id[|Prefix()|..] == rest;
    }

    /** An issued approval is good for exactly its action, its requester, its policy and its time, and for compensation only if it says so. */
    lemma IssuedVerifiesExactly(approval: ActionApproval, issuedTo: RequestIdentity, nonce: string,
        action: SourceActionPlan, identity: RequestIdentity, now: int, compensation: bool)
      requires Injective(mac) && nonce != []
      ensures Verify(Issue(approval, issuedTo, nonce).value, action, identity, now, compensation) <==>
        && identity.organizationId == issuedTo.organizationId && identity.solutionId == issuedTo.solutionId
        && identity.agentId == issuedTo.agentId && identity.requestId == issuedTo.requestId
        && approval.actionDigest == DigestOf(action) && approval.policyDigest == identity.policyDigest
        && approval.approvedAt <= now < approval.expiresAt && (compensation ==> approval.allowCompensation)
    {
      CredentialReadsBack(approval, issuedTo, nonce);
    }

    /** An accepted approval that carries an issued signature is the issued approval, in every field. */
    lemma AcceptedWasIssued(presented: ActionApproval, action: SourceActionPlan, identity: RequestIdentity, now: int, compensation: bool,
        approval: ActionApproval, issuedTo: RequestIdentity, nonce: string)
      requires Injective(mac) && nonce != [] && Verify(presented, action, identity, now, compensation)
      requires Credential(presented.approvalId).value.1 == mac(Body(approval, issuedTo, nonce))
      ensures presented == Issue(approval, issuedTo, nonce).value
    {
      assert Body(presented, identity, Credential(presented.approvalId).value.0) == Body(approval, issuedTo, nonce);
      SplitRejoins(presented.approvalId[|Prefix()|..]);
      assert presented.approvalId == Prefix() + presented.approvalId[|Prefix()|..];
    }
  }

  /** An approval that one authority issued passes at no other of the same secret, issuer and audience apart. */
  lemma OthersRefuse(mine: HmacApprovalAuthority, other: HmacApprovalAuthority, approval: ActionApproval, issuedTo: RequestIdentity,
                     nonce: string, action: SourceActionPlan, identity: RequestIdentity, now: int, compensation: bool)
    requires Injective(mine.mac) && nonce != [] && other.mac == mine.mac
    requires other.issuer != mine.issuer || other.audience != mine.audience
    ensures !other.Verify(mine.Issue(approval, issuedTo, nonce).value, action, identity, now, compensation)
  {
    var issued, mac := mine.Issue(approval, issuedTo, nonce).value, mine.mac(mine.Body(approval, issuedTo, nonce));
    if other.Verify(issued, action, identity, now, compensation) {
      var (its, signature) := other.Credential(issued.approvalId).value;
      SplitRejoins(issued.approvalId[|other.Prefix()|..]);
      assert issued.approvalId == other.Prefix() + its + ":" + signature;
      SplitsAtLast(other.Prefix() + its, signature);
      assert issued.approvalId == mine.Prefix() + nonce + ":" + mac;
      SplitsAtLast(mine.Prefix() + nonce, mac);
    }
  }
}
