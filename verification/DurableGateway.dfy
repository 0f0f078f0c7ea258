/**
 The durable gateway as the code drives it: one call at a time, with every place the process may
 die or a reply may get lost.  Each call adds to the history the machine's steps for what happened,
 so whatever holds in every run of that machine holds of this class.
 */
module DurableGateway {
  import opened Wrappers
  import opened Scalars
  import opened HashChain
  import opened AuditLedger
  import opened Actions
  import opened LabSource
  import opened Gateway
  import opened Journal
  import opened RecoveryMachine
  import opened JournalIntegrity
  import opened DurablePlays
  import opened DurableRuns
  import RecoveryTheorems

  lemma Chain(h: seq<Step>, step: Step, rest: seq<Step>)
    ensures h + [step] + rest == h + ([step] + rest)
  {
  }

  class DurableActionGateway {
    const base: ActionGateway
    const journal: SQLiteActionJournal
    ghost var initial: World
    ghost var history: seq<Step>

    // A gateway is opened on a journal and sources that earlier processes may have used.
    constructor (base: ActionGateway, journal: SQLiteActionJournal, ghost initial: World, ghost history: seq<Step>)
      requires base.Valid() && Initial(initial)
      requires Quiet(Run(initial, history), journal.Contents(), base.Sources())
      ensures Valid() && this.base == base && this.journal == journal
      ensures this.initial == initial && this.history == history
    {
      this.base, this.journal, this.initial, this.history := base, journal, initial, history;
    }

    // What the machine has come to is what the journal and the sources hold.
    ghost predicate Valid()
      reads this, journal, base.Connectors()
    {
      base.Valid() && Initial(initial) && Quiet(World(), journal.Contents(), base.Sources())
    }

    ghost function World(): World
      reads this
    {
      Run(initial, history)
    }

    // The call did just this.
    twostate predicate Did(p: Played, outcome: CallOutcome)
      reads this, journal, base, base.audit, base.Connectors()
    {
      && base.State() == p.state && journal.Contents() == p.journal && outcome == p.outcome
      && initial == old(initial) && history == old(history) + p.steps
    }

    ghost method Record(step: Step)
      modifies this`history
      ensures history == old(history) + [step]
      ensures base.State() == old(base.State()) && journal.Contents() == old(journal.Contents())
    {
      history := history + [step];
    }

    // What execute does once the connector has answered or failed to.
    method Conclude(call: Call, hookFails: bool) returns (outcome: CallOutcome)
      requires call.SourceReturned?
      modifies this`history, journal, base`tick, base.audit
      ensures Did(SettlePlay(base.env, old(base.State()), old(journal.Contents()), call, hookFails), outcome)
    {
      hide FinishNext, EmitNext, CompletionNext, EndingText, OutcomeOf;
      var done := Audit(call, hookFails);
      var ending := EndingOf(call, hookFails, done);
      ghost var audited := base.State();
      var _ := journal.Finish(call.action, ending, done.completedAt);
      assert base.State() == audited;
      base.Emit("data.harness.action." + EndingText(ending), call.action.actionId);
      Record(Resume(0, hookFails, done));
      return OutcomeOf(ending);
    }

    method Audit(call: Call, hookFails: bool) returns (done: Completion)
      requires call.SourceReturned?
      modifies base`tick, base.audit
      ensures (base.State(), done) == CompletionNext(base.env, old(base.State()), call, hookFails)
    {
      var completed := base.Now();
      if call.outcome.Err? || hookFails {
        return Completion(completed, "", Genesis);
      }
      var state := if Succeeded(call.outcome.value) then ActionState.Executed else ActionState.Failed;
      var auditDigest := base.Log(StateText(state), call.action.actionId, completed,
        map["source_version" := Text(call.outcome.value.sourceVersion)]);
      return Completion(completed, "receipt:" + call.action.actionId + ":" + IntText(|base.audit.entries|), auditDigest);
    }

    // The reply is given up for lost.
    method Lose(lost: Call) returns (outcome: CallOutcome)
      requires lost.SourceReturned?
      modifies this`history, journal, base`tick, base.audit
      ensures Did(After(LoseReply(0), SettlePlay(base.env, old(base.State()), old(journal.Contents()), lost, false)), outcome)
    {
      hide SettlePlay;
      Record(LoseReply(0));
      outcome := Conclude(lost, false);
      Chain(old(history), LoseReply(0), SettlePlay(base.env, old(base.State()), old(journal.Contents()), lost, false).steps);
    }

    method SendIntoSilence(action: SourceActionPlan, now: int, decisionId: string, arrived: bool) returns (outcome: CallOutcome)
      requires base.Valid() && action.sourceId in base.registry
      modifies this`history, journal, base`tick, base.audit, base.registry[action.sourceId]
      ensures Did(SendPlay(base.env, old(base.State()), old(journal.Contents()), action, now, decisionId, ReplyLost(arrived)), outcome)
    {
      hide MutateNext, SettlePlay;
      var lost := SourceReturned(action, now, decisionId, Err(ConnectionLost));
      ghost var l := journal.Contents();
      if arrived {
        var _ := base.Mutate(action);
        Record(Deliver(0));
        ghost var s := base.State();
        outcome := Lose(lost);
        Chain(old(history), Deliver(0), [LoseReply(0)] + SettlePlay(base.env, s, l, lost, false).steps);
      } else {
        outcome := Lose(lost);
      }
    }

    // The request goes out, and the reply comes back or does not.
    method Send(action: SourceActionPlan, now: int, decisionId: string, fate: Fate) returns (outcome: CallOutcome)
      requires base.Valid() && action.sourceId in base.registry
      modifies this`history, journal, base`tick, base.audit, base.registry[action.sourceId]
      ensures Did(SendPlay(base.env, old(base.State()), old(journal.Contents()), action, now, decisionId, fate), outcome)
    {
      hide MutateNext, SettlePlay;
      ghost var l := journal.Contents();
      match fate
      case ReplyLost(arrived) => outcome := SendIntoSilence(action, now, decisionId, arrived);
      case Replies(hookFails) =>
        var reply := base.Mutate(action);
        ghost var delivered := base.State();
        Record(Deliver(0));
        var call := SourceReturned(action, now, decisionId, reply);
        outcome := Conclude(call, hookFails);
        Chain(old(history), Deliver(0), SettlePlay(base.env, delivered, l, call, hookFails).steps);
      case DiesAfterDelivery =>
        var _ := base.Mutate(action);
        Record(Deliver(0));
        Record(Crash);
        Chain(old(history), Deliver(0), [Crash]);
        return Died;
      case _ =>
        Record(Crash);
        return Died;
    }

    method Replayed(action: SourceActionPlan, now: int, receipt: SourceMutationReceipt) returns (r: SourceMutationReceipt)
      modifies base`tick, base.audit
      ensures (base.State(), r) == ReplayNext(base.env, old(base.State()), action, now, receipt)
    {
      var auditDigest := base.Log("replayed", action.actionId, now, map["receipt_id" := Text(receipt.receiptId)]);
      base.Emit("data.harness.action.replayed", action.actionId);
      return receipt.(state := AlreadyExecuted, completedAt := now, auditDigest := auditDigest);
    }

    // prepare, the replay test and begin.
    method PrepareAndBegin(action: SourceActionPlan, decisionId: string, now: int) returns (result: WriteAheadResult)
      modifies journal
      ensures (journal.Contents(), result) == WriteAhead(old(journal.Contents()), action, decisionId, now)
    {
      var prepared := journal.Prepare(action, decisionId, now);
      if prepared.Err? {
        return Refused(prepared.error);
      }
      if prepared.value.state.Executed? && prepared.value.receipt.Some? {
        return Replay(prepared.value.receipt.value);
      }
      var begun := journal.Begin(action, now);
      return if begun.Err? then Refused(begun.error) else WriteAheadResult.Send;
    }

    // From the decision to the end of the call.
    method Decide(action: SourceActionPlan, now: int, decision: PolicyDecision, fate: Fate) returns (outcome: CallOutcome)
      requires base.Valid()
      modifies this`history, journal, base`tick, base.audit, base.Connectors()
      ensures Did(DecidePlay(base.env, old(base.State()), old(journal.Contents()), action, now, decision, fate), outcome)
    {
      hide WriteAhead, PrepareNext, SendPlay, ReplayNext;
      if !decision.allowed {
        Record(Authorized(0, decision));
        return Raised(PolicyDenied(decision));
      }
      ghost var s := base.State();
      if fate.DiesAfterPrepare? {
        var _ := journal.Prepare(action, decision.decisionId, now);
        Record(DieAfterPrepare(0, decision));
        assert base.State() == s;
        return Died;
      }
      var result := PrepareAndBegin(action, decision.decisionId, now);
      assert base.State() == s;
      if fate.DiesAfterBegin? {
        Record(DieAfterBegin(0, decision));
        return Died;
      }
      Record(Authorized(0, decision));
      match result
      case Refused(error) => return Raised(error);
      case Replay(receipt) =>
        var replayed := Replayed(action, now, receipt);
        return Returned(replayed);
      case Send =>
        if action.sourceId !in base.registry {
          return Raised(MissingKey);
        }
        ghost var l := journal.Contents();
        outcome := Send(action, now, decision.decisionId, fate);
        Chain(old(history), Authorized(0, decision), SendPlay(base.env, s, l, action, now, decision.decisionId, fate).steps);
    }

    /** execute(): does what ExecutePlay says, which is what the machine does in the steps it adds to the history. */
    method Execute(action: SourceActionPlan, preview: ActionPreview, identity: RequestIdentity,
                   approval: Option<ActionApproval>, fate: Fate) returns (outcome: CallOutcome)
      requires Valid()
      modifies this`history, journal, base`tick, base.audit, base.Connectors()
      ensures Valid()
      ensures Did(ExecutePlay(base.env, old(base.State()), old(journal.Contents()), action, preview, identity, approval, fate), outcome)
      ensures World().dispatched == old(World()).dispatched
        + if HandsOver(base.env, old(base.State()), old(journal.Contents()), action, preview, identity, approval, fate) then [action] else []
    {
      hide Run, DecidePlay, Sends;
      ghost var w, s := World(), base.State();
      ExecuteIsARun(w, base.env, s, action, preview, identity, approval, fate);
      RunSplits(initial, history, ExecutePlay(base.env, s, w.journal, action, preview, identity, approval, fate).steps);
      var now := base.Now();
      if !PreviewBinds(action, preview, identity, now) {
        return Raised(PreviewMismatch);
      }
      if !ApprovalHolds(base.env.verifier, action, approval, identity, now, false) {
        return Raised(ApprovalRequired);
      }
      Record(Enter(0, action, now));
      if fate.DiesAwaitingPolicy? {
        Record(Crash);
        Chain(old(history), Enter(0, action, now), [Crash]);
        return Died;
      }
      var decision := base.Authorize(action, identity, "execute");
      ghost var asked := base.State();
      outcome := Decide(action, now, decision, fate);
      Chain(old(history), Enter(0, action, now), DecidePlay(base.env, asked, w.journal, action, now, decision, fate).steps);
    }

    method AuditRecovery(call: Call) returns (done: Completion)
      requires call.ReconcileReturned?
      modifies base`tick, base.audit
      ensures (base.State(), done) == RecoveryNext(base.env, old(base.State()), call)
    {
      var completed := base.Now();
      if !Proven(call.reply) {
        return Completion(completed, "", Genesis);
      }
      var auditDigest := base.Log("recovered", call.action.actionId, completed,
        map["source_version" := Text(call.reply.sourceVersion)]);
      return Completion(completed, "", auditDigest);
    }

    method ConcludeReconcile(call: Call) returns (outcome: CallOutcome)
      requires call.ReconcileReturned?
      modifies this`history, journal, base`tick, base.audit
      ensures Did(AnswerPlay(base.env, old(base.State()), old(journal.Contents()), call), outcome)
    {
      hide FinishNext, EmitNext, RecoveryNext, OutcomeOf;
      var done := AuditRecovery(call);
      var ending := ReconcileEnding(call, done);
      ghost var audited := base.State();
      var _ := journal.Finish(call.action, ending, done.completedAt);
      assert base.State() == audited;
      if ending.Settled? {
        base.Emit("data.harness.action.recovered", call.action.actionId);
      }
      Record(ResumeReconcile(0, done));
      return OutcomeOf(ending);
    }

    method Ask(call: Call, fate: ReconcileFate) returns (outcome: CallOutcome)
      requires call.ReconcileAsking? && call.action.sourceId in base.registry
      modifies this`history, journal, base`tick, base.audit
      ensures Did(AskPlay(base.env, old(base.State()), old(journal.Contents()), call, fate), outcome)
    {
      hide AnswerPlay;
      ghost var s, l := base.State(), journal.Contents();
      match fate
      case SourceUnreachable =>
        Record(Cancel(0));
        return Raised(ConnectorError);
      case Answers =>
        var reply := base.registry[call.action.sourceId].Reconcile(call.action.actionId, call.action.idempotencyKey);
        assert base.State() == s;
        Record(Answer(0));
        var answered := ReconcileReturned(call.action, call.decisionId, call.startedAt, reply);
        outcome := ConcludeReconcile(answered);
        Chain(old(history), Answer(0), AnswerPlay(base.env, s, l, answered).steps);
      case _ =>
        Record(Crash);
        return Died;
    }

    method AllowedReconcile(action: SourceActionPlan, decision: PolicyDecision, fate: ReconcileFate) returns (outcome: CallOutcome)
      modifies this`history, journal, base`tick, base.audit
      ensures Did(AllowedReconcilePlay(base.env, old(base.State()), old(journal.Contents()), action, decision, fate), outcome)
    {
      hide AskPlay;
      Record(ReconcileAuthorized(0, decision));
      var key := KeyOf(action);
      if key !in journal.records || journal.records[key].actionDigest != DigestOf(action) {
        return Raised(IdempotencyConflict);
      }
      var record := journal.records[key];
      if record.state.Executed? && record.receipt.Some? {
        return Returned(record.receipt.value);
      }
      if !Uncertain(record.state) {
        return Raised(ActionOutcomeUnknown);
      }
      if action.sourceId !in base.registry {
        return Raised(MissingKey);
      }
      ghost var s, l := base.State(), journal.Contents();
      var call := ReconcileAsking(action, decision.decisionId, record.startedAt);
      outcome := Ask(call, fate);
      Chain(old(history), ReconcileAuthorized(0, decision), AskPlay(base.env, s, l, call, fate).steps);
    }

    /** reconcile(): does what ReconcilePlay says, which is what the machine does in the steps it adds to the history. */
    method Reconcile(action: SourceActionPlan, identity: RequestIdentity, fate: ReconcileFate) returns (outcome: CallOutcome)
      requires Valid()
      modifies this`history, journal, base`tick, base.audit
      ensures Valid() && World().dispatched == old(World()).dispatched
      ensures Did(ReconcilePlay(base.env, old(base.State()), old(journal.Contents()), action, identity, fate), outcome)
    {
      hide Run, AllowedReconcilePlay;
      ghost var w, s := World(), base.State();
      ReconcileIsARun(w, base.env, s, action, identity, fate);
      RunSplits(initial, history, ReconcilePlay(base.env, s, w.journal, action, identity, fate).steps);
      Record(EnterReconcile(0, action));
      var decision := base.Authorize(action, identity, "reconcile");
      if fate.DiesBeforeAsking? {
        Record(Crash);
        Chain(old(history), EnterReconcile(0, action), [Crash]);
        return Died;
      }
      if !decision.allowed {
        Record(ReconcileAuthorized(0, decision));
        Chain(old(history), EnterReconcile(0, action), [ReconcileAuthorized(0, decision)]);
        return Raised(PolicyDenied(decision));
      }
      ghost var asked := base.State();
      outcome := AllowedReconcile(action, decision, fate);
      Chain(old(history), EnterReconcile(0, action), AllowedReconcilePlay(base.env, asked, w.journal, action, decision, fate).steps);
    }
  }

  /** Whatever calls and deaths led here: nothing was sent twice, and verify() means what it means in every run. */
  lemma EveryGatewayIsARun(g: DurableActionGateway)
    requires g.Valid()
    ensures forall i, j :: 0 <= i < j < |g.World().dispatched| ==>
      KeyOf(g.World().dispatched[i]) != KeyOf(g.World().dispatched[j])
    ensures forall k :: k in g.journal.records && g.journal.records[k].state == Prepared && k.0 in g.base.registry ==>
      k.1 !in g.base.registry[k.0].idempotency
    ensures Accepted(g.journal.Contents()) <==> NoneFailed(g.journal.Contents()) && DistinctActionIds(g.journal.Contents())
  {
    RecoveryTheorems.AtMostOnceDispatch(g.initial, g.history);
    RecoveryTheorems.VerifyInRuns(g.initial, g.history);
    forall k | k in g.journal.records && g.journal.records[k].state == Prepared && k.0 in g.base.registry
      ensures k.1 !in g.base.registry[k.0].idempotency
    {
      RecoveryTheorems.JournalMatchesSource(g.initial, g.history, k);
      assert g.base.Sources()[k.0] == g.base.registry[k.0].State();
    }
  }
}
