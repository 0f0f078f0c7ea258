/** The invariant that ties the journal, the sources and the calls in flight together in every run. */
module RecoverySafety {
  import opened Wrappers
  import opened Scalars
  import opened Actions
  import opened LabSource
  import opened Journal
  import opened JournalIntegrity
  import opened RecoveryMachine

  ghost predicate Held(w: World, k: Key) {
    k.0 in w.sources && k.1 in w.sources[k.0].idempotency
  }

  // The source recorded the action's key for this very action.
  ghost predicate HeldFor(w: World, action: SourceActionPlan) {
    && Held(w, KeyOf(action))
    && var (actionId, reply) := w.sources[action.sourceId].idempotency[action.idempotencyKey];
       actionId == action.actionId && reply.success && (reply.postconditionsMet <==> TextValued(action))
  }

  ghost predicate Began(w: World, action: SourceActionPlan) {
    Bound(w.journal, action) && w.journal.records[KeyOf(action)].state != Prepared
  }

  ghost predicate SourcePhase(call: Call) { call.AwaitingSource? || call.SourceReturned? }

  ghost predicate CallSound(w: World, call: Call) {
    match call
    case AwaitingPolicy(_, _) => true
    case ReconcileAwaitingPolicy(_) => true
    case AwaitingSource(a, _, _) => a in w.dispatched && !Held(w, KeyOf(a)) && a !in w.adrift
    case SourceReturned(a, _, _, outcome) =>
      && a in w.dispatched
      && (outcome.Ok? && outcome.value.success ==> HeldFor(w, a) && outcome.value.postconditionsMet == TextValued(a))
      && (outcome.Ok? && !outcome.value.success ==> !Held(w, KeyOf(a)) && a !in w.adrift)
    case ReconcileAsking(a, _, _) => Began(w, a)
    case ReconcileReturned(a, _, _, reply) => Began(w, a) && (Proven(reply) ==> HeldFor(w, a) && TextValued(a))
  }

  ghost predicate CallsSound(w: World) {
    forall id :: id in w.calls ==> CallSound(w, w.calls[id])
  }

  // At most one call at a time is past the point of sending for a given key.
  ghost predicate CallsApart(w: World) {
    forall i, j | i in w.calls && j in w.calls && SourcePhase(w.calls[i]) && SourcePhase(w.calls[j]) ::
      KeyOf(w.calls[i].action) == KeyOf(w.calls[j].action) ==> i == j
  }

  ghost predicate AdriftSound(w: World) {
    forall a :: a in w.adrift ==> a in w.dispatched && !Held(w, KeyOf(a))
  }

  ghost predicate DispatchedOnce(w: World) {
    forall i, j :: 0 <= i < j < |w.dispatched| ==> KeyOf(w.dispatched[i]) != KeyOf(w.dispatched[j])
  }

  ghost predicate DispatchedBegan(w: World) {
    forall a :: a in w.dispatched ==> Began(w, a)
  }

  // Every key a source holds was put there by a dispatched action.
  ghost predicate HeldSound(w: World) {
    forall k: Key :: Held(w, k) ==>
      && k in w.journal.records
      && var plan := w.journal.records[k].actionDigest.plan; plan in w.dispatched && HeldFor(w, plan)
  }

  ghost predicate Idle(w: World, action: SourceActionPlan) {
    && action !in w.adrift
    && forall id :: id in w.calls && SourcePhase(w.calls[id]) ==> KeyOf(w.calls[id].action) != KeyOf(action)
  }

  ghost predicate RecordSettled(w: World, record: ActionRecord) {
    var plan := record.actionDigest.plan;
    && (record.state.Executed? ==> HeldFor(w, plan) && TextValued(plan))
    && (record.state.Failed? ==> plan in w.dispatched && Idle(w, plan) && (Held(w, KeyOf(plan)) ==> !TextValued(plan)))
  }

  ghost predicate RecordsSettled(w: World) {
    forall k :: k in w.journal.records ==> RecordSettled(w, w.journal.records[k])
  }

  ghost predicate Joint(w: World) {
    && CallsSound(w) && CallsApart(w) && AdriftSound(w)
    && DispatchedOnce(w) && DispatchedBegan(w) && HeldSound(w) && RecordsSettled(w)
  }

  ghost predicate Inv(w: World) {
    LedgerInv(w.journal) && Joint(w)
  }

  lemma InitialInv(w: World)
    requires Initial(w)
    ensures Inv(w)
  {
  }

  // --- Steps that only move calls ---

  // A call that is not past the point of sending may be replaced by any sound one.
  lemma SetCallJoint(w: World, id: nat, call: Call)
    requires Joint(w) && !SourcePhase(call) && CallSound(w, call)
    ensures Joint(w.(calls := w.calls[id := call]))
  {
  }

  lemma DropJoint(w: World, id: nat)
    requires Joint(w)
    ensures Joint(Drop(w, id))
  {
  }

  lemma KillJoint(w: World)
    requires Joint(w)
    ensures Joint(Kill(w))
  {
  }

  lemma LoseReplyJoint(w: World, id: nat)
    requires Joint(w) && id in w.calls && SourcePhase(w.calls[id])
    ensures Joint(LoseReplyNext(w, id))
  {
  }

  // Cancelling a call is losing its reply and then forgetting it.
  lemma CancelJoint(w: World, id: nat)
    requires Joint(w)
    ensures Joint(Next(w, Cancel(id)))
  {
    if id in w.calls && w.calls[id].AwaitingSource? {
      LoseReplyJoint(w, id);
      DropJoint(LoseReplyNext(w, id), id);
      assert Next(w, Cancel(id)) == Drop(LoseReplyNext(w, id), id);
    } else {
      DropJoint(w, id);
    }
  }

  // --- Steps in which a source serves a request ---

  // The sources of w' are those of w after serving the action; applied says whether it took effect.
  ghost predicate Served(w: World, w': World, action: SourceActionPlan, applied: bool) {
    && w'.journal == w.journal && w'.dispatched == w.dispatched
    && (forall k :: Held(w', k) <==> Held(w, k) || (applied && k == KeyOf(action)))
    && (forall b :: HeldFor(w, b) ==> HeldFor(w', b))
    && (applied ==> HeldFor(w', action))
  }

  lemma SourceServes(w: World, w': World, action: SourceActionPlan) returns (applied: bool)
    requires action.sourceId in w.sources && !Held(w, KeyOf(action))
    requires w'.sources == w.sources[action.sourceId := MutateNext(w.sources[action.sourceId], RequestOf(action)).0]
    requires w'.journal == w.journal && w'.dispatched == w.dispatched
    ensures Served(w, w', action, applied)
    ensures var outcome := MutateNext(w.sources[action.sourceId], RequestOf(action)).1;
      && (applied <==> outcome.Ok? && outcome.value.success)
      && (applied ==> outcome.value.postconditionsMet == TextValued(action))
  {
    var (source, outcome) := MutateNext(w.sources[action.sourceId], RequestOf(action));
    applied := outcome.Ok? && outcome.value.success;
  }

  lemma ServedSettles(w: World, w': World, action: SourceActionPlan, applied: bool)
    requires Joint(w) && Served(w, w', action, applied)
    requires action in w.dispatched
    requires action in w'.adrift ==> !applied
    requires w'.adrift <= w.adrift && w.adrift <= w'.adrift + {action}
    requires w'.calls.Keys == w.calls.Keys
    requires forall id :: id in w.calls ==>
      w'.calls[id] == w.calls[id] || (w.calls[id].action == action && SourcePhase(w.calls[id]) && SourcePhase(w'.calls[id])
                                      && w'.calls[id].action == action)
    requires action in w.adrift || exists id :: id in w.calls && SourcePhase(w.calls[id]) && w.calls[id].action == action
    ensures AdriftSound(w') && HeldSound(w') && RecordsSettled(w') && CallsApart(w')
  {
    forall k | k in w'.journal.records ensures RecordSettled(w', w'.journal.records[k]) {
      assert RecordSettled(w, w.journal.records[k]);
    }
  }

  lemma DeliverJoint(w: World, id: nat)
    requires Joint(w) && id in w.calls && w.calls[id].AwaitingSource? && w.calls[id].action.sourceId in w.sources
    ensures Joint(DeliverNext(w, id))
  {
    assert CallSound(w, w.calls[id]);
    var w' := DeliverNext(w, id);
    var applied := SourceServes(w, w', w.calls[id].action);
    DeliveredJoint(w, w', id, applied);
  }

  lemma DeliveredJoint(w: World, w': World, id: nat, applied: bool)
    requires Joint(w) && id in w.calls && w.calls[id].AwaitingSource? && Served(w, w', w.calls[id].action, applied)
    requires w'.adrift == w.adrift && id in w'.calls && w'.calls == w.calls[id := w'.calls[id]]
    requires w'.calls[id].SourceReturned? && w'.calls[id].action == w.calls[id].action
    requires applied <==> w'.calls[id].outcome.Ok? && w'.calls[id].outcome.value.success
    requires applied ==> w'.calls[id].outcome.value.postconditionsMet == TextValued(w.calls[id].action)
    ensures Joint(w')
  {
    var action := w.calls[id].action;
    assert CallSound(w, w.calls[id]);
    ServedSettles(w, w', action, applied);
    forall i | i in w'.calls ensures CallSound(w', w'.calls[i]) {
      assert CallSound(w, w.calls[i]);
      if i != id && SourcePhase(w.calls[i]) { assert KeyOf(w.calls[i].action) != KeyOf(action); }
    }
  }

  lemma DeliverAdriftJoint(w: World, action: SourceActionPlan)
    requires Joint(w) && action in w.adrift && action.sourceId in w.sources
    ensures Joint(DeliverAdriftNext(w, action))
  {
    var w' := DeliverAdriftNext(w, action);
    var applied := SourceServes(w, w', action);
    AdriftDeliveredJoint(w, w', action, applied);
  }

  lemma AdriftDeliveredJoint(w: World, w': World, action: SourceActionPlan, applied: bool)
    requires Joint(w) && action in w.adrift && Served(w, w', action, applied)
    requires w'.adrift == w.adrift - {action} && w'.calls == w.calls
    ensures Joint(w')
  {
  }

  // --- Steps that move a record ---

  lemma RecordJoint(w: World, journal: Ledger, k: Key, record: ActionRecord)
    requires Joint(w) && RecordSettled(w, record) && KeyOf(record.actionDigest.plan) == k
    requires journal.records == w.journal.records[k := record]
    requires k in w.journal.records ==>
      record.actionDigest == w.journal.records[k].actionDigest && record.state != Prepared
    ensures Joint(w.(journal := journal))
  {
    var w' := w.(journal := journal);
    forall a | Began(w, a) ensures Began(w', a) {}
    forall id | id in w'.calls ensures CallSound(w', w'.calls[id]) { assert CallSound(w, w.calls[id]); }
    forall j | j in w'.journal.records ensures RecordSettled(w', w'.journal.records[j]) {
      assert j != k ==> RecordSettled(w, w.journal.records[j]);
    }
  }

  // What prepare, the replay test and begin do together.
  lemma WriteAheadFacts(l: Ledger, action: SourceActionPlan, decisionId: string, now: int)
    requires LedgerInv(l)
    ensures var (l', result) := WriteAhead(l, action, decisionId, now);
      && (result.Send? <==> KeyOf(action) !in l.records || (Bound(l, action) && l.records[KeyOf(action)].state == Prepared))
      && (!result.Send? ==> l' == l)
      && (result.Send? ==> Bound(l', action) && l'.records[KeyOf(action)].state == Executing
                           && l'.records == l.records[KeyOf(action) := l'.records[KeyOf(action)]])
  {
    if KeyOf(action) in l.records { assert RecordSound(l.events, KeyOf(action), l.records[KeyOf(action)]); }
  }

  lemma WriteAheadKeepsLedger(l: Ledger, action: SourceActionPlan, decisionId: string, now: int)
    requires LedgerInv(l)
    ensures LedgerInv(WriteAhead(l, action, decisionId, now).0)
  {
    PrepareKeepsLedger(l, action, decisionId, now);
    BeginKeepsLedger(PrepareNext(l, action, decisionId, now).0, action, now);
  }

  lemma PlanKeys(l: Ledger, k: Key)
    requires LedgerInv(l) && k in l.records
    ensures KeyOf(l.records[k].actionDigest.plan) == k
  {
  }

  lemma SendJoint(w: World, id: nat, action: SourceActionPlan, now: int, decisionId: string)
    requires Joint(w) && Began(w, action)
    requires forall b :: b in w.dispatched ==> KeyOf(b) != KeyOf(action)
    requires forall k :: k in w.journal.records ==> KeyOf(w.journal.records[k].actionDigest.plan) == k
    requires w.journal.records[KeyOf(action)].state == Executing
    ensures Joint(w.(dispatched := w.dispatched + [action],
                     calls := w.calls[id := AwaitingSource(action, now, decisionId)]))
  {
    var w' := w.(dispatched := w.dispatched + [action], calls := w.calls[id := AwaitingSource(action, now, decisionId)]);
    assert !Held(w, KeyOf(action));
    forall i | i in w'.calls ensures CallSound(w', w'.calls[i]) {
      assert i != id ==> CallSound(w, w.calls[i]);
    }
    forall k | k in w'.journal.records ensures RecordSettled(w', w'.journal.records[k]) {
      assert RecordSettled(w, w.journal.records[k]);
    }
  }

  lemma AuthorizedInv(w: World, id: nat, decision: PolicyDecision)
    requires Inv(w) && id in w.calls && w.calls[id].AwaitingPolicy?
    ensures Inv(AuthorizedNext(w, id, decision))
  {
    var call := w.calls[id];
    var (journal, result) := WriteAhead(w.journal, call.action, decision.decisionId, call.now);
    WriteAheadFacts(w.journal, call.action, decision.decisionId, call.now);
    WriteAheadKeepsLedger(w.journal, call.action, decision.decisionId, call.now);
    DropJoint(w, id);
    if decision.allowed && result.Send? {
      var k := KeyOf(call.action);
      forall b | b in w.dispatched ensures KeyOf(b) != k { assert Began(w, b); }
      RecordJoint(w, journal, k, journal.records[k]);
      var w' := w.(journal := journal);
      if call.action.sourceId in w.sources {
        forall j | j in journal.records ensures KeyOf(journal.records[j].actionDigest.plan) == j { PlanKeys(journal, j); }
        SendJoint(w', id, call.action, call.now, decision.decisionId);
      } else {
        DropJoint(w', id);
      }
    }
  }

  // What the source or its reconciliation proved before an outcome is written down.
  ghost predicate EndingJustified(w: World, id: nat, ending: Ending)
    requires id in w.calls
  {
    var a := w.calls[id].action;
    && EndingAllowed(w.journal, a, ending)
    && (ending.Settled? && ending.state.Executed? ==> HeldFor(w, a) && TextValued(a))
    && (ending.Settled? && ending.state.Failed? ==>
          a in w.dispatched && Idle(Drop(w, id), a) && (Held(w, KeyOf(a)) ==> !TextValued(a)))
  }

  lemma FinishCallInv(w: World, id: nat, ending: Ending, now: int)
    requires Inv(w) && id in w.calls && Began(w, w.calls[id].action)
    requires EndingJustified(w, id, ending)
    ensures Inv(FinishCall(w, id, ending, now))
  {
    var action := w.calls[id].action;
    var (journal, r) := FinishNext(w.journal, action, ending, now);
    FinishKeepsLedger(w.journal, action, ending, now);
    PlanKeys(w.journal, KeyOf(action));
    DropJoint(w, id);
    RecordJoint(Drop(w, id), journal, KeyOf(action), r.value);
  }

  lemma ResumeJustified(w: World, id: nat, hookFails: bool, done: Completion)
    requires Joint(w) && id in w.calls && w.calls[id].SourceReturned?
    ensures Began(w, w.calls[id].action) && EndingJustified(w, id, EndingOf(w.calls[id], hookFails, done))
  {
  }

  lemma ReconcileJustified(w: World, id: nat, done: Completion)
    requires Joint(w) && id in w.calls && w.calls[id].ReconcileReturned?
    ensures Began(w, w.calls[id].action) && EndingJustified(w, id, ReconcileEnding(w.calls[id], done))
  {
  }

  lemma DieInv(w: World, id: nat, decision: PolicyDecision)
    requires Inv(w)
    ensures Inv(Next(w, DieAfterPrepare(id, decision))) && Inv(Next(w, DieAfterBegin(id, decision)))
  {
    if Allowed(w, id, decision) {
      var action, now := w.calls[id].action, w.calls[id].now;
      var k := KeyOf(action);
      var prepared := PrepareNext(w.journal, action, decision.decisionId, now).0;
      PrepareKeepsLedger(w.journal, action, decision.decisionId, now);
      if k !in w.journal.records { RecordJoint(w, prepared, k, prepared.records[k]); }
      KillJoint(w.(journal := prepared));
      var (begun, result) := WriteAhead(w.journal, action, decision.decisionId, now);
      WriteAheadFacts(w.journal, action, decision.decisionId, now);
      WriteAheadKeepsLedger(w.journal, action, decision.decisionId, now);
      if result.Send? { RecordJoint(w, begun, k, begun.records[k]); }
      KillJoint(w.(journal := begun));
    }
  }

  // --- Every run ---

  lemma StepInv(w: World, step: Step)
    requires Inv(w)
    ensures Inv(Next(w, step))
  {
    hide LedgerInv, CallsSound, CallsApart, AdriftSound, DispatchedOnce, DispatchedBegan, HeldSound, RecordsSettled;
    match step {
      case Enter(id, action, now) => if id !in w.calls { SetCallJoint(w, id, AwaitingPolicy(action, now)); }
      case Authorized(id, decision) => if id in w.calls && w.calls[id].AwaitingPolicy? { AuthorizedInv(w, id, decision); }
      case DieAfterPrepare(id, decision) => DieInv(w, id, decision);
      case DieAfterBegin(id, decision) => DieInv(w, id, decision);
      case Deliver(id) =>
        if id in w.calls && w.calls[id].AwaitingSource? && w.calls[id].action.sourceId in w.sources { DeliverJoint(w, id); }
      case LoseReply(id) => if id in w.calls && SourcePhase(w.calls[id]) { LoseReplyJoint(w, id); }
      case Resume(id, hookFails, done) =>
        if id in w.calls && w.calls[id].SourceReturned? {
          ResumeJustified(w, id, hookFails, done);
          FinishCallInv(w, id, EndingOf(w.calls[id], hookFails, done), done.completedAt);
        }
      case EnterReconcile(id, action) => if id !in w.calls { SetCallJoint(w, id, ReconcileAwaitingPolicy(action)); }
      case ReconcileAuthorized(id, decision) => ReconcileStepsJoint(w, id, decision);
      case Answer(id) => ReconcileStepsJoint(w, id, PolicyDecision(false, ""));
      case ResumeReconcile(id, done) =>
        if id in w.calls && w.calls[id].ReconcileReturned? {
          ReconcileJustified(w, id, done);
          FinishCallInv(w, id, ReconcileEnding(w.calls[id], done), done.completedAt);
        }
      case Cancel(id) => CancelJoint(w, id);
      case Crash => KillJoint(w);
      case DeliverAdrift(action) =>
        if action in w.adrift && action.sourceId in w.sources { DeliverAdriftJoint(w, action); }
    }
  }

  lemma ReconcileStepsJoint(w: World, id: nat, decision: PolicyDecision)
    requires Joint(w)
    ensures Joint(Next(w, ReconcileAuthorized(id, decision))) && Joint(Next(w, Answer(id)))
  {
    if id in w.calls {
      assert CallSound(w, w.calls[id]);
      DropJoint(w, id);
      if w.calls[id].ReconcileAwaitingPolicy? {
        var w' := ReconcileAuthorizedNext(w, id, decision);
        if id in w'.calls { SetCallJoint(w, id, w'.calls[id]); }
      }
      if w.calls[id].ReconcileAsking? && w.calls[id].action.sourceId in w.sources {
        SetCallJoint(w, id, AnswerNext(w, id).calls[id]);
      }
    }
  }

  lemma {:induction false} RunInv(w: World, steps: seq<Step>)
    requires Inv(w)
    ensures Inv(Run(w, steps))
  {
    if steps != [] {
      RunInv(w, steps[..|steps| - 1]);
      StepInv(Run(w, steps[..|steps| - 1]), steps[|steps| - 1]);
    }
  }
}
