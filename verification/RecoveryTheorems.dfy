/** What holds in every run of the durable gateway, whatever is interleaved, lost or killed. */
module RecoveryTheorems {
  import opened Wrappers
  import opened Scalars
  import opened HashChain
  import opened AuditLedger
  import opened Actions
  import opened LabSource
  import opened Journal
  import opened JournalIntegrity
  import opened RecoveryMachine
  import opened RecoverySafety

  predicate Terminal(state: DurableState) { state.Executed? || state.Failed? }

  /** No key is ever handed to a connector twice, and the attempt is on record. */
  lemma AtMostOnceDispatch(w: World, steps: seq<Step>)
    requires Initial(w)
    ensures var t := Run(w, steps);
      && (forall i, j :: 0 <= i < j < |t.dispatched| ==> KeyOf(t.dispatched[i]) != KeyOf(t.dispatched[j]))
      && (forall a :: a in t.dispatched ==>
            Bound(t.journal, a) && t.journal.records[KeyOf(a)].attempts == 1 && t.journal.records[KeyOf(a)].state != Prepared)
  {
    InitialInv(w);
    RunInv(w, steps);
    var t := Run(w, steps);
    forall a | a in t.dispatched
      ensures Bound(t.journal, a) && t.journal.records[KeyOf(a)].attempts == 1 && t.journal.records[KeyOf(a)].state != Prepared
    {
      assert Began(t, a);
      assert RecordSound(t.journal.events, KeyOf(a), t.journal.records[KeyOf(a)]);
    }
  }

  /** What the journal says of a key and what the source holds for it agree in every run. */
  lemma JournalMatchesSource(w: World, steps: seq<Step>, k: Key)
    requires Initial(w)
    ensures var t := Run(w, steps);
      && (k !in t.journal.records ==> !Held(t, k))
      && (k in t.journal.records ==>
            var record := t.journal.records[k];
            var plan := record.actionDigest.plan;
            && KeyOf(plan) == k
            && (record.state == Prepared ==> !Held(t, k))
            && (record.state.Executed? ==> HeldFor(t, plan) && TextValued(plan))
            && (record.state.Failed? ==> (Held(t, k) ==> !TextValued(plan)))
            && (Held(t, k) ==> HeldFor(t, plan) && (TextValued(plan) ==> Uncertain(record.state) || record.state.Executed?)))
  {
    InitialInv(w);
    RunInv(w, steps);
    var t := Run(w, steps);
    if k in t.journal.records {
      PlanKeys(t.journal, k);
      assert RecordSettled(t, t.journal.records[k]);
      if Held(t, k) { assert Began(t, t.journal.records[k].actionDigest.plan); }
    }
  }

  /** An action whose record is settled was executed exactly if the source holds its key and had been given a string. */
  lemma SettledAsHeld(w: World, steps: seq<Step>, k: Key)
    requires Initial(w) && k in Run(w, steps).journal.records && Terminal(Run(w, steps).journal.records[k].state)
    ensures var t := Run(w, steps);
      t.journal.records[k].state.Executed? <==> Held(t, k) && TextValued(t.journal.records[k].actionDigest.plan)
  {
    JournalMatchesSource(w, steps, k);
  }

  // --- How records move ---

  lemma FinishMoves(l: Ledger, action: SourceActionPlan, ending: Ending, now: int, k: Key)
    requires k in l.records
    ensures var l' := FinishNext(l, action, ending, now).0;
      && k in l'.records && l'.records[k].actionDigest == l.records[k].actionDigest
      && (if k == KeyOf(action) && Bound(l, action) then l'.records[k].state == EndState(ending)
          else l'.records[k] == l.records[k])
  {
  }

  lemma WriteAheadMoves(l: Ledger, action: SourceActionPlan, decisionId: string, now: int, k: Key)
    requires LedgerInv(l) && k in l.records
    ensures forall l' | l' in {PrepareNext(l, action, decisionId, now).0, WriteAhead(l, action, decisionId, now).0} ::
      && k in l'.records && l'.records[k].actionDigest == l.records[k].actionDigest
      && (l'.records[k] == l.records[k] || (l.records[k].state == Prepared && l'.records[k].state == Executing))
  {
    hide LedgerInv;
    WriteAheadFacts(l, action, decisionId, now);
  }

  // The action a step settles and the outcome it writes, if it settles one.
  ghost function Settlement(w: World, step: Step): Option<(SourceActionPlan, Ending)> {
    match step
    case Resume(id, hookFails, done) =>
      if id in w.calls && w.calls[id].SourceReturned?
      then Some((w.calls[id].action, EndingOf(w.calls[id], hookFails, done))) else None
    case ResumeReconcile(id, done) =>
      if id in w.calls && w.calls[id].ReconcileReturned?
      then Some((w.calls[id].action, ReconcileEnding(w.calls[id], done))) else None
    case _ => None
  }

  ghost predicate SettlesKey(w: World, step: Step, k: Key) {
    Settlement(w, step).Some? && KeyOf(Settlement(w, step).value.0) == k
  }

  lemma SettlementJustified(w: World, step: Step)
    requires Inv(w) && Settlement(w, step).Some?
    ensures var (action, ending) := Settlement(w, step).value;
      && Began(w, action) && EndingJustified(w, step.id, ending) && w.calls[step.id].action == action
      && Next(w, step) == FinishCall(w, step.id, ending, step.completion.completedAt)
  {
    if step.Resume? {
      ResumeJustified(w, step.id, step.hookFails, step.completion);
    } else {
      ReconcileJustified(w, step.id, step.completion);
    }
  }

  predicate Decides(w: World, step: Step) {
    (step.Authorized? || step.DieAfterPrepare? || step.DieAfterBegin?) && step.id in w.calls && w.calls[step.id].AwaitingPolicy?
  }

  lemma UnsettledJournal(w: World, step: Step)
    requires Settlement(w, step).None?
    ensures Next(w, step).journal == w.journal || (Decides(w, step) &&
      var call := w.calls[step.id];
      Next(w, step).journal in {PrepareNext(w.journal, call.action, step.decision.decisionId, call.now).0,
                                WriteAhead(w.journal, call.action, step.decision.decisionId, call.now).0})
  {
  }

  lemma UnsettlingStepMoves(w: World, step: Step, k: Key)
    requires Inv(w) && k in w.journal.records && Settlement(w, step).None?
    ensures var records := Next(w, step).journal.records;
      && k in records && records[k].actionDigest == w.journal.records[k].actionDigest
      && (records[k] == w.journal.records[k] || (w.journal.records[k].state == Prepared && records[k].state == Executing))
  {
    hide Next, LedgerInv, Joint, WriteAhead, PrepareNext;
    UnsettledJournal(w, step);
    if Decides(w, step) {
      WriteAheadMoves(w.journal, w.calls[step.id].action, step.decision.decisionId, w.calls[step.id].now, k);
    }
  }

  /** A binding is for ever; a record begins once, ends as its call ended, and never returns to prepared. */
  lemma RecordsOnlyAdvance(w: World, step: Step, k: Key)
    requires Inv(w) && k in w.journal.records
    ensures var before, records := w.journal.records[k], Next(w, step).journal.records;
      && k in records && records[k].actionDigest == before.actionDigest
      && (if SettlesKey(w, step, k)
          then before.state != Prepared && records[k].state == EndState(Settlement(w, step).value.1)
          else records[k] == before || (before.state == Prepared && records[k].state == Executing))
  {
    if Settlement(w, step).Some? {
      SettlementJustified(w, step);
      var (action, ending) := Settlement(w, step).value;
      FinishMoves(w.journal, action, ending, step.completion.completedAt, k);
    } else {
      UnsettlingStepMoves(w, step, k);
    }
  }

  /** A request is handed to a connector only when its key is new or still prepared, and is executing afterwards. */
  lemma OnlyPreparedIsDispatched(w: World, step: Step)
    requires Inv(w) && Next(w, step).dispatched != w.dispatched
    ensures step.Authorized? && step.id in w.calls
    ensures var action := w.calls[step.id].action;
      && Next(w, step).dispatched == w.dispatched + [action]
      && (KeyOf(action) in w.journal.records ==> w.journal.records[KeyOf(action)].state == Prepared)
      && KeyOf(action) in Next(w, step).journal.records
      && Next(w, step).journal.records[KeyOf(action)].state == Executing
  {
    hide WriteAhead, PrepareNext, FinishNext, MutateNext, LedgerInv, Joint;
    var id := step.id;
    WriteAheadFacts(w.journal, w.calls[id].action, step.decision.decisionId, w.calls[id].now);
  }

  // The steps that can overwrite a settled record: a late reply or reconciliation that proved nothing.
  ghost predicate Unsettles(w: World, step: Step, k: Key) {
    match step
    case Resume(id, hookFails, _) =>
      id in w.calls && w.calls[id].SourceReturned? && KeyOf(w.calls[id].action) == k
      && (w.calls[id].outcome.Err? || hookFails)
    case ResumeReconcile(id, _) =>
      id in w.calls && w.calls[id].ReconcileReturned? && KeyOf(w.calls[id].action) == k && !Proven(w.calls[id].reply)
    case _ => false
  }

  /**
   A terminal record is not absorbing: it leaves its state exactly when a call that was already
   past its own state check comes back empty-handed, and then it demands reconciliation again.
   */
  lemma TerminalLeftExactly(w: World, step: Step, k: Key)
    requires Inv(w) && k in w.journal.records && Terminal(w.journal.records[k].state)
    ensures var new_ := Next(w, step).journal.records;
      && k in new_
      && (new_[k].state != w.journal.records[k].state <==> Unsettles(w, step, k))
      && (Unsettles(w, step, k) ==> new_[k].state == ReconciliationRequired)
  {
    hide Inv, Next;
    RecordsOnlyAdvance(w, step, k);
    if SettlesKey(w, step, k) {
      SettledAgain(w, step, k);
    }
  }

  // A second settlement of a terminal record either repeats it or unsettles it.
  lemma SettledAgain(w: World, step: Step, k: Key)
    requires Inv(w) && k in w.journal.records && Terminal(w.journal.records[k].state)
    requires SettlesKey(w, step, k)
    ensures EndState(Settlement(w, step).value.1)
         == (if Unsettles(w, step, k) then ReconciliationRequired else w.journal.records[k].state)
  {
    var record := w.journal.records[k];
    PlanKeys(w.journal, k);
    assert RecordSettled(w, record);
    assert CallSound(w, w.calls[step.id]);
    SettlementJustified(w, step);
    assert record.actionDigest.plan == w.calls[step.id].action;
  }

  // --- One call at a time ---

  predicate OneCall(w: World) {
    forall i, j :: i in w.calls && j in w.calls ==> i == j
  }

  ghost predicate CallCurrent(l: Ledger, call: Call) {
    && (SourcePhase(call) ==> Bound(l, call.action) && l.records[KeyOf(call.action)].state == Executing)
    && (call.ReconcileAsking? || call.ReconcileReturned? ==>
          Bound(l, call.action) && Uncertain(l.records[KeyOf(call.action)].state))
  }

  ghost predicate Sequential(w: World) {
    OneCall(w) && forall id :: id in w.calls ==> CallCurrent(w.journal, w.calls[id])
  }

  lemma SequentialAuthorized(w: World, id: nat, decision: PolicyDecision)
    requires Inv(w) && Sequential(w) && id in w.calls && w.calls[id].AwaitingPolicy?
    ensures Sequential(AuthorizedNext(w, id, decision))
  {
    hide WriteAhead, LedgerInv, Joint, MutateNext;
    WriteAheadFacts(w.journal, w.calls[id].action, decision.decisionId, w.calls[id].now);
  }

  // Apart from Authorized, a step of a lone call either ends it or leaves the journal alone.
  lemma SequentialOther(w: World, step: Step)
    requires Sequential(w) && OneCall(Next(w, step)) && !step.Authorized?
    ensures var w' := Next(w, step);
      w'.calls == map[] || (w'.journal == w.journal && forall id :: id in w'.calls ==> CallCurrent(w.journal, w'.calls[id]))
  {
  }

  lemma SequentialStep(w: World, step: Step)
    requires Inv(w) && Sequential(w) && OneCall(Next(w, step))
    ensures Sequential(Next(w, step))
  {
    if step.Authorized? {
      if step.id in w.calls && w.calls[step.id].AwaitingPolicy? { SequentialAuthorized(w, step.id, step.decision); }
    } else {
      SequentialOther(w, step);
    }
  }

  lemma SequentialTerminalStep(w: World, step: Step, k: Key)
    requires Inv(w) && Sequential(w) && k in w.journal.records && Terminal(w.journal.records[k].state)
    ensures k in Next(w, step).journal.records && Next(w, step).journal.records[k] == w.journal.records[k]
  {
    hide Inv, Next;
    RecordsOnlyAdvance(w, step, k);
    if Settlement(w, step).Some? { assert CallCurrent(w.journal, w.calls[step.id]); }
  }

  // At no point of the run are two calls in flight.
  ghost predicate OneAtATime(w: World, steps: seq<Step>) {
    OneCall(Run(w, steps)) && (steps != [] ==> OneAtATime(w, steps[..|steps| - 1]))
  }

  lemma {:induction false} SequentialRun(w: World, steps: seq<Step>)
    requires Initial(w) && OneAtATime(w, steps)
    ensures Inv(Run(w, steps)) && Sequential(Run(w, steps))
  {
    InitialInv(w);
    RunInv(w, steps);
    if steps != [] {
      var n := |steps| - 1;
      SequentialRun(w, steps[..n]);
      SequentialStep(Run(w, steps[..n]), steps[n]);
    }
  }

  /** With calls handled one at a time, executed and failed are absorbing: the record never changes again. */
  lemma {:induction false} SequentialTerminalIsAbsorbing(w: World, steps: seq<Step>, m: nat, k: Key)
    requires Initial(w) && m <= |steps| && OneAtATime(w, steps)
    requires k in Run(w, steps[..m]).journal.records && Terminal(Run(w, steps[..m]).journal.records[k].state)
    ensures k in Run(w, steps).journal.records
    ensures Run(w, steps).journal.records[k] == Run(w, steps[..m]).journal.records[k]
  {
    if m == |steps| {
      assert steps[..m] == steps;
    } else {
      var n := |steps| - 1;
      assert steps[..n][..m] == steps[..m];
      SequentialTerminalIsAbsorbing(w, steps[..n], m, k);
      SequentialRun(w, steps[..n]);
      SequentialTerminalStep(Run(w, steps[..n]), steps[n], k);
    }
  }

  // --- Reconciliation ---

  /**
   Reconciling an uncertain record completes it exactly when the source holds its key and had been
   given a string; otherwise the record asks for reconciliation again.
   */
  lemma ReconcileCompletesExactly(w: World, id: nat, decision: PolicyDecision, done: Completion)
    requires Inv(w) && id in w.calls && w.calls[id].ReconcileAwaitingPolicy? && decision.allowed
    requires Began(w, w.calls[id].action) && w.calls[id].action.sourceId in w.sources
    requires Uncertain(w.journal.records[KeyOf(w.calls[id].action)].state)
    ensures var action := w.calls[id].action;
      var asked := Next(Next(w, ReconcileAuthorized(id, decision)), Answer(id));
      var t := Next(asked, ResumeReconcile(id, done));
      && KeyOf(action) in t.journal.records
      && t.journal.records[KeyOf(action)].state
         == (if Held(w, KeyOf(action)) && TextValued(action) then DurableState.Executed else ReconciliationRequired)
      && t.sources == w.sources
  {
    var action := w.calls[id].action;
    var asked := Next(Next(w, ReconcileAuthorized(id, decision)), Answer(id));
    ReconcileAnswer(w, id, decision);
    ReconcileFinish(asked, id, done);
  }

  lemma ReconcileFinish(asked: World, id: nat, done: Completion)
    requires id in asked.calls && asked.calls[id].ReconcileReturned? && Bound(asked.journal, asked.calls[id].action)
    ensures var t := Next(asked, ResumeReconcile(id, done));
      && t.sources == asked.sources && KeyOf(asked.calls[id].action) in t.journal.records
      && t.journal.records[KeyOf(asked.calls[id].action)].state == EndState(ReconcileEnding(asked.calls[id], done))
  {
  }

  lemma ReconcileAnswer(w: World, id: nat, decision: PolicyDecision)
    requires Inv(w) && id in w.calls && w.calls[id].ReconcileAwaitingPolicy? && decision.allowed
    requires Began(w, w.calls[id].action) && w.calls[id].action.sourceId in w.sources
    requires Uncertain(w.journal.records[KeyOf(w.calls[id].action)].state)
    ensures var action := w.calls[id].action;
      var asked := Next(Next(w, ReconcileAuthorized(id, decision)), Answer(id));
      && id in asked.calls && asked == w.(calls := asked.calls)
      && asked.calls[id].ReconcileReturned? && asked.calls[id].action == action
      && (Proven(asked.calls[id].reply) <==> Held(w, KeyOf(action)) && TextValued(action))
  {
    hide LedgerInv, CallsApart, AdriftSound, DispatchedOnce, DispatchedBegan, RecordsSettled, MutateNext, FinishNext;
    var action := w.calls[id].action;
    if Held(w, KeyOf(action)) { assert HeldFor(w, w.journal.records[KeyOf(action)].actionDigest.plan); }
  }

  // --- The journal of a run ---

  /** verify() holds in a run exactly while nothing failed and no action id was used under two keys. */
  lemma VerifyInRuns(w: World, steps: seq<Step>)
    requires Initial(w)
    ensures Accepted(Run(w, steps).journal)
       <==> NoneFailed(Run(w, steps).journal) && DistinctActionIds(Run(w, steps).journal)
  {
    InitialInv(w);
    RunInv(w, steps);
    VerifyAcceptsExactly(Run(w, steps).journal);
  }

  /** Whatever becomes of the log of a run, while its table is left alone, verify() accepts it only if the run's log is still its beginning. */
  lemma RunLogIsProtected(w: World, steps: seq<Step>, found: Ledger)
    requires Initial(w) && found.records == Run(w, steps).journal.records
    ensures Accepted(found) ==> Run(w, steps).journal.events <= found.events
  {
    InitialInv(w);
    RunInv(w, steps);
    if Accepted(found) { AcceptedLogOnlyGrows(Run(w, steps).journal, found); }
  }

  lemma DistinctEarlier(l: Ledger, l': Ledger)
    requires LedgerInv(l) && LedgerInv(l') && DistinctActionIds(l')
    requires forall k :: k in l.records ==> k in l'.records && l'.records[k].actionDigest == l.records[k].actionDigest
    ensures DistinctActionIds(l)
  {
  }

  lemma BeginKeepsBindings(l: Ledger, action: SourceActionPlan, now: int)
    ensures var records := BeginNext(l, action, now).0.records;
      forall k :: k in l.records ==> k in records && records[k].actionDigest == l.records[k].actionDigest
  {
  }

  lemma WriteAheadProjects(l: Ledger, action: SourceActionPlan, decisionId: string, now: int)
    requires LedgerInv(l) && Projected(l) && DistinctActionIds(WriteAhead(l, action, decisionId, now).0)
    ensures Projected(WriteAhead(l, action, decisionId, now).0)
  {
    hide LedgerInv, Projected, DistinctActionIds;
    var prepared := PrepareNext(l, action, decisionId, now).0;
    PrepareKeepsLedger(l, action, decisionId, now);
    if WriteAhead(l, action, decisionId, now).0 == prepared {
      PrepareProjects(l, action, decisionId, now);
    } else {
      var begun := BeginNext(prepared, action, now).0;
      BeginKeepsLedger(prepared, action, now);
      BeginKeepsBindings(prepared, action, now);
      DistinctEarlier(prepared, begun);
      PrepareProjects(l, action, decisionId, now);
      BeginProjects(prepared, action, now);
    }
  }

  lemma StepProjects(w: World, step: Step)
    requires Inv(w) && Projected(w.journal)
    requires DistinctActionIds(w.journal) && DistinctActionIds(Next(w, step).journal)
    ensures Projected(Next(w, step).journal)
  {
    if Settlement(w, step).Some? {
      SettlementJustified(w, step);
      var (action, ending) := Settlement(w, step).value;
      FinishProjects(w.journal, action, ending, step.completion.completedAt);
    } else {
      UnsettledJournal(w, step);
      if Decides(w, step) {
        var call := w.calls[step.id];
        if Next(w, step).journal == WriteAhead(w.journal, call.action, step.decision.decisionId, call.now).0 {
          WriteAheadProjects(w.journal, call.action, step.decision.decisionId, call.now);
        } else if Next(w, step).journal != w.journal {
          PrepareProjects(w.journal, call.action, step.decision.decisionId, call.now);
        }
      }
    }
  }

  lemma {:induction false} DistinctIdsProject(w: World, steps: seq<Step>)
    requires Initial(w) && DistinctActionIds(Run(w, steps).journal)
    ensures Projected(Run(w, steps).journal)
  {
    if steps != [] {
      var n := |steps| - 1;
      var t := Run(w, steps[..n]);
      InitialInv(w);
      RunInv(w, steps[..n]);
      RunInv(w, steps);
      forall k | k in t.journal.records
        ensures k in Run(w, steps).journal.records
        ensures Run(w, steps).journal.records[k].actionDigest == t.journal.records[k].actionDigest
      {
        RecordsOnlyAdvance(t, steps[n], k);
      }
      DistinctEarlier(t.journal, Run(w, steps).journal);
      DistinctIdsProject(w, steps[..n]);
      StepProjects(t, steps[n]);
    }
  }

  // Two rows under one action id cannot both be what the log rebuilds for it.
  lemma ProjectedIdsDiffer(l: Ledger)
    requires LedgerInv(l) && Projected(l)
    ensures DistinctActionIds(l)
  {
    forall j, k | j in l.records && k in l.records && l.records[j].actionId == l.records[k].actionId
      ensures j == k
    {
      PlanKeys(l, j);
      PlanKeys(l, k);
      assert RowProjected(l, j) && RowProjected(l, k);
      assert WithoutReceipt(l.records[j]).actionDigest == WithoutReceipt(l.records[k]).actionDigest;
    }
  }

  /**
   The record table of any run is what its event log says it is, exactly while action ids are distinct:
   replaying the log rebuilds every row, receipts aside, and attempts counts its executing events.
   */
  lemma TableIsProjection(w: World, steps: seq<Step>)
    requires Initial(w)
    ensures Projected(Run(w, steps).journal) <==> DistinctActionIds(Run(w, steps).journal)
  {
    InitialInv(w);
    RunInv(w, steps);
    if DistinctActionIds(Run(w, steps).journal) { DistinctIdsProject(w, steps); }
    if Projected(Run(w, steps).journal) { ProjectedIdsDiffer(Run(w, steps).journal); }
  }
}
