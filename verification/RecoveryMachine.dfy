/**
 The durable gateway as a state machine.  One process runs any number of execute and reconcile
 calls, interleaved at every await; it can be cancelled or killed and restarted at any point;
 a request that was sent can reach its source late, or never.  The journal and the sources survive.
 */
module RecoveryMachine {
  import opened Wrappers
  import opened Scalars
  import opened AuditLedger
  import opened Actions
  import opened LabSource
  import opened Journal

  // Where a call is suspended.
  datatype Call =
    | AwaitingPolicy(action: SourceActionPlan, now: int)
    | AwaitingSource(action: SourceActionPlan, now: int, decisionId: string)
    | SourceReturned(action: SourceActionPlan, now: int, decisionId: string, outcome: Result<MutationReply, SourceFault>)
    | ReconcileAwaitingPolicy(action: SourceActionPlan)
    | ReconcileAsking(action: SourceActionPlan, decisionId: string, startedAt: int)
    | ReconcileReturned(action: SourceActionPlan, decisionId: string, startedAt: int, reply: ReconcileReply)

  datatype World = World(
    journal: Ledger,
    sources: map<string, LabState>,      // the registered mutation connectors
    calls: map<nat, Call>,               // lost when the process dies
    adrift: set<SourceActionPlan>,       // sent, not delivered, and nobody waits for the reply
    dispatched: seq<SourceActionPlan>)   // every request handed to a connector

  // What the process observed when it settled a call.
  datatype Completion = Completion(completedAt: int, receiptId: string, auditDigest: AuditDigest)

  datatype Step =
    | Enter(id: nat, action: SourceActionPlan, now: int)
    | Authorized(id: nat, decision: PolicyDecision)
    | DieAfterPrepare(id: nat, decision: PolicyDecision)
    | DieAfterBegin(id: nat, decision: PolicyDecision)
    | Deliver(id: nat)
    | LoseReply(id: nat)
    | Resume(id: nat, hookFails: bool, completion: Completion)
    | EnterReconcile(id: nat, action: SourceActionPlan)
    | ReconcileAuthorized(id: nat, decision: PolicyDecision)
    | Answer(id: nat)
    | ResumeReconcile(id: nat, completion: Completion)
    | Cancel(id: nat)
    | Crash
    | DeliverAdrift(action: SourceActionPlan)

  // --- The code between two awaits ---

  datatype WriteAheadResult = Refused(error: ActionError) | Replay(receipt: SourceMutationReceipt) | Send

  /** prepare, the replay test and begin: one stretch of execute without an await. */
  function WriteAhead(l: Ledger, action: SourceActionPlan, decisionId: string, now: int): (Ledger, WriteAheadResult) {
    var (prepared, record) := PrepareNext(l, action, decisionId, now);
    if record.Err? then (prepared, Refused(record.error))
    else if record.value.state.Executed? && record.value.receipt.Some? then (prepared, Replay(record.value.receipt.value))
    else
      var (begun, r) := BeginNext(prepared, action, now);
      (begun, if r.Err? then Refused(r.error) else Send)
  }

  predicate Succeeded(reply: MutationReply) { reply.success && reply.postconditionsMet }

  function ReceiptFor(call: Call, done: Completion): SourceMutationReceipt
    requires call.SourceReturned? && call.outcome.Ok?
  {
    SourceMutationReceipt(done.receiptId, call.action.actionId, DigestOf(call.action), call.action.idempotencyKey,
      if Succeeded(call.outcome.value) then ActionState.Executed else ActionState.Failed, call.now, done.completedAt,
      call.outcome.value.sourceVersion, call.decisionId, done.auditDigest, None)
  }

  function EndingOf(call: Call, hookFails: bool, done: Completion): Ending
    requires call.SourceReturned?
  {
    if call.outcome.Err? || hookFails then Unresolved("outcome-unknown-after-dispatch")
    else Settled(if Succeeded(call.outcome.value) then DurableState.Executed else DurableState.Failed, ReceiptFor(call, done))
  }

  predicate Proven(reply: ReconcileReply) { reply.applied && reply.postconditionsMet }

  function RecoveredReceipt(call: Call, done: Completion): SourceMutationReceipt
    requires call.ReconcileReturned?
  {
    SourceMutationReceipt("receipt:" + call.action.actionId + ":recovered", call.action.actionId, DigestOf(call.action),
      call.action.idempotencyKey, Recovered, call.startedAt, done.completedAt, call.reply.sourceVersion,
      call.decisionId, done.auditDigest, None)
  }

  function ReconcileEnding(call: Call, done: Completion): Ending
    requires call.ReconcileReturned?
  {
    if Proven(call.reply) then Settled(DurableState.Executed, RecoveredReceipt(call, done))
    else Unresolved("source-outcome-unresolved")
  }

  predicate Bound(l: Ledger, action: SourceActionPlan) {
    KeyOf(action) in l.records && l.records[KeyOf(action)].actionDigest == DigestOf(action)
  }

  // --- Steps; a step that is not enabled changes nothing ---

  function Drop(w: World, id: nat): World {
    w.(calls := w.calls - {id})
  }

  function Kill(w: World): World {
    w.(calls := map[],
       adrift := w.adrift + set id | id in w.calls && w.calls[id].AwaitingSource? :: w.calls[id].action)
  }

  function Allowed(w: World, id: nat, decision: PolicyDecision): bool {
    id in w.calls && w.calls[id].AwaitingPolicy? && decision.allowed
  }

  function AuthorizedNext(w: World, id: nat, decision: PolicyDecision): World
    requires id in w.calls && w.calls[id].AwaitingPolicy?
  {
    var call := w.calls[id];
    if !decision.allowed then Drop(w, id)
    else
      var (journal, result) := WriteAhead(w.journal, call.action, decision.decisionId, call.now);
      if !result.Send? || call.action.sourceId !in w.sources then Drop(w.(journal := journal), id)
      else w.(journal := journal, dispatched := w.dispatched + [call.action],
              calls := w.calls[id := AwaitingSource(call.action, call.now, decision.decisionId)])
  }

  function DeliverNext(w: World, id: nat): World
    requires id in w.calls && w.calls[id].AwaitingSource? && w.calls[id].action.sourceId in w.sources
  {
    var call := w.calls[id];
    var (source, outcome) := MutateNext(w.sources[call.action.sourceId], RequestOf(call.action));
    w.(sources := w.sources[call.action.sourceId := source],
       calls := w.calls[id := SourceReturned(call.action, call.now, call.decisionId, outcome)])
  }

  function LoseReplyNext(w: World, id: nat): World
    requires id in w.calls && (w.calls[id].AwaitingSource? || w.calls[id].SourceReturned?)
  {
    var call := w.calls[id];
    w.(calls := w.calls[id := SourceReturned(call.action, call.now, call.decisionId, Err(ConnectionLost))],
       adrift := if call.AwaitingSource? then w.adrift + {call.action} else w.adrift)
  }

  function FinishCall(w: World, id: nat, ending: Ending, now: int): World
    requires id in w.calls
  {
    Drop(w.(journal := FinishNext(w.journal, w.calls[id].action, ending, now).0), id)
  }

  function ReconcileAuthorizedNext(w: World, id: nat, decision: PolicyDecision): World
    requires id in w.calls && w.calls[id].ReconcileAwaitingPolicy?
  {
    var action := w.calls[id].action;
    if !decision.allowed || !Bound(w.journal, action) then Drop(w, id)
    else
      var record := w.journal.records[KeyOf(action)];
      if !Uncertain(record.state) || action.sourceId !in w.sources then Drop(w, id)
      else w.(calls := w.calls[id := ReconcileAsking(action, decision.decisionId, record.startedAt)])
  }

  function AnswerNext(w: World, id: nat): World
    requires id in w.calls && w.calls[id].ReconcileAsking? && w.calls[id].action.sourceId in w.sources
  {
    var call := w.calls[id];
    var reply := ReconcileNext(w.sources[call.action.sourceId], call.action.actionId, call.action.idempotencyKey);
    w.(calls := w.calls[id := ReconcileReturned(call.action, call.decisionId, call.startedAt, reply)])
  }

  function DeliverAdriftNext(w: World, action: SourceActionPlan): World
    requires action in w.adrift && action.sourceId in w.sources
  {
    w.(adrift := w.adrift - {action},
       sources := w.sources[action.sourceId := MutateNext(w.sources[action.sourceId], RequestOf(action)).0])
  }

  function Next(w: World, step: Step): World {
    match step
    case Enter(id, action, now) =>
      if id in w.calls then w else w.(calls := w.calls[id := AwaitingPolicy(action, now)])
    case Authorized(id, decision) =>
      if id in w.calls && w.calls[id].AwaitingPolicy? then AuthorizedNext(w, id, decision) else w
    case DieAfterPrepare(id, decision) =>
      if !Allowed(w, id, decision) then w
      else Kill(w.(journal := PrepareNext(w.journal, w.calls[id].action, decision.decisionId, w.calls[id].now).0))
    case DieAfterBegin(id, decision) =>
      if !Allowed(w, id, decision) then w
      else Kill(w.(journal := WriteAhead(w.journal, w.calls[id].action, decision.decisionId, w.calls[id].now).0))
    case Deliver(id) =>
      if id in w.calls && w.calls[id].AwaitingSource? && w.calls[id].action.sourceId in w.sources then DeliverNext(w, id) else w
    case LoseReply(id) =>
      if id in w.calls && (w.calls[id].AwaitingSource? || w.calls[id].SourceReturned?) then LoseReplyNext(w, id) else w
    case Resume(id, hookFails, done) =>
      if id in w.calls && w.calls[id].SourceReturned?
      then FinishCall(w, id, EndingOf(w.calls[id], hookFails, done), done.completedAt) else w
    case EnterReconcile(id, action) =>
      if id in w.calls then w else w.(calls := w.calls[id := ReconcileAwaitingPolicy(action)])
    case ReconcileAuthorized(id, decision) =>
      if id in w.calls && w.calls[id].ReconcileAwaitingPolicy? then ReconcileAuthorizedNext(w, id, decision) else w
    case Answer(id) =>
      if id in w.calls && w.calls[id].ReconcileAsking? && w.calls[id].action.sourceId in w.sources then AnswerNext(w, id) else w
    case ResumeReconcile(id, done) =>
      if id in w.calls && w.calls[id].ReconcileReturned?
      then FinishCall(w, id, ReconcileEnding(w.calls[id], done), done.completedAt) else w
    case Cancel(id) =>
      if id !in w.calls then w
      else Drop(if w.calls[id].AwaitingSource? then w.(adrift := w.adrift + {w.calls[id].action}) else w, id)
    case Crash => Kill(w)
    case DeliverAdrift(action) =>
      if action in w.adrift && action.sourceId in w.sources then DeliverAdriftNext(w, action) else w
  }

  function Run(w: World, steps: seq<Step>): World {
    if steps == [] then w else Next(Run(w, steps[..|steps| - 1]), steps[|steps| - 1])
  }

  // A fresh journal in front of sources that nobody else has written a key to.
  predicate Initial(w: World) {
    && w.journal == EMPTY && w.calls == map[] && w.adrift == {} && w.dispatched == []
    && forall s :: s in w.sources ==> w.sources[s].idempotency == map[]
  }
}
