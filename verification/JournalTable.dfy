/** What verify() says of the record table, row by row and field by field, while the log is as it was. */
module JournalTable {
  import opened Wrappers
  import opened HashChain
  import opened Actions
  import opened Journal
  import opened JournalIntegrity

  // Event i has the row's digest, action and state.
  predicate Stands(events: seq<Event>, i: int, row: ActionRecord) {
    && 0 <= i < |events| && events[i].digest == row.journalDigest
    && events[i].body.actionId == row.actionId && events[i].body.eventType == row.state
  }

  // Event i is the last that prepared the action, and it named this source, key, digest and decision.
  predicate BoundBy(events: seq<Event>, i: int, row: ActionRecord) {
    && 0 <= i < |events| && events[i].body.eventType == Prepared && events[i].body.actionId == row.actionId
    && events[i].body.attributes
       == PreparedAttributes(row.sourceId, row.idempotencyKey, row.actionDigest, row.policyDecisionId)
    && forall j :: i < j < |events| ==> !(events[j].body.eventType == Prepared && events[j].body.actionId == row.actionId)
  }

  predicate CarriesIts(receipt: SourceMutationReceipt, row: ActionRecord) {
    receipt.actionId == row.actionId && receipt.actionDigest == row.actionDigest && receipt.idempotencyKey == row.idempotencyKey
  }

  // A receipt exactly on an executed row, and its own.
  predicate Receipted(row: ActionRecord) {
    (row.receipt.Some? <==> row.state.Executed?) && (row.receipt.Some? ==> CarriesIts(row.receipt.value, row))
  }

  ghost predicate RowHeld(events: seq<Event>, row: ActionRecord) {
    (exists i :: Stands(events, i, row)) && (exists i :: BoundBy(events, i, row)) && Receipted(row)
  }

  lemma RowHeldIsAccepted(l: Ledger, row: ActionRecord)
    ensures RecordAccepted(l, row) <==> RowHeld(l.events, row)
  {
    forall i ensures RecordsEvent(l.events, i, row) <==> Stands(l.events, i, row) {}
    forall i ensures LastPrepared(l.events, i, row.actionId, BindingOf(row)) <==> BoundBy(l.events, i, row) {}
  }

  /** Over an intact log verify() accepts exactly the tables in which every row is held by it. */
  lemma TableAcceptedExactly(l: Ledger)
    requires ChainOk(l.events)
    ensures Accepted(l) <==> forall k :: k in l.records ==> RowHeld(l.events, l.records[k])
  {
    hide RecordAccepted, RowHeld;
    forall k | k in l.records { RowHeldIsAccepted(l, l.records[k]); }
  }

  // --- One row rewritten ---

  lemma BoundOnce(events: seq<Event>, row: ActionRecord, other: ActionRecord)
    requires row.actionId == other.actionId && exists i :: BoundBy(events, i, row)
    ensures (exists i :: BoundBy(events, i, other)) <==>
      && other.sourceId == row.sourceId && other.idempotencyKey == row.idempotencyKey
      && other.actionDigest == row.actionDigest && other.policyDecisionId == row.policyDecisionId
  {
    var i :| BoundBy(events, i, row);
    if j :| BoundBy(events, j, other) {
      assert j == i;
    }
    if other.sourceId == row.sourceId && other.idempotencyKey == row.idempotencyKey
       && other.actionDigest == row.actionDigest && other.policyDecisionId == row.policyDecisionId {
      assert BoundBy(events, i, other);
    }
  }

  /**
   Rewriting a row of an accepted journal, its action id apart, is noticed unless the row keeps its four bound fields, stands at
   some event of its action and has a receipt of its own exactly if it says EXECUTED.
   */
  lemma RewrittenRowExactly(l: Ledger, k: Key, row: ActionRecord)
    requires Accepted(l) && k in l.records && row.actionId == l.records[k].actionId
    ensures var was := l.records[k];
      Accepted(Ledger(l.records[k := row], l.events)) <==>
        && row.sourceId == was.sourceId && row.idempotencyKey == was.idempotencyKey
        && row.actionDigest == was.actionDigest && row.policyDecisionId == was.policyDecisionId
        && (exists i :: Stands(l.events, i, row)) && Receipted(row)
  {
    hide BoundBy, Stands, Receipted, RecordAccepted;
    var l' := Ledger(l.records[k := row], l.events);
    TableAcceptedExactly(l);
    TableAcceptedExactly(l');
    assert RowHeld(l.events, l.records[k]);
    BoundOnce(l.events, l.records[k], row);
    assert l'.records[k] == row;
    forall j | j in l'.records && j != k ensures RowHeld(l.events, l'.records[j]) { assert l'.records[j] == l.records[j]; }
  }

  /** A receipt put in place of a row's own is noticed if it differs in action id, digest or key. */
  lemma ForeignReceiptNoticed(l: Ledger, k: Key, receipt: SourceMutationReceipt)
    requires Accepted(l) && k in l.records
    ensures var row := l.records[k];
      Accepted(Ledger(l.records[k := row.(receipt := Some(receipt))], l.events)) <==>
        row.state.Executed? && receipt.actionId == row.actionId && receipt.actionDigest == row.actionDigest
        && receipt.idempotencyKey == row.idempotencyKey
  {
    hide BoundBy, RecordAccepted;
    var row := l.records[k];
    TableAcceptedExactly(l);
    assert RowHeld(l.events, row);
    var i :| Stands(l.events, i, row);
    assert Stands(l.events, i, row.(receipt := Some(receipt)));
    RewrittenRowExactly(l, k, row.(receipt := Some(receipt)));
  }

  /** A row put back to an earlier event of its action, short of EXECUTED, goes unnoticed; so does any change to its times, attempts or source version. */
  lemma RolledBackUnnoticed(l: Ledger, k: Key, i: nat, startedAt: int, updatedAt: int, attempts: nat, sourceVersion: Option<string>)
    requires Accepted(l) && k in l.records && i < |l.events|
    requires l.events[i].body.actionId == l.records[k].actionId && !l.events[i].body.eventType.Executed?
    ensures Accepted(Ledger(l.records[k := l.records[k].(state := l.events[i].body.eventType, journalDigest := l.events[i].digest, receipt := None,
      startedAt := startedAt, updatedAt := updatedAt, attempts := attempts, sourceVersion := sourceVersion)], l.events))
  {
    hide BoundBy, RecordAccepted;
    var row := l.records[k].(state := l.events[i].body.eventType, journalDigest := l.events[i].digest, receipt := None,
      startedAt := startedAt, updatedAt := updatedAt, attempts := attempts, sourceVersion := sourceVersion);
    assert Stands(l.events, i, row);
    RewrittenRowExactly(l, k, row);
  }

  // --- Settling ---

  /** Row and event of an ending: a settled one carries the receipt and its version, an unresolved one no receipt, no version and a reason. */
  lemma EndingIsRecorded(l: Ledger, action: SourceActionPlan, ending: Ending, now: int)
    requires KeyOf(action) in l.records && l.records[KeyOf(action)].actionDigest == DigestOf(action)
    ensures var l', k := FinishNext(l, action, ending, now).0, KeyOf(action);
      && l'.records == l.records[k := l'.records[k]] && |l'.events| == |l.events| + 1
      && var row, event := l'.records[k], l'.events[|l.events|];
      && row == l.records[k].(state := event.body.eventType, updatedAt := now, sourceVersion := row.sourceVersion,
                              receipt := row.receipt, journalDigest := event.digest)
      && event.body.actionId == action.actionId && event.body.occurredAt == now
      && match ending
         case Settled(state, receipt) =>
           && row.state == state && row.receipt == Some(receipt) && row.sourceVersion == Some(receipt.sourceVersion)
           && event.body.attributes == OutcomeAttributes(action.sourceId, Some(receipt.sourceVersion), None)
         case Unresolved(reason) =>
           && row.state == ReconciliationRequired && row.receipt == None && row.sourceVersion == None
           && event.body.attributes == OutcomeAttributes(action.sourceId, None, Some(reason))
  {
  }

  lemma SettledRow(l: Ledger, action: SourceActionPlan, receipt: SourceMutationReceipt, now: int)
    requires KeyOf(action) in l.records && l.records[KeyOf(action)].actionDigest == DigestOf(action)
    ensures var l' := FinishNext(l, action, Settled(DurableState.Executed, receipt), now).0; var k := KeyOf(action);
      && k in l'.records && l'.records == l.records[k := l'.records[k]]
      && l'.records[k].state.Executed? && l'.records[k].receipt == Some(receipt)
      && l'.records[k].actionId == l.records[k].actionId && l'.records[k].actionDigest == l.records[k].actionDigest
      && l'.records[k].idempotencyKey == l.records[k].idempotencyKey
  {
  }

  lemma NoFailureMore(l: Ledger, k: Key, row: ActionRecord, events: seq<Event>)
    requires NoneFailed(l) && DistinctActionIds(l) && k in l.records && row.actionId == l.records[k].actionId && !row.state.Failed?
    ensures NoneFailed(Ledger(l.records[k := row], events)) && DistinctActionIds(Ledger(l.records[k := row], events))
  {
  }

  /** Settling a begun record of an accepted journal as a success keeps it accepted exactly if the receipt is the record's own. */
  lemma SettledAcceptedExactly(l: Ledger, action: SourceActionPlan, receipt: SourceMutationReceipt, now: int)
    requires LedgerInv(l) && Accepted(l) && KeyOf(action) in l.records
    requires l.records[KeyOf(action)].actionDigest == DigestOf(action) && l.records[KeyOf(action)].state != Prepared
    ensures Accepted(FinishNext(l, action, Settled(DurableState.Executed, receipt), now).0) <==>
      receipt.actionId == action.actionId && receipt.actionDigest == DigestOf(action) && receipt.idempotencyKey == action.idempotencyKey
  {
    hide FinishNext, LedgerInv, RecordAccepted, ChainOk;
    var k, ending := KeyOf(action), Settled(DurableState.Executed, receipt);
    var l' := FinishNext(l, action, ending, now).0;
    SettledRow(l, action, receipt, now);
    BoundRecord(l, action);
    BoundKey(l, action);
    if ReceiptBinds(receipt, action) {
      FinishKeepsLedger(l, action, ending, now);
      VerifyAcceptsExactly(l);
      NoFailureMore(l, k, l'.records[k], l'.events);
      assert l' == Ledger(l.records[k := l'.records[k]], l'.events);
      VerifyAcceptsExactly(l');
    } else if Accepted(l') {
      assert RecordAccepted(l', l'.records[k]);
      RowHeldIsAccepted(l', l'.records[k]);
    }
  }

  lemma BoundKey(l: Ledger, action: SourceActionPlan)
    requires LedgerInv(l) && KeyOf(action) in l.records
    ensures l.records[KeyOf(action)].idempotencyKey == action.idempotencyKey
  {
  }
}
