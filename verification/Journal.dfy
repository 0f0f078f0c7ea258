/**
 The write-ahead action journal: a table of action records and a chained log of events.
 Each method is one committed transaction.
 */
module Journal {
  import opened Wrappers
  import opened HashChain
  import opened Ordering
  import opened Actions

  datatype DurableState = Prepared | Executing | Executed | Failed | ReconciliationRequired

  datatype EventAttributes =
    | PreparedAttributes(sourceId: string, idempotencyKey: string, actionDigest: ActionDigest, policyDecisionId: string)
    | AttemptAttributes(sourceId: string, attempt: nat)
    | OutcomeAttributes(sourceId: string, sourceVersion: Option<string>, reason: Option<string>)

  datatype EventBody = EventBody(
    eventType: DurableState, actionId: string, occurredAt: int, attributes: EventAttributes)

  type Event = Entry<EventBody>
  type EventDigest = Digest<EventBody>

  datatype ActionRecord = ActionRecord(
    sourceId: string, idempotencyKey: string, actionId: string, actionDigest: ActionDigest,
    state: DurableState, policyDecisionId: string, startedAt: int, updatedAt: int, attempts: nat,
    sourceVersion: Option<string>, receipt: Option<SourceMutationReceipt>, journalDigest: EventDigest)

  datatype Ledger = Ledger(records: map<Key, ActionRecord>, events: seq<Event>)

  const EMPTY := Ledger(map[], [])

  predicate Uncertain(state: DurableState) {
    state == Executing || state == ReconciliationRequired
  }

  // --- Transactions ---

  function Logged(events: seq<Event>, body: EventBody): seq<Event> {
    Append(events, if events == [] then 1 else events[|events| - 1].sequence + 1, body)
  }

  function PrepareNext(l: Ledger, action: SourceActionPlan, decisionId: string, now: int)
    : (Ledger, Result<ActionRecord, ActionError>)
  {
    if KeyOf(action) in l.records then
      var record := l.records[KeyOf(action)];
      (l, if record.actionDigest != DigestOf(action) then Err(IdempotencyConflict) else Ok(record))
    else
      var events := Logged(l.events, EventBody(Prepared, action.actionId, now,
        PreparedAttributes(action.sourceId, action.idempotencyKey, DigestOf(action), decisionId)));
      var record := ActionRecord(action.sourceId, action.idempotencyKey, action.actionId, DigestOf(action),
        Prepared, decisionId, now, now, 0, None, None, Head(events));
      (Ledger(l.records[KeyOf(action) := record], events), Ok(record))
  }

  function BeginNext(l: Ledger, action: SourceActionPlan, now: int): (Ledger, Result<ActionRecord, ActionError>) {
    if KeyOf(action) !in l.records then (l, Err(MissingKey))
    else
      var record := l.records[KeyOf(action)];
      if record.actionDigest != DigestOf(action) then (l, Err(IdempotencyConflict))
      else if record.state.Executed? then (l, Ok(record))
      else if record.state != Prepared then (l, Err(ActionOutcomeUnknown))
      else
        var events := Logged(l.events, EventBody(Executing, action.actionId, now,
          AttemptAttributes(action.sourceId, record.attempts + 1)));
        var updated := record.(state := Executing, updatedAt := now, attempts := record.attempts + 1,
                               journalDigest := Head(events));
        (Ledger(l.records[KeyOf(action) := updated], events), Ok(updated))
  }

  // How an attempt ended: with a receipt, or unresolved for a stated reason.
  datatype Ending = Settled(state: DurableState, receipt: SourceMutationReceipt) | Unresolved(reason: string)

  function EndState(ending: Ending): DurableState {
    match ending
    case Settled(state, _) => state
    case Unresolved(_) => ReconciliationRequired
  }

  function FinishNext(l: Ledger, action: SourceActionPlan, ending: Ending, now: int)
    : (Ledger, Result<ActionRecord, ActionError>)
  {
    if KeyOf(action) !in l.records || l.records[KeyOf(action)].actionDigest != DigestOf(action) then
      (l, Err(IdempotencyConflict))
    else
      var version := if ending.Settled? then Some(ending.receipt.sourceVersion) else None;
      var reason := if ending.Unresolved? then Some(ending.reason) else None;
      var events := Logged(l.events, EventBody(EndState(ending), action.actionId, now,
        OutcomeAttributes(action.sourceId, version, reason)));
      var updated := l.records[KeyOf(action)].(
        state := EndState(ending), updatedAt := now, sourceVersion := version,
        receipt := if ending.Settled? then Some(ending.receipt) else None,
        journalDigest := Head(events));
      (Ledger(l.records[KeyOf(action) := updated], events), Ok(updated))
  }

  // --- What verify() accepts ---

  predicate PreparedFor(e: Event, actionId: string) {
    e.body.eventType == Prepared && e.body.actionId == actionId
  }

  // Event i is the latest prepared event of the action, and carries these attributes.
  ghost predicate LastPrepared(events: seq<Event>, i: int, actionId: string, attributes: EventAttributes) {
    && 0 <= i < |events| && PreparedFor(events[i], actionId) && events[i].body.attributes == attributes
    && forall j :: i < j < |events| ==> !PreparedFor(events[j], actionId)
  }

  function BindingOf(record: ActionRecord): EventAttributes {
    PreparedAttributes(record.sourceId, record.idempotencyKey, record.actionDigest, record.policyDecisionId)
  }

  ghost predicate RecordsEvent(events: seq<Event>, i: int, record: ActionRecord) {
    && 0 <= i < |events| && events[i].digest == record.journalDigest
    && events[i].body.actionId == record.actionId
    && events[i].body.eventType == record.state
  }

  predicate ReceiptAcceptable(record: ActionRecord) {
    if record.receipt.Some? then
      && record.state.Executed?
      && record.receipt.value.actionId == record.actionId
      && record.receipt.value.actionDigest == record.actionDigest
      && record.receipt.value.idempotencyKey == record.idempotencyKey
    else !record.state.Executed?
  }

  ghost predicate RecordAccepted(l: Ledger, record: ActionRecord) {
    && (exists i :: RecordsEvent(l.events, i, record))
    && (exists i :: LastPrepared(l.events, i, record.actionId, BindingOf(record)))
    && ReceiptAcceptable(record)
  }

  ghost predicate Accepted(l: Ledger) {
    && ChainOk(l.events)
    && forall k :: k in l.records ==> RecordAccepted(l, l.records[k])
  }

  /** The keys of the uncertain records, each once, ordered by source and then idempotency key. */
  function PendingKeys(l: Ledger): (keys: seq<Key>)
    ensures forall k :: k in keys <==> k in l.records && Uncertain(l.records[k].state)
    ensures SortedBy(keys, PairLeq)
    ensures forall i, j :: 0 <= i < j < |keys| ==> keys[i] != keys[j]
    ensures forall i, j :: 0 <= i < j < |keys| ==>
      StringLeq(keys[i].0, keys[j].0) && (keys[i].0 == keys[j].0 ==> StringLeq(keys[i].1, keys[j].1))
  {
    PairOrder();
    StringOrder();
    SortSet((set k | k in l.records && Uncertain(l.records[k].state)), PairLeq)
  }

  class SQLiteActionJournal {
    var records: map<Key, ActionRecord>
    var events: seq<Event>

    constructor ()
      ensures Contents() == EMPTY
    {
      records, events := map[], [];
    }

    function Contents(): Ledger
      reads this
    {
      Ledger(records, events)
    }

    method AppendEvent(body: EventBody) returns (digest: EventDigest)
      modifies this`events
      ensures events == Logged(old(events), body) && digest == Head(events)
    {
      var previous: EventDigest := Genesis;
      var sequence := 1;
      if events != [] {
        previous := events[|events| - 1].digest;
        sequence := events[|events| - 1].sequence + 1;
      }
      digest := Link(sequence, body, previous);
      events := events + [Entry(sequence, body, previous, digest)];
    }

    method Prepare(action: SourceActionPlan, decisionId: string, now: int) returns (r: Result<ActionRecord, ActionError>)
      modifies this
      ensures (Contents(), r) == PrepareNext(old(Contents()), action, decisionId, now)
    {
      var key := KeyOf(action);
      if key in records {
        if records[key].actionDigest != DigestOf(action) {
          return Err(IdempotencyConflict);
        }
        return Ok(records[key]);
      }
      var digest := AppendEvent(EventBody(Prepared, action.actionId, now,
        PreparedAttributes(action.sourceId, action.idempotencyKey, DigestOf(action), decisionId)));
      records := records[key := ActionRecord(action.sourceId, action.idempotencyKey, action.actionId,
        DigestOf(action), Prepared, decisionId, now, now, 0, None, None, digest)];
      return Ok(records[key]);
    }

    method Begin(action: SourceActionPlan, now: int) returns (r: Result<ActionRecord, ActionError>)
      modifies this
      ensures (Contents(), r) == BeginNext(old(Contents()), action, now)
    {
      var key := KeyOf(action);
      if key !in records {
        return Err(MissingKey);
      }
      var record := records[key];
      if record.actionDigest != DigestOf(action) {
        return Err(IdempotencyConflict);
      }
      if record.state.Executed? {
        return Ok(record);
      }
      if record.state != Prepared {
        return Err(ActionOutcomeUnknown);
      }
      var digest := AppendEvent(EventBody(Executing, action.actionId, now,
        AttemptAttributes(action.sourceId, record.attempts + 1)));
      records := records[key := record.(state := Executing, updatedAt := now,
        attempts := record.attempts + 1, journalDigest := digest)];
      return Ok(records[key]);
    }

    method Finish(action: SourceActionPlan, ending: Ending, now: int) returns (r: Result<ActionRecord, ActionError>)
      modifies this
      ensures (Contents(), r) == FinishNext(old(Contents()), action, ending, now)
    {
      var key := KeyOf(action);
      if key !in records || records[key].actionDigest != DigestOf(action) {
        return Err(IdempotencyConflict);
      }
      var version, reason, receipt := None, None, None;
      match ending {
        case Settled(_, rcpt) => version, receipt := Some(rcpt.sourceVersion), Some(rcpt);
        case Unresolved(why) => reason := Some(why);
      }
      var digest := AppendEvent(EventBody(EndState(ending), action.actionId, now,
        OutcomeAttributes(action.sourceId, version, reason)));
      records := records[key := records[key].(state := EndState(ending), updatedAt := now,
        sourceVersion := version, receipt := receipt, journalDigest := digest)];
      return Ok(records[key]);
    }

    method Pending() returns (pending: seq<ActionRecord>)
      ensures |pending| == |PendingKeys(Contents())|
      ensures forall i :: 0 <= i < |pending| ==>
        PendingKeys(Contents())[i] in records && pending[i] == records[PendingKeys(Contents())[i]]
    {
      var keys := PendingKeys(Contents());
      pending := [];
      for i := 0 to |keys|
        invariant |pending| == i
        invariant forall j :: 0 <= j < i ==> keys[j] in records && pending[j] == records[keys[j]]
      {
        assert keys[i] in keys;
        pending := pending + [records[keys[i]]];
      }
    }

    // First half of verify(): walk the chain and index the events.
    method IndexEvents() returns (
        intact: bool, eventsByDigest: map<EventDigest, Event>, preparedByAction: map<string, EventAttributes>)
      ensures intact <==> ChainOk(events)
      ensures intact ==> IndexesDigests(eventsByDigest, events) && IndexesPrepared(preparedByAction, events)
    {
      hide IndexesDigests, IndexesPrepared;
      var previous: EventDigest := Genesis;
      eventsByDigest, preparedByAction := map[], map[];
      IndexNothing();
      assert events[..0] == [];
      for i := 0 to |events|
        invariant previous == Before(events, i)
        invariant forall j :: 0 <= j < i ==> LinkOk(events, j)
        invariant IndexesDigests(eventsByDigest, events[..i])
        invariant IndexesPrepared(preparedByAction, events[..i])
      {
        var row := events[i];
        if row.previous != previous || row.digest != Link(row.sequence, row.body, previous) {
          assert !LinkOk(events, i);
          return false, eventsByDigest, preparedByAction;
        }
        IndexRow(eventsByDigest, preparedByAction, events[..i], row);
        assert events[..i + 1] == events[..i] + [row];
        previous := row.digest;
        eventsByDigest := eventsByDigest[row.digest := row];
        if row.body.eventType == Prepared {
          preparedByAction := preparedByAction[row.body.actionId := row.body.attributes];
        }
      }
      assert events[..|events|] == events;
      intact := true;
    }

    method Verify() returns (accepted: bool)
      ensures accepted <==> Accepted(Contents())
    {
      var intact, eventsByDigest, preparedByAction := IndexEvents();
      if !intact {
        return false;
      }
      var rows := records.Values;
      while rows != {}
        invariant rows <= records.Values
        invariant forall r :: r in records.Values && r !in rows ==> RecordAccepted(Contents(), r)
        decreases |rows|
      {
        var row :| row in rows;
        RowDecision(Contents(), eventsByDigest, preparedByAction, row);
        if !RowMatches(eventsByDigest, preparedByAction, row) {
          var k :| k in records && records[k] == row;
          return false;
        }
        rows := rows - {row};
      }
      forall k | k in records ensures RecordAccepted(Contents(), records[k]) {
        assert records[k] in records.Values;
      }
      return true;
    }
  }

  // The two dictionaries verify() builds while it walks the log.
  ghost predicate IndexesDigests(byDigest: map<EventDigest, Event>, log: seq<Event>) {
    && (forall j :: 0 <= j < |log| ==> log[j].digest in byDigest)
    && (forall d :: d in byDigest ==> exists j :: 0 <= j < |log| && log[j] == byDigest[d] && log[j].digest == d)
  }

  ghost predicate IndexesPrepared(prepared: map<string, EventAttributes>, log: seq<Event>) {
    && (forall a :: a in prepared ==> exists j :: LastPrepared(log, j, a, prepared[a]))
    && (forall j :: 0 <= j < |log| && log[j].body.eventType == Prepared ==> log[j].body.actionId in prepared)
  }

  lemma IndexNothing()
    ensures IndexesDigests(map[], []) && IndexesPrepared(map[], [])
  {
  }

  lemma IndexRow(byDigest: map<EventDigest, Event>, prepared: map<string, EventAttributes>, log: seq<Event>, row: Event)
    requires IndexesDigests(byDigest, log) && IndexesPrepared(prepared, log)
    ensures IndexesDigests(byDigest[row.digest := row], log + [row])
    ensures IndexesPrepared(
      if row.body.eventType == Prepared then prepared[row.body.actionId := row.body.attributes] else prepared,
      log + [row])
  {
    var longer := log + [row];
    var byDigest' := byDigest[row.digest := row];
    forall d | d in byDigest'
      ensures exists j :: 0 <= j < |longer| && longer[j] == byDigest'[d] && longer[j].digest == d
    {
      if d == row.digest {
        assert longer[|log|] == row;
      } else {
        var j :| 0 <= j < |log| && log[j] == byDigest[d] && log[j].digest == d;
        assert longer[j] == log[j];
      }
    }
    var prepared' := if row.body.eventType == Prepared then prepared[row.body.actionId := row.body.attributes] else prepared;
    forall a | a in prepared' ensures exists j :: LastPrepared(longer, j, a, prepared'[a]) {
      if PreparedFor(row, a) {
        assert LastPrepared(longer, |log|, a, prepared'[a]);
      } else {
        var j :| LastPrepared(log, j, a, prepared[a]);
        assert LastPrepared(longer, j, a, prepared'[a]);
      }
    }
  }

  // The test verify() applies to one row of the record table.
  predicate RowMatches(byDigest: map<EventDigest, Event>, prepared: map<string, EventAttributes>, row: ActionRecord) {
    && row.journalDigest in byDigest
    && byDigest[row.journalDigest].body.actionId == row.actionId
    && byDigest[row.journalDigest].body.eventType == row.state
    && row.actionId in prepared
    && prepared[row.actionId] == BindingOf(row)
    && ReceiptAcceptable(row)
  }

  // The two dictionaries decide a row exactly as RecordAccepted does.
  lemma RowDecision(l: Ledger, byDigest: map<EventDigest, Event>, prepared: map<string, EventAttributes>, row: ActionRecord)
    requires ChainOk(l.events)
    requires IndexesDigests(byDigest, l.events) && IndexesPrepared(prepared, l.events)
    ensures RecordAccepted(l, row) <==> RowMatches(byDigest, prepared, row)
  {
    hide ChainOk;
    if row.journalDigest in byDigest {
      var j :| 0 <= j < |l.events| && l.events[j] == byDigest[row.journalDigest] && l.events[j].digest == row.journalDigest;
      forall i | RecordsEvent(l.events, i, row) ensures i == j { DigestsDistinct(l.events, i, j); }
      assert RecordsEvent(l.events, j, row) <==>
        byDigest[row.journalDigest].body.actionId == row.actionId && byDigest[row.journalDigest].body.eventType == row.state;
    }
    if row.actionId in prepared {
      var j :| LastPrepared(l.events, j, row.actionId, prepared[row.actionId]);
      forall i | LastPrepared(l.events, i, row.actionId, BindingOf(row)) ensures i == j {
        assert PreparedFor(l.events[i], row.actionId) && PreparedFor(l.events[j], row.actionId);
      }
    }
  }
}
