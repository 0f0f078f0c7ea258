/**
 What every journal written under the gateway's discipline satisfies, exactly when verify()
 accepts it, and why its record table can be rebuilt from its event log.
 */
module JournalIntegrity {
  import opened Wrappers
  import opened HashChain
  import opened Actions
  import opened Journal

  // --- The invariant ---

  predicate ReceiptBinds(receipt: SourceMutationReceipt, action: SourceActionPlan) {
    && receipt.actionId == action.actionId
    && receipt.actionDigest == DigestOf(action)
    && receipt.idempotencyKey == action.idempotencyKey
  }

  ghost predicate PreparedAs(events: seq<Event>, i: int, record: ActionRecord) {
    && 0 <= i < |events| && PreparedFor(events[i], record.actionId)
    && events[i].body.attributes == BindingOf(record)
  }

  ghost predicate RecordSound(events: seq<Event>, k: Key, record: ActionRecord) {
    && KeyOf(record.actionDigest.plan) == k == (record.sourceId, record.idempotencyKey)
    && record.actionId == record.actionDigest.plan.actionId
    && (exists i :: RecordsEvent(events, i, record))
    && (exists i :: PreparedAs(events, i, record))
    && record.attempts == (if record.state == Prepared then 0 else 1)
    && (match record.state
        case Prepared => record.receipt.None?
        case Executing => record.receipt.None?
        case ReconciliationRequired => record.receipt.None?
        case _ => record.receipt.Some? && ReceiptBinds(record.receipt.value, record.actionDigest.plan))
  }

  predicate PreparedEventSound(records: map<Key, ActionRecord>, e: Event) {
    e.body.eventType == Prepared ==>
      && e.body.attributes.PreparedAttributes?
      && var k := (e.body.attributes.sourceId, e.body.attributes.idempotencyKey);
      && k in records && BindingOf(records[k]) == e.body.attributes && records[k].actionId == e.body.actionId
  }

  ghost predicate Known(records: map<Key, ActionRecord>, actionId: string) {
    exists k :: k in records && records[k].actionId == actionId
  }

  ghost predicate EventSound(records: map<Key, ActionRecord>, e: Event) {
    PreparedEventSound(records, e) && Known(records, e.body.actionId)
  }

  ghost predicate RecordsSound(l: Ledger) {
    forall k :: k in l.records ==> RecordSound(l.events, k, l.records[k])
  }

  ghost predicate EventsSound(l: Ledger) {
    forall i :: 0 <= i < |l.events| ==> EventSound(l.records, l.events[i])
  }

  // The row that was written last carries the digest of the last event.
  ghost predicate HeadCarried(l: Ledger) {
    l.events != [] ==> exists k :: k in l.records && l.records[k].journalDigest == Head(l.events)
  }

  ghost predicate LedgerInv(l: Ledger) {
    ChainOk(l.events) && RecordsSound(l) && EventsSound(l) && HeadCarried(l)
  }

  // Events are only ever appended, so what a record refers to stays where it was.
  lemma RecordSoundLater(events: seq<Event>, body: EventBody, k: Key, record: ActionRecord)
    requires RecordSound(events, k, record)
    ensures RecordSound(Logged(events, body), k, record)
  {
    var i :| RecordsEvent(events, i, record);
    var j :| PreparedAs(events, j, record);
    assert RecordsEvent(Logged(events, body), i, record) && PreparedAs(Logged(events, body), j, record);
  }

  // Rewriting a record without touching its binding leaves every event accounted for.
  lemma EventSoundLater(records: map<Key, ActionRecord>, k: Key, record: ActionRecord, e: Event)
    requires EventSound(records, e)
    requires k in records ==> BindingOf(records[k]) == BindingOf(record) && records[k].actionId == record.actionId
    ensures EventSound(records[k := record], e)
  {
    var k' :| k' in records && records[k'].actionId == e.body.actionId;
    assert records[k := record][k'].actionId == e.body.actionId;
  }

  // One transaction logs an event and rewrites the record it is about.
  lemma UpdateKeepsLedger(l: Ledger, k: Key, body: EventBody, record: ActionRecord)
    requires LedgerInv(l)
    requires RecordSound(Logged(l.events, body), k, record)
    requires body.actionId == record.actionId
    requires k in l.records ==> BindingOf(l.records[k]) == BindingOf(record) && l.records[k].actionId == record.actionId
    requires body.eventType == Prepared ==> body.attributes == BindingOf(record)
    requires record.journalDigest == Head(Logged(l.events, body))
    ensures LedgerInv(Ledger(l.records[k := record], Logged(l.events, body)))
  {
    hide ChainOk, RecordsSound, EventsSound, Logged;
    LoggedKeepsChain(l.events, body);
    RecordsStaySound(l, k, body, record);
    EventsStaySound(l, k, body, record);
    assert l.records[k := record][k] == record;
  }

  lemma LoggedKeepsChain(events: seq<Event>, body: EventBody)
    requires ChainOk(events)
    ensures ChainOk(Logged(events, body))
  {
    AppendKeepsChain(events, if events == [] then 1 else events[|events| - 1].sequence + 1, body);
  }

  lemma RecordsStaySound(l: Ledger, k: Key, body: EventBody, record: ActionRecord)
    requires RecordsSound(l) && RecordSound(Logged(l.events, body), k, record)
    ensures RecordsSound(Ledger(l.records[k := record], Logged(l.events, body)))
  {
    forall k' | k' in l.records && k' != k ensures RecordSound(Logged(l.events, body), k', l.records[k']) {
      RecordSoundLater(l.events, body, k', l.records[k']);
    }
  }

  lemma EventsStaySound(l: Ledger, k: Key, body: EventBody, record: ActionRecord)
    requires EventsSound(l)
    requires body.actionId == record.actionId && KeyOf(record.actionDigest.plan) == k
    requires k == (record.sourceId, record.idempotencyKey)
    requires k in l.records ==> BindingOf(l.records[k]) == BindingOf(record) && l.records[k].actionId == record.actionId
    requires body.eventType == Prepared ==> body.attributes == BindingOf(record)
    ensures EventsSound(Ledger(l.records[k := record], Logged(l.events, body)))
  {
    var events := Logged(l.events, body);
    forall i | 0 <= i < |events| ensures EventSound(l.records[k := record], events[i]) {
      if i < |l.events| {
        EventSoundLater(l.records, k, record, l.events[i]);
      } else {
        assert l.records[k := record][k].actionId == events[i].body.actionId;
      }
    }
  }

  lemma PrepareKeepsLedger(l: Ledger, action: SourceActionPlan, decisionId: string, now: int)
    requires LedgerInv(l)
    ensures LedgerInv(PrepareNext(l, action, decisionId, now).0)
  {
    if KeyOf(action) !in l.records {
      var (l', r) := PrepareNext(l, action, decisionId, now);
      var n := |l.events|;
      assert RecordsEvent(l'.events, n, r.value) && PreparedAs(l'.events, n, r.value);
      UpdateKeepsLedger(l, KeyOf(action), l'.events[n].body, r.value);
    }
  }

  // A later event about a known action moves its record and keeps its binding.
  lemma MoveKeepsLedger(l: Ledger, k: Key, body: EventBody, record: ActionRecord)
    requires LedgerInv(l) && k in l.records
    requires BindingOf(l.records[k]) == BindingOf(record) && l.records[k].actionId == record.actionId
    requires body.eventType == record.state != Prepared && body.actionId == record.actionId
    requires record.journalDigest == Head(Logged(l.events, body)) && record.attempts == 1
    requires record.state.Executed? || record.state.Failed?
             ==> record.receipt.Some? && ReceiptBinds(record.receipt.value, record.actionDigest.plan)
    requires record.state.Executing? || record.state.ReconciliationRequired? ==> record.receipt.None?
    ensures LedgerInv(Ledger(l.records[k := record], Logged(l.events, body)))
  {
    var events := Logged(l.events, body);
    var j :| PreparedAs(l.events, j, l.records[k]);
    assert PreparedAs(events, j, record);
    assert RecordsEvent(events, |l.events|, record);
    UpdateKeepsLedger(l, k, body, record);
  }

  lemma BeginKeepsLedger(l: Ledger, action: SourceActionPlan, now: int)
    requires LedgerInv(l)
    ensures LedgerInv(BeginNext(l, action, now).0)
  {
    var (l', r) := BeginNext(l, action, now);
    if l' != l {
      MoveKeepsLedger(l, KeyOf(action), l'.events[|l.events|].body, r.value);
    }
  }

  // The endings a gateway writes: a receipt for this very action, never before the attempt began.
  predicate EndingAllowed(l: Ledger, action: SourceActionPlan, ending: Ending) {
    && (KeyOf(action) in l.records ==> l.records[KeyOf(action)].state != Prepared)
    && (ending.Settled? ==> (ending.state.Executed? || ending.state.Failed?) && ReceiptBinds(ending.receipt, action))
  }

  lemma FinishKeepsLedger(l: Ledger, action: SourceActionPlan, ending: Ending, now: int)
    requires LedgerInv(l) && EndingAllowed(l, action, ending)
    ensures LedgerInv(FinishNext(l, action, ending, now).0)
  {
    var (l', r) := FinishNext(l, action, ending, now);
    if l' != l {
      MoveKeepsLedger(l, KeyOf(action), l'.events[|l.events|].body, r.value);
    }
  }

  // --- When verify() accepts ---

  predicate DistinctActionIds(l: Ledger) {
    forall j, k :: j in l.records && k in l.records && l.records[j].actionId == l.records[k].actionId ==> j == k
  }

  predicate NoneFailed(l: Ledger) {
    forall k :: k in l.records ==> !l.records[k].state.Failed?
  }

  /**
   verify() accepts a journal written by gateways exactly when no action failed and no two
   idempotency keys share an action id.  Neither condition is a defect in the data: a failed
   record keeps its receipt, and prepared events are looked up by action id alone.
   */
  lemma VerifyAcceptsExactly(l: Ledger)
    requires LedgerInv(l)
    ensures Accepted(l) <==> NoneFailed(l) && DistinctActionIds(l)
  {
    if Accepted(l) {
      forall j, k | j in l.records && k in l.records && l.records[j].actionId == l.records[k].actionId
        ensures j == k
      {
        AcceptedRecordsDiffer(l, j, k);
      }
      forall k | k in l.records ensures !l.records[k].state.Failed? {
        assert RecordAccepted(l, l.records[k]) && RecordSound(l.events, k, l.records[k]);
      }
    }
    if NoneFailed(l) && DistinctActionIds(l) {
      forall k | k in l.records ensures RecordAccepted(l, l.records[k]) { HealthyRecordAccepted(l, k); }
    }
  }

  lemma AcceptedRecordsDiffer(l: Ledger, j: Key, k: Key)
    requires LedgerInv(l) && j in l.records && k in l.records
    requires RecordAccepted(l, l.records[j]) && RecordAccepted(l, l.records[k])
    requires l.records[j].actionId == l.records[k].actionId
    ensures j == k
  {
  }

  lemma HealthyRecordAccepted(l: Ledger, k: Key)
    requires LedgerInv(l) && k in l.records
    requires !l.records[k].state.Failed? && DistinctActionIds(l)
    ensures RecordAccepted(l, l.records[k])
  {
    var record := l.records[k];
    assert RecordSound(l.events, k, record);
    var i :| PreparedAs(l.events, i, record);
    var last := FindLastPrepared(l.events, i, record.actionId);
    assert EventSound(l.records, l.events[last]);
    assert LastPrepared(l.events, last, record.actionId, BindingOf(record));
  }

  lemma FindLastPrepared(events: seq<Event>, i: int, actionId: string) returns (last: int)
    requires 0 <= i < |events| && PreparedFor(events[i], actionId)
    ensures 0 <= last < |events| && LastPrepared(events, last, actionId, events[last].body.attributes)
  {
    last := i;
    for j := i + 1 to |events|
      invariant i <= last < j && PreparedFor(events[last], actionId)
      invariant forall m :: last < m < j ==> !PreparedFor(events[m], actionId)
    {
      if PreparedFor(events[j], actionId) { last := j; }
    }
  }

  // --- What verify() protects ---

  // Later prepared events, if there are any for a recorded action, end with one that repeats its binding.
  ghost predicate KeepsBindings(l: Ledger, from: nat) {
    forall k, i :: k in l.records && from <= i < |l.events| && PreparedFor(l.events[i], l.records[k].actionId)
      && (forall j :: i < j < |l.events| ==> !PreparedFor(l.events[j], l.records[k].actionId))
      ==> l.events[i].body.attributes == BindingOf(l.records[k])
  }

  // In an intact log, whatever ends with this digest is this history.
  lemma DigestEndsHistory(events: seq<Event>, more: seq<Event>, i: nat)
    requires ChainOk(events) && ChainOk(more) && i < |more| && more[i].digest == Head(events)
    ensures events == more[..i + 1]
  {
    hide ChainOk;
    PrefixChain(more, i + 1);
    HeadBindsHistory(events, more[..i + 1]);
  }

  /** Under an unchanged table an accepted log can only have grown: nothing was cut off, dropped, edited or put in between. */
  lemma AcceptedLogOnlyGrows(l: Ledger, l': Ledger)
    requires LedgerInv(l) && l'.records == l.records && Accepted(l')
    ensures l.events <= l'.events
  {
    hide ChainOk, RecordsSound, EventsSound, LastPrepared, ReceiptAcceptable;
    if l.events != [] {
      var k :| k in l.records && l.records[k].journalDigest == Head(l.events);
      assert RecordAccepted(l', l'.records[k]);
      var i: nat :| RecordsEvent(l'.events, i, l'.records[k]);
      DigestEndsHistory(l.events, l'.events, i);
    }
  }

  lemma GrownKeepsRow(l: Ledger, l': Ledger, k: Key)
    requires l'.records == l.records && l.events <= l'.events && k in l.records && RecordAccepted(l, l.records[k])
    ensures RecordAccepted(l', l.records[k]) <==>
      forall i :: |l.events| <= i < |l'.events| && PreparedFor(l'.events[i], l.records[k].actionId)
        && (forall j :: i < j < |l'.events| ==> !PreparedFor(l'.events[j], l.records[k].actionId))
        ==> l'.events[i].body.attributes == BindingOf(l.records[k])
  {
    hide ReceiptAcceptable, BindingOf;
    var record := l.records[k];
    var at :| RecordsEvent(l.events, at, record);
    assert RecordsEvent(l'.events, at, record);
    var p :| LastPrepared(l.events, p, record.actionId, BindingOf(record));
    var last := FindLastPrepared(l'.events, p, record.actionId);
    assert LastPrepared(l'.events, last, record.actionId, l'.events[last].body.attributes);
    if last < |l.events| {
      assert last == p;
      assert LastPrepared(l'.events, p, record.actionId, BindingOf(record));
    }
  }

  /**
   Exactly what verify() lets pass under an unchanged table: the log itself, with intact events after it that bind no
   recorded action anew.
   */
  lemma AcceptedExactlyIfGrown(l: Ledger, l': Ledger)
    requires LedgerInv(l) && Accepted(l) && l'.records == l.records
    ensures Accepted(l') <==> l.events <= l'.events && ChainOk(l'.events) && KeepsBindings(l', |l.events|)
  {
    hide LedgerInv, ChainOk, RecordAccepted;
    if Accepted(l') { AcceptedLogOnlyGrows(l, l'); }
    if l.events <= l'.events {
      forall k | k in l.records { GrownKeepsRow(l, l', k); }
    }
  }

  /** So an event chained to the end of an accepted log without its row being written goes unnoticed, unless it prepares. */
  lemma AppendedGoesUnnoticed(l: Ledger, body: EventBody)
    requires LedgerInv(l) && Accepted(l) && body.eventType != Prepared
    ensures Accepted(Ledger(l.records, Logged(l.events, body)))
  {
    hide RecordAccepted, RecordsSound, EventsSound, HeadCarried;
    LoggedKeepsChain(l.events, body);
    AcceptedExactlyIfGrown(l, Ledger(l.records, Logged(l.events, body)));
  }

  // --- The record table is a projection of the log ---

  // One event applied to the table, keyed by action id; receipts are not in the log.
  function Project(table: map<string, ActionRecord>, e: Event): map<string, ActionRecord> {
    var id, at := e.body.actionId, e.body.occurredAt;
    match e.body.attributes
    case PreparedAttributes(s, k, d, p) =>
      table[id := ActionRecord(s, k, id, d, e.body.eventType, p, at, at, 0, None, None, e.digest)]
    case AttemptAttributes(_, _) =>
      if id !in table then table
      else table[id := table[id].(state := e.body.eventType, updatedAt := at,
                                  attempts := table[id].attempts + 1, journalDigest := e.digest)]
    case OutcomeAttributes(_, version, _) =>
      if id !in table then table
      else table[id := table[id].(state := e.body.eventType, updatedAt := at,
                                  sourceVersion := version, journalDigest := e.digest)]
  }

  function Rebuild(events: seq<Event>): map<string, ActionRecord> {
    if events == [] then map[]
    else Project(Rebuild(events[..|events| - 1]), events[|events| - 1])
  }

  function WithoutReceipt(record: ActionRecord): ActionRecord {
    record.(receipt := None)
  }

  function ExecutingEvents(events: seq<Event>, actionId: string): nat {
    if events == [] then 0
    else
      var e := events[|events| - 1];
      ExecutingEvents(events[..|events| - 1], actionId)
      + if e.body.actionId == actionId && e.body.eventType == Executing then 1 else 0
  }

  lemma {:induction false} NoEventsNoAttempts(events: seq<Event>, actionId: string)
    requires forall i :: 0 <= i < |events| ==> events[i].body.actionId != actionId
    ensures ExecutingEvents(events, actionId) == 0
  {
    if events != [] { NoEventsNoAttempts(events[..|events| - 1], actionId); }
  }

  ghost predicate RowProjected(l: Ledger, k: Key)
    requires k in l.records
  {
    var record := l.records[k];
    && record.actionId in Rebuild(l.events)
    && Rebuild(l.events)[record.actionId] == WithoutReceipt(record)
    && ExecutingEvents(l.events, record.actionId) == record.attempts
  }

  /** The whole table, receipts aside, is what the log says; nothing else is in the log. */
  ghost predicate Projected(l: Ledger) {
    && (forall k :: k in l.records ==> RowProjected(l, k))
    && (forall a :: a in Rebuild(l.events) ==> Known(l.records, a))
  }

  lemma UpdateProjects(l: Ledger, k: Key, body: EventBody, record: ActionRecord)
    requires Projected(l) && body.actionId == record.actionId
    requires k in l.records ==> l.records[k].actionId == record.actionId
    requires record.attempts == ExecutingEvents(l.events, record.actionId) + if body.eventType == Executing then 1 else 0
    requires DistinctActionIds(Ledger(l.records[k := record], l.events))
    requires Project(Rebuild(l.events), Logged(l.events, body)[|l.events|])
             == Rebuild(l.events)[record.actionId := WithoutReceipt(record)]
    ensures Projected(Ledger(l.records[k := record], Logged(l.events, body)))
  {
    var l' := Ledger(l.records[k := record], Logged(l.events, body));
    assert l'.events[..|l.events|] == l.events;
    forall k' | k' in l'.records ensures RowProjected(l', k') {
      if k' != k {
        assert k in l'.records && l'.records[k'].actionId != record.actionId;
        assert RowProjected(l, k');
      }
    }
    forall a | a in Rebuild(l'.events) ensures Known(l'.records, a) {
      if a == record.actionId {
        assert l'.records[k].actionId == a;
      } else {
        var k' :| k' in l.records && l.records[k'].actionId == a;
        assert l'.records[k'].actionId == a;
      }
    }
  }

  lemma KnownIsRecorded(l: Ledger, i: nat)
    requires EventsSound(l) && i < |l.events|
    ensures Known(l.records, l.events[i].body.actionId)
  {
    assert EventSound(l.records, l.events[i]);
  }

  // A new action id is on no event yet.
  lemma NewActionHasNoEvents(l: Ledger, action: SourceActionPlan, decisionId: string, now: int, i: nat)
    requires EventsSound(l) && KeyOf(action) !in l.records && i < |l.events|
    requires DistinctActionIds(PrepareNext(l, action, decisionId, now).0)
    ensures l.events[i].body.actionId != action.actionId
  {
    hide EventsSound, EventSound;
    KnownIsRecorded(l, i);
    var next := PrepareNext(l, action, decisionId, now).0;
    var k :| k in l.records && l.records[k].actionId == l.events[i].body.actionId;
    assert KeyOf(action) in next.records && k in next.records && next.records[k] == l.records[k];
  }

  lemma PrepareProjects(l: Ledger, action: SourceActionPlan, decisionId: string, now: int)
    requires LedgerInv(l) && Projected(l)
    requires DistinctActionIds(PrepareNext(l, action, decisionId, now).0)
    ensures Projected(PrepareNext(l, action, decisionId, now).0)
  {
    hide EventsSound, RecordsSound, HeadCarried, ChainOk;
    var k := KeyOf(action);
    if k !in l.records {
      var (l', r) := PrepareNext(l, action, decisionId, now);
      forall i | 0 <= i < |l.events| ensures l.events[i].body.actionId != action.actionId {
        NewActionHasNoEvents(l, action, decisionId, now, i);
      }
      NoEventsNoAttempts(l.events, action.actionId);
      UpdateProjects(l, k, l'.events[|l.events|].body, r.value);
    }
  }

  // A record bound to an action describes that action.
  lemma BoundRecord(l: Ledger, action: SourceActionPlan)
    requires LedgerInv(l) && KeyOf(action) in l.records
    requires l.records[KeyOf(action)].actionDigest == DigestOf(action)
    ensures l.records[KeyOf(action)].actionId == action.actionId
  {
  }

  // A later event about a projected row moves that row and no other.
  lemma MoveProjects(l: Ledger, k: Key, body: EventBody, record: ActionRecord)
    requires Projected(l) && DistinctActionIds(l) && k in l.records
    requires body.actionId == record.actionId == l.records[k].actionId
    requires !body.attributes.PreparedAttributes?
    requires body.attributes.AttemptAttributes? <==> body.eventType == Executing
    requires WithoutReceipt(record) ==
      WithoutReceipt(l.records[k]).(
        state := body.eventType, updatedAt := body.occurredAt,
        attempts := l.records[k].attempts + (if body.eventType == Executing then 1 else 0),
        sourceVersion := if body.attributes.OutcomeAttributes? then body.attributes.sourceVersion else l.records[k].sourceVersion,
        journalDigest := Head(Logged(l.events, body)))
    ensures Projected(Ledger(l.records[k := record], Logged(l.events, body)))
  {
    assert RowProjected(l, k);
    DistinctAfterUpdate(l, k, record);
    UpdateProjects(l, k, body, record);
  }

  lemma DistinctAfterUpdate(l: Ledger, k: Key, record: ActionRecord)
    requires DistinctActionIds(l) && k in l.records && l.records[k].actionId == record.actionId
    ensures DistinctActionIds(Ledger(l.records[k := record], l.events))
  {
  }

  lemma BeginProjects(l: Ledger, action: SourceActionPlan, now: int)
    requires LedgerInv(l) && Projected(l) && DistinctActionIds(l)
    ensures Projected(BeginNext(l, action, now).0)
  {
    hide EventsSound, ChainOk, HeadCarried, Projected, DistinctActionIds;
    var k := KeyOf(action);
    if k in l.records && l.records[k].actionDigest == DigestOf(action) && l.records[k].state == Prepared {
      BoundRecord(l, action);
      var (l', r) := BeginNext(l, action, now);
      MoveProjects(l, k, l'.events[|l.events|].body, r.value);
    }
  }

  lemma FinishProjects(l: Ledger, action: SourceActionPlan, ending: Ending, now: int)
    requires LedgerInv(l) && Projected(l) && DistinctActionIds(l)
    requires EndingAllowed(l, action, ending)
    ensures Projected(FinishNext(l, action, ending, now).0)
  {
    var k := KeyOf(action);
    if k in l.records && l.records[k].actionDigest == DigestOf(action) {
      BoundRecord(l, action);
      var (l', r) := FinishNext(l, action, ending, now);
      MoveProjects(l, k, l'.events[|l.events|].body, r.value);
    }
  }

  predicate LastEventOf(events: seq<Event>, i: int, actionId: string) {
    && 0 <= i < |events| && events[i].body.actionId == actionId
    && forall j :: i < j < |events| ==> events[j].body.actionId != actionId
  }

  /** The rebuilt row of an action is dated, stated and digested by the action's last event. */
  lemma {:induction false} RebuiltRowIsLastEvent(events: seq<Event>, i: int, actionId: string)
    requires LastEventOf(events, i, actionId) && actionId in Rebuild(events)
    ensures var row := Rebuild(events)[actionId];
      && row.journalDigest == events[i].digest && row.state == events[i].body.eventType
      && row.updatedAt == events[i].body.occurredAt
  {
    var n := |events| - 1;
    if i != n {
      RebuiltRowIsLastEvent(events[..n], i, actionId);
    }
  }
}
